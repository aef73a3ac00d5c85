/** The session-length formatter of the analytics page (`Analytics.tsx`): whole seconds
    shown as minutes, a colon and two-digit seconds. */
module Analytics {
  import opened Js

  /** `formatDuration`: `Math.floor(seconds / 60)`, then `seconds % 60` padded to two
      characters with '0'. The remainder is JavaScript's, so a negative duration keeps
      its sign in both fields. */
  function FormatDuration(seconds: int): string {
    IntToString(seconds / 60) + ":" + PadStart(IntToString(JsRem(seconds, 60)), 2, '0')
  }

  /** The seconds field of a non-negative duration. */
  function SecondsField(seconds: nat): (r: string)
    ensures |r| == 2 && forall i :: 0 <= i < 2 ==> IsDigit(r[i])
    ensures ParseDigits(r) == seconds % 60 < 60
  {
    var d := seconds % 60;
    ParseNatToString(d);
    if d < 10 then
      var r := ['0'] + NatToString(d);
      assert r[..1] == ['0'] && r[1..] == NatToString(d);
      assert ParseDigits(['0']) == 0 by {
        assert ['0'][..0] == [];
      }
      r
    else
      assert |NatToString(d / 10)| == 1;
      NatToString(d)
  }

  lemma SecondsFieldIsPadded(seconds: nat)
    ensures PadStart(IntToString(JsRem(seconds, 60)), 2, '0') == SecondsField(seconds)
  {
    var d := seconds % 60;
    if d >= 10 {
      assert |NatToString(d / 10)| == 1;
    }
  }

  /** A non-negative duration: the unpadded minutes, a colon and the seconds field. */
  lemma FormatNat(seconds: nat)
    ensures FormatDuration(seconds) == NatToString(seconds / 60) + ":" + SecondsField(seconds)
  {
    var m := seconds / 60;
    var d := JsRem(seconds, 60);
    SecondsFieldIsPadded(seconds);
    NonNegativeText(m);
    assert FormatDuration(seconds) == IntToString(m) + ":" + PadStart(IntToString(d), 2, '0');
  }

  lemma NonNegativeText(n: nat)
    ensures IntToString(n) == NatToString(n)
  {
  }

  /** The colon after a run of digits is the first one. */
  lemma ColonAfterDigits(m: string, sec: string)
    requires forall k :: 0 <= k < |m| ==> IsDigit(m[k])
    ensures var r := m + ":" + sec;
      ':' in r && IndexOf(r, ':') == |m| && r[..|m|] == m && r[|m| + 1..] == sec
  {
    var r := m + ":" + sec;
    assert r[|m|] == ':';
    assert r[..|m|] == m;
    assert r[|m| + 1..] == sec;
  }

  /** For a non-negative duration the text is the unpadded minutes, a colon and exactly
      two digits below 60, and reading the two numbers back gives the duration. */
  lemma DurationRoundTrip(seconds: nat)
    ensures var r := FormatDuration(seconds);
      var i := IndexOf(r, ':');
      ':' in r && i + 3 == |r|
      && var minutes, secs := r[..i], r[i + 1..];
      minutes == NatToString(seconds / 60)
      && secs == SecondsField(seconds)
      && ParseDigits(secs) < 60
      && ParseDigits(minutes) * 60 + ParseDigits(secs) == seconds
  {
    FormatNat(seconds);
    ColonAfterDigits(NatToString(seconds / 60), SecondsField(seconds));
    ParseNatToString(seconds / 60);
  }

  /** Under a minute the text is "0:" and the two-digit seconds. */
  lemma UnderAMinute(seconds: nat)
    requires seconds < 60
    ensures FormatDuration(seconds) == "0:" + SecondsField(seconds)
  {
    var sf := SecondsField(seconds);
    assert seconds / 60 == 0;
    FormatNat(seconds);
    assert NatToString(0) == "0";
    assert "0" + ":" == "0:";
    assert FormatDuration(seconds) == ("0" + ":") + sf;
  }

  /** The average session of 185 seconds reads "3:05". */
  lemma SampleSession()
    ensures FormatDuration(185) == "3:05"
  {
    FormatNat(185);
    assert NatToString(3) == "3";
    assert NatToString(5) == "5";
    assert SecondsField(185) == "05";
  }
}
