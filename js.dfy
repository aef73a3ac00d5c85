/** The JavaScript string and number semantics the blog CMS relies on, stated over Dafny
    strings: the `\s` white-space class, ASCII lower-casing, `trim`, `includes`,
    `startsWith`, `endsWith`, `split` on one character, `join`, `slice`, `%` on negative
    numbers, decimal formatting and `padStart`. */
module Js {

  datatype Option<+T> = None | Some(value: T) {
    /** `x ?? d` / `x || d` for an optional value. */
    function GetOr(default: T): T {
      if Some? then value else default
    }
  }

  /** An optional string that JavaScript treats as true: present and not ''. */
  predicate TruthyText(s: Option<string>) {
    s.Some? && s.value != ""
  }

  /** How an awaited call ended: it resolved, or it threw; a thrown `Error` carries its
      message, any other value none. */
  datatype Outcome = Resolved | Threw(message: Option<string>)

  /** The characters matched by `\s` and removed by `String.prototype.trim`. */
  predicate IsSpace(c: char) {
    var n := c as int;
    n == 0x09 || n == 0x0A || n == 0x0B || n == 0x0C || n == 0x0D || n == 0x20
    || n == 0xA0 || n == 0x1680 || (0x2000 <= n <= 0x200A) || n == 0x2028 || n == 0x2029
    || n == 0x202F || n == 0x205F || n == 0x3000 || n == 0xFEFF
  }

  predicate NoSpace(s: string) {
    forall i :: 0 <= i < |s| ==> !IsSpace(s[i])
  }

  predicate IsBlank(s: string) {
    forall i :: 0 <= i < |s| ==> IsSpace(s[i])
  }

  function TrimStart(s: string): string {
    if s != [] && IsSpace(s[0]) then TrimStart(s[1..]) else s
  }

  function TrimEnd(s: string): string {
    if s != [] && IsSpace(s[|s| - 1]) then TrimEnd(s[..|s| - 1]) else s
  }

  /** `s.trim()`. */
  function Trim(s: string): string {
    TrimEnd(TrimStart(s))
  }

  /** `trimStart` drops a blank prefix and keeps the rest, which starts with no white space. */
  lemma {:induction false} TrimStartProps(s: string)
    ensures var r := TrimStart(s);
      |r| <= |s| && r == s[|s| - |r|..] && (r == [] || !IsSpace(r[0])) && IsBlank(s[..|s| - |r|])
  {
    if s != [] && IsSpace(s[0]) {
      var t := s[1..];
      TrimStartProps(t);
      var r := TrimStart(t);
      assert t[|t| - |r|..] == s[|s| - |r|..];
      forall i | 0 <= i < |s| - |r| ensures IsSpace(s[i]) {
        if i > 0 {
          assert s[i] == t[..|t| - |r|][i - 1];
        }
      }
    }
  }

  /** `trimEnd` drops a blank suffix and keeps the rest, which ends with no white space. */
  lemma {:induction false} TrimEndProps(s: string)
    ensures var r := TrimEnd(s);
      |r| <= |s| && r == s[..|r|] && (r == [] || !IsSpace(r[|r| - 1])) && IsBlank(s[|r|..])
  {
    if s != [] && IsSpace(s[|s| - 1]) {
      var p := s[..|s| - 1];
      TrimEndProps(p);
      var r := TrimEnd(p);
      assert p[..|r|] == s[..|r|];
      forall j | |r| <= j < |s| ensures IsSpace(s[j]) {
        if j < |s| - 1 {
          assert s[j] == p[|r|..][j - |r|];
        }
      }
    }
  }

  /** `trim` removes white space at both ends and nothing else. */
  lemma TrimShape(s: string)
    ensures var r := Trim(s);
      exists i :: 0 <= i <= |s| - |r| && r == s[i..i + |r|]
        && IsBlank(s[..i]) && IsBlank(s[i + |r|..])
    ensures IsTrimmed(Trim(s))
  {
    var t := TrimStart(s);
    var r := TrimEnd(t);
    TrimStartProps(s);
    TrimEndProps(t);
    var i := |s| - |t|;
    SliceOfSlice(s, i, |r|);
    assert IsBlank(s[..i]) && IsBlank(s[i + |r|..]) && r == s[i..i + |r|];
    TrimIsTrimmed(s);
  }

  /** No white space is left at either end. */
  lemma TrimIsTrimmed(s: string)
    ensures IsTrimmed(Trim(s))
  {
    TrimStartProps(s);
    TrimEndOfTrimmedStart(TrimStart(s));
  }

  /** Every character of the trimmed string occurs in the string. */
  lemma TrimChars(s: string)
    ensures forall c :: c in Trim(s) ==> c in s
  {
    var t := TrimStart(s);
    var r := TrimEnd(t);
    TrimStartProps(s);
    TrimEndProps(t);
    forall c | c in r ensures c in s {
      var k :| 0 <= k < |r| && r[k] == c;
      assert r[k] == t[k] == s[|s| - |t| + k];
    }
  }

  lemma SliceOfSlice<T>(s: seq<T>, i: int, n: int)
    requires 0 <= i <= |s| && 0 <= n <= |s| - i
    ensures s[i..][..n] == s[i..i + n] && s[i..][n..] == s[i + n..]
  {
  }

  /** Trimming the end of a string that starts with no white space gives a trimmed string. */
  lemma TrimEndOfTrimmedStart(t: string)
    requires t == [] || !IsSpace(t[0])
    ensures IsTrimmed(TrimEnd(t))
  {
    var r := TrimEnd(t);
    TrimEndProps(t);
    if r != [] {
      assert r[0] == t[0];
    }
  }

  /** A string is blank exactly when trimming leaves nothing (the `!x.trim()` guards). */
  lemma TrimEmptyIffBlank(s: string)
    ensures Trim(s) == [] <==> IsBlank(s)
  {
    var t := TrimStart(s);
    TrimStartProps(s);
    TrimEndProps(t);
    if Trim(s) == [] {
      assert IsBlank(t[0..]);
      assert s == s[..|s| - |t|] + t;
    }
  }

  lemma TrimNoSpace(s: string)
    requires NoSpace(s)
    ensures Trim(s) == s
  {
  }

  /** No white space at either end. */
  predicate IsTrimmed(s: string) {
    s == [] || (!IsSpace(s[0]) && !IsSpace(s[|s| - 1]))
  }

  /** Trimming a trimmed string changes nothing. */
  lemma TrimTrimmed(s: string)
    requires IsTrimmed(s)
    ensures Trim(s) == s
  {
    assert TrimStart(s) == s;
  }

  /** One space before a trimmed, non-empty string is trimmed away again. */
  lemma TrimLeadingSpace(t: string)
    requires t != [] && IsTrimmed(t)
    ensures Trim(" " + t) == t
  {
    assert (" " + t)[1..] == t;
    assert TrimStart(" " + t) == TrimStart(t) == t;
  }

  /** Putting text before the first piece puts it before the joined string. */
  lemma JoinPrefixFirst(a: string, q: seq<string>, sep: string)
    requires |q| >= 1
    ensures a + Join(q, sep) == Join([a + q[0]] + q[1..], sep)
  {
    var r := [a + q[0]] + q[1..];
    assert r[0] == a + q[0] && r[1..] == q[1..];
  }

  function LowerChar(c: char): char {
    if 'A' <= c <= 'Z' then (c as int + 32) as char else c
  }

  /** `toLowerCase`, restricted to the ASCII letters. */
  function ToLower(s: string): (r: string)
    ensures |r| == |s|
    ensures forall i :: 0 <= i < |s| ==> r[i] == LowerChar(s[i])
  {
    if s == [] then [] else [LowerChar(s[0])] + ToLower(s[1..])
  }

  predicate StartsWith<T(==)>(s: seq<T>, prefix: seq<T>) {
    |prefix| <= |s| && s[..|prefix|] == prefix
  }

  predicate EndsWith<T(==)>(s: seq<T>, suffix: seq<T>) {
    |suffix| <= |s| && s[|s| - |suffix|..] == suffix
  }

  /** `s.includes(part)`. */
  predicate Includes(s: string, part: string)
    decreases |s|
  {
    StartsWith(s, part) || (s != [] && Includes(s[1..], part))
  }

  /** `part` sits in `s` starting at position `i`. */
  predicate OccursAt(s: string, part: string, i: int) {
    0 <= i <= |s| - |part| && s[i..i + |part|] == part
  }

  /** `includes` holds exactly when `part` occurs at some position of `s`. */
  lemma {:induction false} IncludesIffOccurs(s: string, part: string)
    ensures Includes(s, part) <==> exists i :: OccursAt(s, part, i)
    decreases |s|
  {
    if s != [] {
      IncludesIffOccurs(s[1..], part);
      if exists i :: OccursAt(s, part, i) {
        var i :| OccursAt(s, part, i);
        if i > 0 {
          assert s[1..][i - 1..i - 1 + |part|] == part;
          assert OccursAt(s[1..], part, i - 1);
        }
      }
      if StartsWith(s, part) {
        assert OccursAt(s, part, 0);
      }
      if Includes(s[1..], part) {
        var i :| OccursAt(s[1..], part, i);
        assert s[i + 1..i + 1 + |part|] == part;
        assert OccursAt(s, part, i + 1);
      }
    } else {
      if exists i :: OccursAt(s, part, i) {
        var i :| OccursAt(s, part, i);
        assert part == [];
      }
      if Includes(s, part) {
        assert OccursAt(s, part, 0);
      }
    }
  }

  /** `text.includes('')` is always true. */
  lemma IncludesEmpty(s: string)
    ensures Includes(s, [])
  {
  }

  /** Index of the first occurrence of `c`. */
  function IndexOf<T(==)>(s: seq<T>, c: T): (i: nat)
    requires c in s
    ensures i < |s| && s[i] == c && c !in s[..i]
  {
    if s[0] == c then 0 else 1 + IndexOf(s[1..], c)
  }

  function CountOf<T(==)>(s: seq<T>, c: T): nat {
    if s == [] then 0 else (if s[0] == c then 1 else 0) + CountOf(s[1..], c)
  }

  lemma {:induction false} CountOfAppend<T>(a: seq<T>, b: seq<T>, c: T)
    ensures CountOf(a + b, c) == CountOf(a, c) + CountOf(b, c)
  {
    if a != [] {
      assert (a + b)[0] == a[0];
      assert (a + b)[1..] == a[1..] + b;
      CountOfAppend(a[1..], b, c);
    } else {
      assert a + b == b;
    }
  }

  lemma {:induction false} CountOfZero<T>(s: seq<T>, c: T)
    ensures CountOf(s, c) == 0 <==> c !in s
  {
    if s != [] {
      CountOfZero(s[1..], c);
    }
  }

  /** With a single occurrence, no position but the first holds the element. */
  lemma OnlyOccurrence<T>(s: seq<T>, c: T)
    requires c in s && CountOf(s, c) == 1
    ensures forall i :: 0 <= i < |s| && i != IndexOf(s, c) ==> s[i] != c
  {
    var at := IndexOf(s, c);
    var before, after := s[..at], s[at + 1..];
    assert s == before + ([s[at]] + after);
    CountOfAppend(before, [s[at]] + after, c);
    CountOfAppend([s[at]], after, c);
    assert CountOf([s[at]], c) == 1 + CountOf([s[at]][1..], c);
    CountOfZero(after, c);
    forall i | 0 <= i < |s| && i != at ensures s[i] != c {
      if i < at {
        assert s[i] == before[i];
      } else {
        assert s[i] == after[i - at - 1];
      }
    }
  }

  /** `pieces.join(sep)`. */
  function Join(pieces: seq<string>, sep: string): string {
    if |pieces| == 0 then []
    else if |pieces| == 1 then pieces[0]
    else pieces[0] + sep + Join(pieces[1..], sep)
  }

  /** `s.split(sep)` for a one-character separator: the pieces between separators,
      empty pieces included, so that joining them with `sep` gives back `s`. */
  function Split(s: string, sep: char): seq<string>
    decreases |s|
  {
    if sep !in s then [s]
    else
      var i := IndexOf(s, sep);
      [s[..i]] + Split(s[i + 1..], sep)
  }

  /** There is one piece more than there are separators; no piece holds the separator;
      joining the pieces with it gives the string back. */
  lemma {:induction false} SplitProps(s: string, sep: char)
    ensures var r := Split(s, sep);
      |r| == CountOf(s, sep) + 1
      && (forall k :: 0 <= k < |r| ==> sep !in r[k])
      && Join(r, [sep]) == s
    decreases |s|
  {
    if sep !in s {
      CountOfZero(s, sep);
    } else {
      var i := IndexOf(s, sep);
      SplitProps(s[i + 1..], sep);
      SplitStep(s, sep, i, Split(s[i + 1..], sep));
    }
  }

  /** The pieces after the first separator, with the text before it put in front, split
      the whole string. */
  lemma SplitStep(s: string, sep: char, i: nat, rest: seq<string>)
    requires i < |s| && s[i] == sep && sep !in s[..i]
    requires |rest| == CountOf(s[i + 1..], sep) + 1
    requires forall k :: 0 <= k < |rest| ==> sep !in rest[k]
    requires Join(rest, [sep]) == s[i + 1..]
    ensures var r := [s[..i]] + rest;
      |r| == CountOf(s, sep) + 1
      && (forall k :: 0 <= k < |r| ==> sep !in r[k])
      && Join(r, [sep]) == s
  {
    var r := [s[..i]] + rest;
    assert s == s[..i] + ([sep] + s[i + 1..]);
    CountOfAppend(s[..i], [sep] + s[i + 1..], sep);
    CountOfAppend([sep], s[i + 1..], sep);
    CountOfZero(s[..i], sep);
    assert r[0] == s[..i] && r[1..] == rest;
    assert s == s[..i] + [sep] + s[i + 1..];
  }

  /** Appending keeps the first occurrence where it was. */
  lemma {:induction false} IndexOfAppend<T>(x: seq<T>, y: seq<T>, c: T)
    requires c in x
    ensures c in x + y && IndexOf(x + y, c) == IndexOf(x, c)
  {
    assert (x + y)[0] == x[0];
    if x[0] != c {
      assert (x + y)[1..] == x[1..] + y;
      IndexOfAppend(x[1..], y, c);
    }
  }

  /** After a prefix free of `c`, the first `c` is where the suffix starts with it. */
  lemma {:induction false} IndexOfAfter<T>(x: seq<T>, y: seq<T>, c: T)
    requires c !in x && y != [] && y[0] == c
    ensures c in x + y && IndexOf(x + y, c) == |x|
  {
    if x == [] {
      assert x + y == y;
    } else {
      assert (x + y)[0] == x[0] && (x + y)[1..] == x[1..] + y;
      IndexOfAfter(x[1..], y, c);
    }
  }

  /** The split of a string holding the separator, one piece at a time. */
  lemma SplitUnfold(s: string, sep: char)
    requires sep in s
    ensures Split(s, sep) == [s[..IndexOf(s, sep)]] + Split(s[IndexOf(s, sep) + 1..], sep)
  {
  }

  /** A separator and a separator-free last piece add that piece to the split. */
  lemma {:induction false} SplitSnoc(x: string, e: string, sep: char)
    requires sep !in e
    ensures Split(x + [sep] + e, sep) == Split(x, sep) + [e]
    decreases |x|
  {
    if sep !in x {
      SplitSnocFree(x, e, sep);
    } else {
      var s := x + [sep] + e;
      assert s == x + ([sep] + e);
      var i := IndexOf(x, sep);
      IndexOfAppend(x, [sep] + e, sep);
      var tail := x[i + 1..];
      assert s[..i] == x[..i];
      assert s[i + 1..] == tail + [sep] + e;
      SplitSnoc(tail, e, sep);
      var head, rest := [x[..i]], Split(tail, sep);
      SplitUnfold(s, sep);
      assert Split(s, sep) == head + (rest + [e]);
      SplitUnfold(x, sep);
      assert Split(x, sep) == head + rest;
      SnocAssoc(head, rest, e);
    }
  }

  /** `SplitSnoc` when `x` holds no separator: the two pieces are `x` and `e`. */
  lemma SplitSnocFree(x: string, e: string, sep: char)
    requires sep !in e && sep !in x
    ensures Split(x + [sep] + e, sep) == [x, e]
  {
    var s := x + [sep] + e;
    assert s == x + ([sep] + e);
    IndexOfAfter(x, [sep] + e, sep);
    assert s[..|x|] == x && s[|x| + 1..] == e;
    assert Split(s, sep) == [x] + Split(e, sep);
  }

  lemma SnocAssoc<T>(head: seq<T>, rest: seq<T>, e: T)
    ensures head + (rest + [e]) == (head + rest) + [e]
  {
  }

  /** The index `Array.prototype.slice` uses for a possibly negative bound. */
  function SliceIndex(k: int, len: nat): (r: nat)
    ensures r <= len
  {
    if k < 0 then (if len + k < 0 then 0 else len + k) else if k > len then len else k
  }

  /** `s.slice(start, end)`, negative bounds counting from the end. */
  function Slice<T>(s: seq<T>, start: int, end: int): (r: seq<T>)
    ensures |r| <= |s|
    ensures 0 <= start && start <= end ==> |r| <= end - start
    ensures 0 <= start <= end <= |s| ==> r == s[start..end]
    ensures 0 <= start <= |s| && |s| <= end ==> r == s[start..]
    ensures |s| <= start ==> r == []
  {
    var from := SliceIndex(start, |s|);
    var to := SliceIndex(end, |s|);
    if from < to then s[from..to] else []
  }

  /** A slice from 0 is a prefix. */
  lemma SlicePrefix<T>(s: seq<T>, end: int)
    ensures Slice(s, 0, end) == s[..|Slice(s, 0, end)|]
  {
  }

  /** Every element of a slice is an element of the sequence. */
  lemma SliceElements<T>(s: seq<T>, start: int, end: int)
    ensures forall i :: 0 <= i < |Slice(s, start, end)| ==> Slice(s, start, end)[i] in s
  {
    var from, to := SliceIndex(start, |s|), SliceIndex(end, |s|);
    if from < to {
      forall i | 0 <= i < to - from ensures s[from..to][i] in s {
        assert s[from..to][i] == s[from + i];
      }
    }
  }

  /** `a % b` in JavaScript: the remainder takes the sign of `a`. */
  function JsRem(a: int, b: int): (r: int)
    requires b > 0
    ensures a >= 0 ==> 0 <= r < b && r == a % b
    ensures a < 0 ==> -b < r <= 0 && -r == (-a) % b
  {
    if a >= 0 then a % b else -((-a) % b)
  }

  /** `Math.ceil(n / k)` for a positive divisor. */
  function CeilDiv(n: nat, k: int): (r: nat)
    requires k > 0
    ensures n <= r * k
    ensures r == 0 || (r - 1) * k < n
    ensures n > 0 ==> r >= 1
  {
    var q := (n + k - 1) / k;
    assert q * k + (n + k - 1) % k == n + k - 1;
    assert (q - 1) * k == q * k - k;
    q
  }

  /** Splitting the pieces joined with a separator that none of them contains gives
      the pieces back. */
  lemma {:induction false} SplitJoin(pieces: seq<string>, sep: char)
    requires |pieces| >= 1
    requires forall k :: 0 <= k < |pieces| ==> sep !in pieces[k]
    ensures Split(Join(pieces, [sep]), sep) == pieces
  {
    if |pieces| > 1 {
      var s := Join(pieces, [sep]);
      var p, rest := pieces[0], Join(pieces[1..], [sep]);
      SplitJoin(pieces[1..], sep);
      assert s == p + ([sep] + rest);
      IndexOfAfter(p, [sep] + rest, sep);
      SplitUnfold(s, sep);
      assert s[..|p|] == p && s[|p| + 1..] == rest;
      assert pieces == [p] + pieces[1..];
    }
  }

  function DigitChar(d: nat): char
    requires d < 10
  {
    ['0', '1', '2', '3', '4', '5', '6', '7', '8', '9'][d]
  }

  predicate IsDigit(c: char) {
    '0' <= c <= '9'
  }

  function DigitValue(c: char): nat
    requires IsDigit(c)
  {
    c as int - '0' as int
  }

  /** `String(n)` for a natural number. */
  function NatToString(n: nat): (r: string)
    ensures |r| >= 1
    ensures forall i :: 0 <= i < |r| ==> IsDigit(r[i])
    ensures n < 10 <==> |r| == 1
  {
    if n < 10 then [DigitChar(n)] else NatToString(n / 10) + [DigitChar(n % 10)]
  }

  /** The number a string of decimal digits denotes. */
  function ParseDigits(s: string): nat
    requires forall i :: 0 <= i < |s| ==> IsDigit(s[i])
  {
    if s == [] then 0 else 10 * ParseDigits(s[..|s| - 1]) + DigitValue(s[|s| - 1])
  }

  /** Reading back the decimal digits gives the number. */
  lemma {:induction false} ParseNatToString(n: nat)
    ensures ParseDigits(NatToString(n)) == n
  {
    if n >= 10 {
      var s, q, d := NatToString(n), n / 10, n % 10;
      var p := NatToString(q);
      assert s == p + [DigitChar(d)];
      assert s[..|s| - 1] == p && s[|s| - 1] == DigitChar(d);
      ParseNatToString(q);
      DigitRoundTrip(d);
      assert ParseDigits(s) == 10 * ParseDigits(p) + DigitValue(DigitChar(d));
    } else {
      var s := NatToString(n);
      DigitRoundTrip(n);
      assert s[..0] == [];
    }
  }

  /** Each digit character denotes its own value. */
  lemma DigitRoundTrip(d: nat)
    requires d < 10
    ensures DigitValue(DigitChar(d)) == d
  {
    var digits := ['0', '1', '2', '3', '4', '5', '6', '7', '8', '9'];
    assert forall k :: 0 <= k < 10 ==> digits[k] as int - '0' as int == k;
  }

  /** `String(i)` for an integer. */
  function IntToString(i: int): string {
    if i < 0 then "-" + NatToString(-i) else NatToString(i)
  }

  function Repeat(c: char, n: nat): (r: string)
    ensures |r| == n && forall i :: 0 <= i < n ==> r[i] == c
  {
    if n == 0 then [] else [c] + Repeat(c, n - 1)
  }

  /** `s.padStart(width, fill)` for a one-character fill. */
  function PadStart(s: string, width: int, fill: char): (r: string)
    ensures |r| == if |s| >= width then |s| else width
    ensures EndsWith(r, s)
  {
    if |s| >= width then s else Repeat(fill, width - |s|) + s
  }
}
