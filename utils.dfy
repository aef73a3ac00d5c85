/** The text helpers of `src/utils/index.ts`: slugs, reading time, truncation,
    excerpts, `classNames`, the e-mail check and the status colours. */
module Utils {
  import opened Js
  import opened Seqs

  // ---------------------------------------------------------------- slugs

  function DropWhile(s: string, p: char -> bool): (r: string)
    ensures |r| <= |s| && r == s[|s| - |r|..]
    ensures r == [] || !p(r[0])
    ensures forall i :: 0 <= i < |s| - |r| ==> p(s[i])
  {
    if s != [] && p(s[0]) then
      var t := s[1..];
      var r := DropWhile(t, p);
      assert t[|t| - |r|..] == s[|s| - |r|..];
      assert forall i :: 0 < i < |s| - |r| ==> p(s[i]) by {
        forall i | 0 < i < |s| - |r| ensures p(s[i]) {
          assert s[i] == t[i - 1];
        }
      }
      r
    else s
  }

  /** `s.replace(/X+/g, rep)` where `X` is the character class `p`: each maximal run of
      matching characters becomes one `rep`. */
  function CollapseRuns(s: string, p: char -> bool, rep: char): (r: string)
    ensures forall i :: 0 <= i < |r| ==> r[i] == rep || (r[i] in s && !p(r[i]))
    ensures s != [] ==> r != [] && (if p(s[0]) then r[0] == rep else r[0] == s[0])
    ensures p(rep) ==> forall i :: 0 <= i < |r| - 1 ==> !(r[i] == rep && r[i + 1] == rep)
    decreases |s|
  {
    if s == [] then []
    else if p(s[0]) then [rep] + CollapseRuns(DropWhile(s, p), p, rep)
    else [s[0]] + CollapseRuns(s[1..], p, rep)
  }

  /** A string with no run of two matching characters, every matching one being `rep`,
      is left alone. */
  lemma {:induction false} CollapseRunsFixed(s: string, p: char -> bool, rep: char)
    requires forall i :: 0 <= i < |s| && p(s[i]) ==> s[i] == rep
    requires forall i :: 0 <= i < |s| - 1 ==> !(p(s[i]) && p(s[i + 1]))
    ensures CollapseRuns(s, p, rep) == s
    decreases |s|
  {
    if s != [] {
      if p(s[0]) {
        assert DropWhile(s, p) == s[1..] by {
          if |s| > 1 {
            assert !p(s[1]);
            assert DropWhile(s[1..], p) == s[1..];
          }
        }
      }
      CollapseRunsFixed(s[1..], p, rep);
    }
  }

  predicate IsDash(c: char) {
    c == '-'
  }

  predicate IsSlugChar(c: char) {
    ('a' <= c <= 'z') || ('0' <= c <= '9') || c == '-'
  }

  /** Only a-z, 0-9 and '-', and never "--". */
  predicate IsSlug(s: string) {
    (forall i :: 0 <= i < |s| ==> IsSlugChar(s[i]))
    && (forall i :: 0 <= i < |s| - 1 ==> !(s[i] == '-' && s[i + 1] == '-'))
  }

  /** The class `[a-z0-9\s-]` kept by `generateSlug` in `src/utils/index.ts`. */
  predicate UtilsSlugKeep(c: char) {
    IsSlugChar(c) || IsSpace(c)
  }

  /** The class `[a-z0-9 -]` kept by the editors' own `generateSlug`: only a literal
      space survives, so tabs and newlines are deleted. */
  predicate EditorSlugKeep(c: char) {
    IsSlugChar(c) || c == ' '
  }

  /** `lower → remove characters outside keep → \s+ to '-' → -+ to '-' → trim`. */
  function SlugWith(title: string, keep: char -> bool): string {
    var kept := Filter(ToLower(title), keep);
    Trim(CollapseRuns(CollapseRuns(kept, IsSpace, '-'), IsDash, '-'))
  }

  /** `generateSlug` of `src/utils/index.ts`. */
  function GenerateSlug(title: string): string {
    SlugWith(title, UtilsSlugKeep)
  }

  /** The `generateSlug` of the post editor and of the category manager. */
  function EditorSlug(title: string): string {
    SlugWith(title, EditorSlugKeep)
  }

  /** Whatever the keep class, as long as it keeps no character outside a-z, 0-9, '-' and
      white space, the slug is made of a-z, 0-9 and single dashes. */
  lemma SlugWithIsSlug(title: string, keep: char -> bool)
    requires forall c :: keep(c) ==> IsSlugChar(c) || IsSpace(c)
    ensures IsSlug(SlugWith(title, keep))
  {
    var kept := Filter(ToLower(title), keep);
    var a := CollapseRuns(kept, IsSpace, '-');
    var b := CollapseRuns(a, IsDash, '-');
    assert forall i :: 0 <= i < |a| ==> IsSlugChar(a[i]);
    assert forall i :: 0 <= i < |b| ==> IsSlugChar(b[i]);
    TrimNoSpace(b);
  }

  lemma ToLowerFixed(s: string)
    requires forall i :: 0 <= i < |s| ==> IsSlugChar(s[i])
    ensures ToLower(s) == s
  {
  }

  /** A slug is its own slug. */
  lemma SlugWithFixesSlugs(s: string, keep: char -> bool)
    requires IsSlug(s)
    requires forall c :: IsSlugChar(c) ==> keep(c)
    ensures SlugWith(s, keep) == s
  {
    ToLowerFixed(s);
    assert forall x :: x in s ==> keep(x) by {
      forall x | x in s ensures keep(x) {
        var i :| 0 <= i < |s| && s[i] == x;
        assert IsSlugChar(s[i]);
      }
    }
    FilterAll(s, keep);
    SlugNoSpace(s);
    CollapseRunsFixed(s, IsSpace, '-');
    CollapseRunsFixed(s, IsDash, '-');
    TrimNoSpace(s);
  }

  lemma SlugNoSpace(s: string)
    requires forall i :: 0 <= i < |s| ==> IsSlugChar(s[i])
    ensures NoSpace(s)
  {
    forall i | 0 <= i < |s| ensures !IsSpace(s[i]) {
      assert IsSlugChar(s[i]);
    }
  }

  /** `generateSlug` yields only a-z, 0-9 and '-', never "--", and is idempotent. */
  lemma GenerateSlugProps(title: string)
    ensures IsSlug(GenerateSlug(title))
    ensures GenerateSlug(GenerateSlug(title)) == GenerateSlug(title)
  {
    SlugWithIsSlug(title, UtilsSlugKeep);
    SlugWithFixesSlugs(GenerateSlug(title), UtilsSlugKeep);
  }

  /** The editors' slug has the same shape and is idempotent too. */
  lemma EditorSlugProps(title: string)
    ensures IsSlug(EditorSlug(title))
    ensures EditorSlug(EditorSlug(title)) == EditorSlug(title)
  {
    SlugWithIsSlug(title, EditorSlugKeep);
    SlugWithFixesSlugs(EditorSlug(title), EditorSlugKeep);
  }

  /** The two slug functions differ on a tab between two letters: the shared one turns
      it into '-', the editors' one deletes it. */
  lemma SlugTabExample(x: char, y: char)
    requires 'a' <= x <= 'z' && 'a' <= y <= 'z'
    ensures GenerateSlug([x, '\t', y]) == [x, '-', y]
    ensures EditorSlug([x, '\t', y]) == [x, y]
  {
    GenerateSlugTab(x, y);
    EditorSlugTab(x, y);
  }

  lemma GenerateSlugTab(x: char, y: char)
    requires 'a' <= x <= 'z' && 'a' <= y <= 'z'
    ensures GenerateSlug([x, '\t', y]) == [x, '-', y]
  {
    var t, r := [x, '\t', y], [x, '-', y];
    assert IsSlug(r) by {
      assert forall i :: 0 <= i < |r| ==> IsSlugChar(r[i]);
      assert forall i :: 0 <= i < |r| - 1 ==> !(r[i] == '-' && r[i + 1] == '-');
    }
    calc {
      GenerateSlug(t);
      Trim(CollapseRuns(CollapseRuns(Filter(ToLower(t), UtilsSlugKeep), IsSpace, '-'), IsDash, '-'));
      { TabKept(x, y); }
      Trim(CollapseRuns(CollapseRuns(t, IsSpace, '-'), IsDash, '-'));
      { TabCollapsed(x, y); }
      Trim(CollapseRuns(r, IsDash, '-'));
      { CollapseRunsFixed(r, IsDash, '-'); }
      Trim(r);
      { SlugNoSpace(r); TrimNoSpace(r); }
      r;
    }
  }

  lemma EditorSlugTab(x: char, y: char)
    requires 'a' <= x <= 'z' && 'a' <= y <= 'z'
    ensures EditorSlug([x, '\t', y]) == [x, y]
  {
    var t, r := [x, '\t', y], [x, y];
    assert IsSlug(r) by {
      assert forall i :: 0 <= i < |r| ==> IsSlugChar(r[i]);
    }
    calc {
      EditorSlug(t);
      Trim(CollapseRuns(CollapseRuns(Filter(ToLower(t), EditorSlugKeep), IsSpace, '-'), IsDash, '-'));
      { TabKept(x, y); }
      Trim(CollapseRuns(CollapseRuns(r, IsSpace, '-'), IsDash, '-'));
      { SlugFixedFacts(r); }
      r;
    }
  }

  /** The last three stages leave a slug alone. */
  lemma SlugFixedFacts(s: string)
    requires IsSlug(s)
    ensures Trim(CollapseRuns(CollapseRuns(s, IsSpace, '-'), IsDash, '-')) == s
  {
    SlugNoSpace(s);
    CollapseRunsFixed(s, IsSpace, '-');
    CollapseRunsFixed(s, IsDash, '-');
    TrimNoSpace(s);
  }

  /** One step of `CollapseRuns` on a character outside the class. */
  lemma CollapseKeep(x: char, s: string, p: char -> bool, rep: char)
    requires !p(x)
    ensures CollapseRuns([x] + s, p, rep) == [x] + CollapseRuns(s, p, rep)
  {
    assert ([x] + s)[0] == x && ([x] + s)[1..] == s;
  }

  /** One step of `CollapseRuns` on a run of one character of the class. */
  lemma CollapseSingle(x: char, s: string, p: char -> bool, rep: char)
    requires p(x) && (s == [] || !p(s[0]))
    ensures CollapseRuns([x] + s, p, rep) == [rep] + CollapseRuns(s, p, rep)
  {
    var t := [x] + s;
    assert t[0] == x && t[1..] == s;
    assert DropWhile(t, p) == DropWhile(s, p) == s;
  }

  /** One step of `Filter`. */
  lemma FilterCons<T>(x: T, s: seq<T>, p: T -> bool)
    ensures Filter([x] + s, p) == if p(x) then [x] + Filter(s, p) else Filter(s, p)
  {
    assert ([x] + s)[0] == x && ([x] + s)[1..] == s;
  }

  /** Lower-casing keeps a word, a tab and a word; the shared class keeps the tab,
      the editors' class drops it. */
  lemma TabKept(x: char, y: char)
    requires 'a' <= x <= 'z' && 'a' <= y <= 'z'
    ensures ToLower([x, '\t', y]) == [x, '\t', y]
    ensures Filter([x, '\t', y], UtilsSlugKeep) == [x, '\t', y]
    ensures Filter([x, '\t', y], EditorSlugKeep) == [x, y]
  {
    LowerThree(x, '\t', y);
    assert UtilsSlugKeep(x) && UtilsSlugKeep('\t') && UtilsSlugKeep(y);
    FilterThree(x, '\t', y, UtilsSlugKeep);
    assert EditorSlugKeep(x) && !EditorSlugKeep('\t') && EditorSlugKeep(y);
    FilterThree(x, '\t', y, EditorSlugKeep);
  }

  /** Lower-casing leaves three characters that are not capital letters alone. */
  lemma LowerThree(x: char, t: char, y: char)
    requires LowerChar(x) == x && LowerChar(t) == t && LowerChar(y) == y
    ensures ToLower([x, t, y]) == [x, t, y]
  {
    var l := ToLower([x, t, y]);
    assert l[0] == x && l[1] == t && l[2] == y;
  }

  /** Filtering three characters whose outer two are kept keeps or drops the middle one. */
  lemma FilterThree<T>(x: T, t: T, y: T, p: T -> bool)
    requires p(x) && p(y)
    ensures Filter([x, t, y], p) == if p(t) then [x, t, y] else [x, y]
  {
    var e: seq<T> := [];
    assert Filter(e, p) == e;
    FilterCons(y, e, p);
    assert [y] + e == [y];
    FilterCons(t, [y], p);
    assert [t] + [y] == [t, y];
    FilterCons(x, [t, y], p);
    assert [x] + [t, y] == [x, t, y];
    if p(t) {
      calc {
        Filter([x, t, y], p);
        [x] + ([t] + [y]);
        [x, t, y];
      }
    } else {
      calc {
        Filter([x, t, y], p);
        [x] + [y];
        [x, y];
      }
    }
  }

  /** The tab between two letters becomes one dash. */
  lemma TabCollapsed(x: char, y: char)
    requires 'a' <= x <= 'z' && 'a' <= y <= 'z'
    ensures CollapseRuns([x, '\t', y], IsSpace, '-') == [x, '-', y]
  {
    assert !IsSpace(x) && IsSpace('\t') && !IsSpace(y);
    CollapseThree(x, '\t', y, IsSpace, '-');
  }

  /** A lone character of the class between two others becomes the replacement. */
  lemma CollapseThree(x: char, t: char, y: char, p: char -> bool, rep: char)
    requires !p(x) && p(t) && !p(y)
    ensures CollapseRuns([x, t, y], p, rep) == [x, rep, y]
  {
    var e: string := [];
    assert CollapseRuns(e, p, rep) == e;
    CollapseKeep(y, e, p, rep);
    assert [y] + e == [y];
    CollapseSingle(t, [y], p, rep);
    assert [t] + [y] == [t, y];
    CollapseKeep(x, [t, y], p, rep);
    assert [x] + [t, y] == [x, t, y];
    calc {
      CollapseRuns([x, t, y], p, rep);
      [x] + CollapseRuns([t, y], p, rep);
      [x] + ([rep] + CollapseRuns([y], p, rep));
      [x] + ([rep] + [y]);
      [x, rep, y];
    }
  }

  // ---------------------------------------------------------------- reading time

  function TakeWhileNotSpace(s: string): (r: string)
    ensures |r| <= |s| && r == s[..|r|] && NoSpace(r)
    ensures |r| < |s| ==> IsSpace(s[|r|])
  {
    if s == [] || IsSpace(s[0]) then [] else [s[0]] + TakeWhileNotSpace(s[1..])
  }

  /** `s.split(/\s+/)`: the text between runs of white space, with an empty piece
      before a leading run and after a trailing one; `"".split(/\s+/)` is `[""]`. */
  function SplitOnSpaceRuns(s: string): (r: seq<string>)
    ensures |r| >= 1
    ensures forall k :: 0 <= k < |r| ==> NoSpace(r[k])
    decreases |s|
  {
    var w := TakeWhileNotSpace(s);
    if |w| == |s| then [w]
    else [w] + SplitOnSpaceRuns(DropWhile(s[|w|..], IsSpace))
  }

  function Concat(pieces: seq<string>): string {
    if pieces == [] then [] else pieces[0] + Concat(pieces[1..])
  }

  predicate NotSpace(c: char) {
    !IsSpace(c)
  }

  /** Number of words: positions holding a non-space character that starts `s` or
      follows a space (`afterSpace` says whether the position before `s` counts as
      space). */
  function WordStarts(s: string, afterSpace: bool): nat {
    if s == [] then 0
    else (if afterSpace && !IsSpace(s[0]) then 1 else 0) + WordStarts(s[1..], IsSpace(s[0]))
  }

  /** Reading over a word counts one start if the word follows a space. */
  lemma {:induction false} TakeWordStarts(s: string, afterSpace: bool)
    requires s != [] && !IsSpace(s[0])
    ensures |TakeWhileNotSpace(s)| >= 1
    ensures WordStarts(s, afterSpace)
         == (if afterSpace then 1 else 0) + WordStarts(s[|TakeWhileNotSpace(s)|..], false)
  {
    var t := s[1..];
    if t != [] && !IsSpace(t[0]) {
      TakeWordStarts(t, false);
      assert s[|TakeWhileNotSpace(s)|..] == t[|TakeWhileNotSpace(t)|..];
    }
  }

  /** A leading word keeps all of its characters. */
  lemma {:induction false} TakeWordFilter(s: string)
    ensures Filter(s, NotSpace)
         == TakeWhileNotSpace(s) + Filter(s[|TakeWhileNotSpace(s)|..], NotSpace)
  {
    if s != [] && !IsSpace(s[0]) {
      var t := s[1..];
      TakeWordFilter(t);
      assert s[|TakeWhileNotSpace(s)|..] == t[|TakeWhileNotSpace(t)|..];
      assert TakeWhileNotSpace(s) == [s[0]] + TakeWhileNotSpace(t);
      assert Filter(s, NotSpace) == [s[0]] + Filter(t, NotSpace);
    } else {
      assert TakeWhileNotSpace(s) == [];
    }
  }

  /** Skipping white space loses no word start and no non-space character. */
  lemma {:induction false} DropSpaceFacts(s: string)
    requires s != [] && IsSpace(s[0])
    ensures WordStarts(s, false) == WordStarts(DropWhile(s, IsSpace), true)
    ensures Filter(s, NotSpace) == Filter(DropWhile(s, IsSpace), NotSpace)
  {
    var t := s[1..];
    if t != [] && IsSpace(t[0]) {
      DropSpaceFacts(t);
    }
  }

  /** The step shared by the two proofs below: a word, then white space, then the
      remaining text, which again has no white space at either end. */
  lemma SplitStep(s: string) returns (u: string)
    requires s != [] && !IsSpace(s[0]) && !IsSpace(s[|s| - 1])
    requires |TakeWhileNotSpace(s)| < |s|
    ensures u == DropWhile(s[|TakeWhileNotSpace(s)|..], IsSpace)
    ensures u != [] && !IsSpace(u[0]) && !IsSpace(u[|u| - 1]) && |u| < |s|
    ensures IsSpace(s[|TakeWhileNotSpace(s)|..][0])
    ensures SplitOnSpaceRuns(s) == [TakeWhileNotSpace(s)] + SplitOnSpaceRuns(u)
  {
    var rest := s[|TakeWhileNotSpace(s)|..];
    u := DropWhile(rest, IsSpace);
    assert u[|u| - 1] == s[|s| - 1];
  }

  /** On text with no white space at either end the pieces are the words: their number
      is the number of word starts and none is empty. */
  lemma {:induction false} SplitOnSpaceRunsCount(s: string)
    requires s != [] && !IsSpace(s[0]) && !IsSpace(s[|s| - 1])
    ensures |SplitOnSpaceRuns(s)| == WordStarts(s, true)
    ensures forall k :: 0 <= k < |SplitOnSpaceRuns(s)| ==> SplitOnSpaceRuns(s)[k] != []
    decreases |s|
  {
    var w := TakeWhileNotSpace(s);
    TakeWordStarts(s, true);
    if |w| < |s| {
      var u := SplitStep(s);
      DropSpaceFacts(s[|w|..]);
      SplitOnSpaceRunsCount(u);
      ConsAvoids(w, SplitOnSpaceRuns(u), []);
    }
  }

  /** Prepending an element other than `z` to a sequence free of `z` keeps it free of `z`. */
  lemma ConsAvoids<T>(w: T, rest: seq<T>, z: T)
    requires w != z && forall k :: 0 <= k < |rest| ==> rest[k] != z
    ensures forall k :: 0 <= k < |[w] + rest| ==> ([w] + rest)[k] != z
  {
    forall k | 0 <= k < |[w] + rest| ensures ([w] + rest)[k] != z {
      if k > 0 {
        assert ([w] + rest)[k] == rest[k - 1];
      }
    }
  }

  /** Together the pieces hold every non-space character, in order. */
  lemma {:induction false} SplitOnSpaceRunsConcat(s: string)
    requires s != [] && !IsSpace(s[0]) && !IsSpace(s[|s| - 1])
    ensures Concat(SplitOnSpaceRuns(s)) == Filter(s, NotSpace)
    decreases |s|
  {
    var w := TakeWhileNotSpace(s);
    TakeWordFilter(s);
    if |w| == |s| {
      assert s[|w|..] == [];
      assert Concat([w]) == w + [];
    } else {
      var u := SplitStep(s);
      DropSpaceFacts(s[|w|..]);
      SplitOnSpaceRunsConcat(u);
      var r := SplitOnSpaceRuns(s);
      assert r[1..] == SplitOnSpaceRuns(u);
    }
  }

  /** `content.trim().split(/\s+/)`. */
  function Words(content: string): seq<string> {
    SplitOnSpaceRuns(Trim(content))
  }

  /** `calculateReadingTime`: `Math.ceil(words / 200)`. */
  function CalculateReadingTime(content: string): nat {
    CeilDiv(|Words(content)|, 200)
  }

  /** The reading time is at least one minute; blank text counts as one (empty) word;
      otherwise the words are the white-space separated runs of the content, markup
      included, and the time is the number of started blocks of 200 words. */
  lemma ReadingTimeProps(content: string)
    ensures CalculateReadingTime(content) >= 1
    ensures IsBlank(content) ==> Words(content) == [[]] && CalculateReadingTime(content) == 1
    ensures !IsBlank(content) ==> |Words(content)| == WordStarts(content, true)
    ensures !IsBlank(content) ==>
      forall k :: 0 <= k < |Words(content)| ==> Words(content)[k] != []
    ensures !IsBlank(content) ==> Concat(Words(content)) == Filter(content, NotSpace)
    ensures 200 * (CalculateReadingTime(content) - 1) < |Words(content)|
    ensures |Words(content)| <= 200 * CalculateReadingTime(content)
  {
    if !IsBlank(content) {
      WordsOfText(content);
    } else {
      WordsOfBlank(content);
    }
  }

  /** Text that is not blank has its white-space separated runs as its words. */
  lemma WordsOfText(content: string)
    requires !IsBlank(content)
    ensures |Words(content)| == WordStarts(content, true) && |Words(content)| > 0
    ensures forall k :: 0 <= k < |Words(content)| ==> Words(content)[k] != []
    ensures Concat(Words(content)) == Filter(content, NotSpace)
  {
    TrimEmptyIffBlank(content);
    TrimIsTrimmed(content);
    var t := Trim(content);
    var h := TrimStart(content);
    TrimStartFacts(content);
    TrimEndFacts(h, true);
    TrimEndProps(h);
    assert t[0] == h[0];
    SplitOnSpaceRunsCount(t);
    SplitOnSpaceRunsConcat(t);
  }

  /** Blank text is one empty word. */
  lemma WordsOfBlank(content: string)
    requires IsBlank(content)
    ensures Words(content) == [[]]
  {
    TrimEmptyIffBlank(content);
    var t := Trim(content);
    assert t == [];
    assert TakeWhileNotSpace(t) == [];
  }

  /** Filtering white space out of blank text leaves nothing. */
  lemma BlankFilter(b: string)
    requires IsBlank(b)
    ensures Filter(b, NotSpace) == []
  {
  }

  lemma {:induction false} TrimStartFacts(s: string)
    ensures WordStarts(TrimStart(s), true) == WordStarts(s, true)
    ensures Filter(TrimStart(s), NotSpace) == Filter(s, NotSpace)
  {
    if s != [] && IsSpace(s[0]) {
      TrimStartFacts(s[1..]);
    }
  }

  lemma TrimEndFacts(s: string, afterSpace: bool)
    ensures WordStarts(TrimEnd(s), afterSpace) == WordStarts(s, afterSpace)
    ensures Filter(TrimEnd(s), NotSpace) == Filter(s, NotSpace)
  {
    var r := TrimEnd(s);
    TrimEndProps(s);
    var post := s[|r|..];
    assert s == r + post;
    TrailingBlank(r, post, afterSpace);
    FilterAppend(r, post, NotSpace);
    BlankFilter(post);
  }

  lemma {:induction false} TrailingBlank(t: string, post: string, afterSpace: bool)
    requires IsBlank(post)
    ensures WordStarts(t + post, afterSpace) == WordStarts(t, afterSpace)
    decreases |t| + |post|
  {
    if t == [] {
      assert t + post == post;
      BlankNoWords(post, afterSpace);
    } else {
      assert (t + post)[0] == t[0] && (t + post)[1..] == t[1..] + post;
      TrailingBlank(t[1..], post, IsSpace(t[0]));
    }
  }

  lemma {:induction false} BlankNoWords(b: string, afterSpace: bool)
    requires IsBlank(b)
    ensures WordStarts(b, afterSpace) == 0
  {
    if b != [] {
      BlankNoWords(b[1..], true);
    }
  }

  // ---------------------------------------------------------------- truncation

  /** `truncateText`. */
  function TruncateText(text: string, maxLength: int): string {
    if |text| <= maxLength then text else Trim(Slice(text, 0, maxLength)) + "..."
  }

  /** Short text is returned unchanged; longer text is cut to its first `maxLength`
      characters, trimmed, and marked with "...", so it is at most three characters
      longer than the limit. */
  lemma TruncateTextProps(text: string, maxLength: int)
    ensures |text| <= maxLength ==> TruncateText(text, maxLength) == text
    ensures 0 <= maxLength < |text| ==>
      TruncateText(text, maxLength) == Trim(text[..maxLength]) + "..."
      && |TruncateText(text, maxLength)| <= maxLength + 3
      && EndsWith(TruncateText(text, maxLength), "...")
  {
    if 0 <= maxLength < |text| {
      var r := TruncateText(text, maxLength);
      TrimShape(text[..maxLength]);
      assert r[|r| - 3..] == "...";
    }
  }

  /** `s.replace(/<[^>]*>/g, '')`: from each '<' up to the first '>' after it is
      removed; a '<' with no '>' after it stays. */
  function StripTags(s: string): (r: string)
    ensures |r| <= |s|
    ensures forall c :: c in r ==> c in s
    decreases |s|
  {
    if s == [] then []
    else if s[0] == '<' && '>' in s[1..] then
      var k := IndexOf(s[1..], '>') + 2;
      SuffixElements(s, k);
      assert s[1..][k - 1..] == s[k..];
      StripTags(s[k..])
    else
      SuffixElements(s, 1);
      [s[0]] + StripTags(s[1..])
  }

  /** Every element of a suffix is an element of the whole. */
  lemma SuffixElements<T>(s: seq<T>, k: int)
    requires 0 <= k <= |s|
    ensures forall c :: c in s[k..] ==> c in s
  {
    forall c | c in s[k..] ensures c in s {
      var m :| 0 <= m < |s| - k && s[k..][m] == c;
      assert s[k + m] == c;
    }
  }

  /** No '<' has a '>' somewhere after it. */
  predicate NoTags(s: string) {
    forall i, j :: 0 <= i < j < |s| && s[i] == '<' ==> s[j] != '>'
  }

  lemma {:induction false} StripTagsNoTags(s: string)
    ensures NoTags(StripTags(s))
    decreases |s|
  {
    if s != [] {
      if s[0] == '<' && '>' in s[1..] {
        StripTagsNoTags(s[IndexOf(s[1..], '>') + 2..]);
      } else {
        StripTagsNoTags(s[1..]);
        var t := StripTags(s[1..]);
        var r := [s[0]] + t;
        forall i, j | 0 <= i < j < |r| && r[i] == '<' ensures r[j] != '>' {
          assert r[j] == t[j - 1];
          if i == 0 {
            assert t[j - 1] in s[1..];
          } else {
            assert r[i] == t[i - 1];
          }
        }
      }
    }
  }

  /** Text without tags is left as it is. */
  lemma {:induction false} StripTagsFixed(s: string)
    requires NoTags(s)
    ensures StripTags(s) == s
    decreases |s|
  {
    if s != [] {
      var t := s[1..];
      NoTagsTail(s);
      StripTagsKeep(s);
      StripTagsFixed(t);
      HeadTail(s);
    }
  }

  /** A first character that opens no tag is kept. */
  lemma StripTagsKeep(s: string)
    requires s != [] && !(s[0] == '<' && '>' in s[1..])
    ensures StripTags(s) == [s[0]] + StripTags(s[1..])
  {
  }

  lemma HeadTail<T>(s: seq<T>)
    requires s != []
    ensures s == [s[0]] + s[1..]
  {
  }

  /** Text without tags has a tail without tags, and a leading '<' has no '>' after it. */
  lemma NoTagsTail(s: string)
    requires NoTags(s) && s != []
    ensures NoTags(s[1..])
    ensures s[0] == '<' ==> '>' !in s[1..]
  {
    var t := s[1..];
    if s[0] == '<' {
      forall k | 0 <= k < |t| ensures t[k] != '>' {
        assert t[k] == s[k + 1];
      }
    }
    forall i, j | 0 <= i < j < |t| && t[i] == '<' ensures t[j] != '>' {
      assert t[i] == s[i + 1] && t[j] == s[j + 1];
    }
  }

  /** `generateExcerpt` with the default length of 150. */
  const DefaultExcerptLength := 150

  function GenerateExcerpt(content: string, maxLength: int): string {
    TruncateText(StripTags(content), maxLength)
  }

  /** The excerpt keeps no '<...>' run, stripping twice strips nothing more, and
      content without '<' is only truncated. */
  lemma ExcerptProps(content: string, maxLength: int)
    ensures NoTags(StripTags(content))
    ensures StripTags(StripTags(content)) == StripTags(content)
    ensures '<' !in content ==> GenerateExcerpt(content, maxLength) == TruncateText(content, maxLength)
  {
    StripTagsNoTags(content);
    StripTagsFixed(StripTags(content));
    if '<' !in content {
      StripTagsFixed(content);
    }
  }

  // ---------------------------------------------------------------- classNames

  /** An argument of `classNames`: a string, a boolean or `undefined`. */
  datatype ClassArg = Str(s: string) | Flag(b: bool) | Undefined

  /** `Boolean(x)`. */
  predicate Truthy(a: ClassArg) {
    match a
    case Str(s) => s != []
    case Flag(b) => b
    case Undefined => false
  }

  /** `String(x)` for a truthy argument. */
  function ClassText(a: ClassArg): string {
    match a
    case Str(s) => s
    case Flag(_) => "true"
    case Undefined => "undefined"
  }

  function Texts(args: seq<ClassArg>): (r: seq<string>)
    ensures |r| == |args| && forall i :: 0 <= i < |args| ==> r[i] == ClassText(args[i])
  {
    if args == [] then [] else [ClassText(args[0])] + Texts(args[1..])
  }

  /** `classes.filter(Boolean).join(' ')`. */
  function ClassNames(args: seq<ClassArg>): string {
    Join(Texts(Filter(args, Truthy)), " ")
  }

  lemma {:induction false} JoinEmpty(pieces: seq<string>, sep: string)
    requires forall k :: 0 <= k < |pieces| ==> pieces[k] != []
    ensures Join(pieces, sep) == [] <==> pieces == []
  {
    if |pieces| > 1 {
      JoinEmpty(pieces[1..], sep);
    }
  }

  lemma TruthyTexts(kept: seq<ClassArg>)
    requires forall a :: a in kept ==> Truthy(a)
    ensures forall k :: 0 <= k < |Texts(kept)| ==> Texts(kept)[k] != []
  {
    forall k | 0 <= k < |kept| ensures ClassText(kept[k]) != [] {
      assert kept[k] in kept;
    }
  }

  /** The class string is empty exactly when no argument is truthy. */
  lemma ClassNamesEmpty(args: seq<ClassArg>)
    ensures ClassNames(args) == [] <==> forall i :: 0 <= i < |args| ==> !Truthy(args[i])
  {
    var kept := Filter(args, Truthy);
    TruthyTexts(kept);
    JoinEmpty(Texts(kept), " ");
    if kept != [] {
      assert kept[0] in kept;
    }
    if exists i :: 0 <= i < |args| && Truthy(args[i]) {
      var i :| 0 <= i < |args| && Truthy(args[i]);
      assert args[i] in kept;
    }
  }

  /** When no argument contains a space, splitting the class string at the spaces gives
      back the texts of the truthy arguments, in order. */
  lemma ClassNamesSplit(args: seq<ClassArg>)
    requires exists i :: 0 <= i < |args| && Truthy(args[i])
    requires forall i :: 0 <= i < |args| ==> ' ' !in ClassText(args[i])
    ensures Split(ClassNames(args), ' ') == Texts(Filter(args, Truthy))
  {
    var kept := Filter(args, Truthy);
    KeptTextsSpaceFree(args, kept);
    assert " " == [' '];
    SplitJoin(Texts(kept), ' ');
  }

  /** The kept arguments are not empty and none of their texts holds a space. */
  lemma KeptTextsSpaceFree(args: seq<ClassArg>, kept: seq<ClassArg>)
    requires kept == Filter(args, Truthy)
    requires exists i :: 0 <= i < |args| && Truthy(args[i])
    requires forall i :: 0 <= i < |args| ==> ' ' !in ClassText(args[i])
    ensures |Texts(kept)| >= 1
    ensures forall k :: 0 <= k < |Texts(kept)| ==> ' ' !in Texts(kept)[k]
  {
    var i :| 0 <= i < |args| && Truthy(args[i]);
    assert args[i] in kept;
    forall k | 0 <= k < |kept| ensures ' ' !in ClassText(kept[k]) {
      assert kept[k] in args;
    }
  }

  // ---------------------------------------------------------------- e-mail

  /** `[^\s@]+` over the whole of `s`. */
  predicate Plain(s: string) {
    s != [] && forall i :: 0 <= i < |s| ==> !IsSpace(s[i]) && s[i] != '@'
  }

  /** The regular expression matches with its '@' at `at` and its '.' at `dot`. */
  predicate EmailMatch(s: string, at: int, dot: int) {
    0 <= at < dot < |s| && s[at] == '@' && s[dot] == '.'
    && Plain(s[..at]) && Plain(s[at + 1..dot]) && Plain(s[dot + 1..])
  }

  /** `/^[^\s@]+@[^\s@]+\.[^\s@]+$/.test(email)`. */
  predicate IsValidEmail(s: string) {
    exists at, dot :: 0 <= at < dot < |s| && EmailMatch(s, at, dot)
  }

  /** The shape the regular expression asks for, stated without it: no white space, a
      single '@' with something before it, and after it a '.' with at least one
      character on each side. */
  predicate EmailShape(s: string) {
    NoSpace(s) && '@' in s && CountOf(s, '@') == 1 && IndexOf(s, '@') > 0
    && exists dot :: IndexOf(s, '@') + 1 < dot < |s| - 1 && s[dot] == '.'
  }

  /** The regular expression accepts exactly the strings of that shape. */
  lemma IsValidEmailIff(s: string)
    ensures IsValidEmail(s) <==> EmailShape(s)
  {
    if IsValidEmail(s) {
      var at, dot :| 0 <= at < dot < |s| && EmailMatch(s, at, dot);
      MatchHasShape(s, at, dot);
    }
    if EmailShape(s) {
      var at := IndexOf(s, '@');
      var dot :| at + 1 < dot < |s| - 1 && s[dot] == '.';
      ShapeMatches(s, dot);
    }
  }

  lemma MatchHasShape(s: string, at: int, dot: int)
    requires 0 <= at < dot < |s| && EmailMatch(s, at, dot)
    ensures EmailShape(s)
  {
    var pre, mid, post := s[..at], s[at + 1..dot], s[dot + 1..];
    forall i | 0 <= i < |s| ensures !IsSpace(s[i]) && (i != at ==> s[i] != '@') {
      if i < at {
        assert s[i] == pre[i];
      } else if at < i < dot {
        assert s[i] == mid[i - at - 1];
      } else if i > dot {
        assert s[i] == post[i - dot - 1];
      }
    }
    assert '@' in s;
    assert '@' !in pre;
    assert IndexOf(s, '@') == at by {
      var i := IndexOf(s, '@');
      assert s[i] == '@';
    }
    var after := s[at + 1..];
    assert '@' !in after by {
      forall k | 0 <= k < |after| ensures after[k] != '@' {
        assert after[k] == s[at + 1 + k];
      }
    }
    assert s == pre + ([s[at]] + after);
    CountOfAppend(pre, [s[at]] + after, '@');
    CountOfAppend([s[at]], after, '@');
    CountOfZero(pre, '@');
    CountOfZero(after, '@');
  }

  lemma ShapeMatches(s: string, dot: int)
    requires EmailShape(s)
    requires IndexOf(s, '@') + 1 < dot < |s| - 1 && s[dot] == '.'
    ensures EmailMatch(s, IndexOf(s, '@'), dot)
  {
    var at := IndexOf(s, '@');
    OnlyOneAt(s, at);
    PlainSlice(s, 0, at);
    PlainSlice(s, at + 1, dot);
    PlainSlice(s, dot + 1, |s|);
  }

  /** With a single '@', no other position holds one. */
  lemma OnlyOneAt(s: string, at: nat)
    requires '@' in s && CountOf(s, '@') == 1 && at == IndexOf(s, '@')
    ensures forall i :: 0 <= i < |s| && i != at ==> s[i] != '@'
  {
    OnlyOccurrence(s, '@');
  }

  lemma PlainSlice(s: string, lo: int, hi: int)
    requires 0 <= lo < hi <= |s| && NoSpace(s)
    requires forall i :: lo <= i < hi ==> s[i] != '@'
    ensures Plain(s[lo..hi])
  {
    forall k | 0 <= k < hi - lo ensures !IsSpace(s[lo..hi][k]) && s[lo..hi][k] != '@' {
      assert s[lo..hi][k] == s[lo + k];
    }
  }

  lemma PlainNoAt(s: string)
    requires Plain(s)
    ensures CountOf(s, '@') == 0
  {
    CountOfZero(s, '@');
  }

  // ---------------------------------------------------------------- status colours

  const Green := "bg-green-100 text-green-800"
  const Gray := "bg-gray-100 text-gray-800"
  const Blue := "bg-blue-100 text-blue-800"
  const Yellow := "bg-yellow-100 text-yellow-800"
  const Red := "bg-red-100 text-red-800"

  /** `getPostStatusColor`: green for published, blue for scheduled, grey for drafts
      and for anything else. */
  function PostStatusColor(status: string): (r: string)
    ensures r in {Green, Gray, Blue}
    ensures r == Green <==> status == "published"
    ensures r == Blue <==> status == "scheduled"
  {
    if status == "published" then Green
    else if status == "draft" then Gray
    else if status == "scheduled" then Blue
    else Gray
  }

  /** `getCommentStatusColor`: green for approved, yellow for pending, red for rejected,
      grey for anything else. */
  function CommentStatusColor(status: string): (r: string)
    ensures r in {Green, Yellow, Red, Gray}
    ensures r == Green <==> status == "approved"
    ensures r == Yellow <==> status == "pending"
    ensures r == Red <==> status == "rejected"
  {
    if status == "approved" then Green
    else if status == "pending" then Yellow
    else if status == "rejected" then Red
    else Gray
  }
}
