/** `Array.prototype.sort` with a comparator, as the ECMAScript 2019 specification
    requires it to behave: a stable sort. It is modelled as insertion sort, which places
    each element after every earlier element that does not compare greater than it. */
module Sorting {
  import opened Seqs

  /** The laws a JavaScript comparator needs for `sort` to be meaningful: it is
      antisymmetric in sign and its "not greater" relation is transitive. */
  ghost predicate IsComparator<T(!new)>(cmp: (T, T) -> int) {
    (forall a, b :: cmp(a, b) < 0 <==> cmp(b, a) > 0)
    && (forall a, b, c :: cmp(a, b) <= 0 && cmp(b, c) <= 0 ==> cmp(a, c) <= 0)
  }

  /** No element compares greater than a later one. */
  ghost predicate SortedBy<T>(s: seq<T>, cmp: (T, T) -> int) {
    forall i, j :: 0 <= i < j < |s| ==> cmp(s[i], s[j]) <= 0
  }

  /** The elements that compare equal to `y`. */
  function EquivTo<T>(cmp: (T, T) -> int, y: T): T -> bool {
    x => cmp(x, y) == 0
  }

  /** Inserts `x` before the first element it does not compare greater than. */
  function Insert<T>(x: T, s: seq<T>, cmp: (T, T) -> int): (r: seq<T>)
    ensures |r| == |s| + 1
    ensures multiset(r) == multiset(s) + multiset{x}
  {
    if s == [] || cmp(x, s[0]) <= 0 then [x] + s
    else
      assert s == [s[0]] + s[1..];
      [s[0]] + Insert(x, s[1..], cmp)
  }

  /** `s.slice().sort(cmp)`. */
  function SortBy<T>(s: seq<T>, cmp: (T, T) -> int): (r: seq<T>)
    ensures |r| == |s|
    ensures multiset(r) == multiset(s)
  {
    if s == [] then []
    else
      assert s == [s[0]] + s[1..];
      Insert(s[0], SortBy(s[1..], cmp), cmp)
  }

  /** `h` compares not greater than every element of `s`. */
  ghost predicate LowerBound<T>(h: T, s: seq<T>, cmp: (T, T) -> int) {
    forall e :: e in s ==> cmp(h, e) <= 0
  }

  lemma SortedCons<T>(h: T, t: seq<T>, cmp: (T, T) -> int)
    requires SortedBy(t, cmp) && LowerBound(h, t, cmp)
    ensures SortedBy([h] + t, cmp)
  {
    var r := [h] + t;
    forall i, j | 0 <= i < j < |r| ensures cmp(r[i], r[j]) <= 0 {
      assert r[j] == t[j - 1];
      if i > 0 {
        assert r[i] == t[i - 1];
      }
    }
  }

  lemma SortedTail<T>(s: seq<T>, cmp: (T, T) -> int)
    requires s != [] && SortedBy(s, cmp)
    ensures SortedBy(s[1..], cmp) && LowerBound(s[0], s[1..], cmp)
  {
    forall e | e in s[1..] ensures cmp(s[0], e) <= 0 {
      var m :| 0 <= m < |s[1..]| && s[1..][m] == e;
      assert s[m + 1] == e;
    }
  }

  lemma InsertLowerBound<T>(h: T, x: T, s: seq<T>, cmp: (T, T) -> int)
    requires LowerBound(h, s, cmp) && cmp(h, x) <= 0
    ensures LowerBound(h, Insert(x, s, cmp), cmp)
  {
    var r := Insert(x, s, cmp);
    forall e | e in r ensures cmp(h, e) <= 0 {
      assert e in multiset(r);
      assert e == x || e in multiset(s);
    }
  }

  lemma {:induction false} InsertSorted<T(!new)>(x: T, s: seq<T>, cmp: (T, T) -> int)
    requires IsComparator(cmp)
    requires SortedBy(s, cmp)
    ensures SortedBy(Insert(x, s, cmp), cmp)
  {
    if s == [] {
    } else if cmp(x, s[0]) <= 0 {
      SortedTail(s, cmp);
      assert LowerBound(x, s, cmp);
      SortedCons(x, s, cmp);
    } else {
      SortedTail(s, cmp);
      InsertSorted(x, s[1..], cmp);
      InsertLowerBound(s[0], x, s[1..], cmp);
      SortedCons(s[0], Insert(x, s[1..], cmp), cmp);
    }
  }

  /** The result of the sort is ordered by the comparator. */
  lemma {:induction false} SortBySorted<T(!new)>(s: seq<T>, cmp: (T, T) -> int)
    requires IsComparator(cmp)
    ensures SortedBy(SortBy(s, cmp), cmp)
  {
    if s != [] {
      SortBySorted(s[1..], cmp);
      InsertSorted(s[0], SortBy(s[1..], cmp), cmp);
    }
  }

  lemma {:induction false} InsertStable<T(!new)>(x: T, s: seq<T>, cmp: (T, T) -> int, y: T)
    requires IsComparator(cmp)
    ensures Filter(Insert(x, s, cmp), EquivTo(cmp, y))
         == (if cmp(x, y) == 0 then [x] else []) + Filter(s, EquivTo(cmp, y))
  {
    var p := EquivTo(cmp, y);
    if s == [] || cmp(x, s[0]) <= 0 {
      assert ([x] + s)[0] == x && ([x] + s)[1..] == s;
    } else {
      var t := Insert(x, s[1..], cmp);
      InsertStable(x, s[1..], cmp, y);
      assert ([s[0]] + t)[0] == s[0] && ([s[0]] + t)[1..] == t;
    }
  }

  /** The sort is stable: the elements of any class of equal ones keep their order. */
  lemma {:induction false} SortByStable<T(!new)>(s: seq<T>, cmp: (T, T) -> int, y: T)
    requires IsComparator(cmp)
    ensures Filter(SortBy(s, cmp), EquivTo(cmp, y)) == Filter(s, EquivTo(cmp, y))
  {
    if s != [] {
      SortByStable(s[1..], cmp, y);
      InsertStable(s[0], SortBy(s[1..], cmp), cmp, y);
    }
  }

  /** A comparator that never reports "greater" leaves the order alone. */
  lemma {:induction false} SortByIdentity<T>(s: seq<T>, cmp: (T, T) -> int)
    requires forall i, j :: 0 <= i < |s| && 0 <= j < |s| ==> cmp(s[i], s[j]) <= 0
    ensures SortBy(s, cmp) == s
  {
    if s != [] {
      forall i, j | 0 <= i < |s[1..]| && 0 <= j < |s[1..]| ensures cmp(s[1..][i], s[1..][j]) <= 0 {
        assert s[1..][i] == s[i + 1] && s[1..][j] == s[j + 1];
      }
      SortByIdentity(s[1..], cmp);
      if |s| > 1 {
        assert cmp(s[0], s[1]) <= 0;
      }
    }
  }

  /** `(a, b) => -cmp(a, b)`, the comparator a descending/ascending switch produces. */
  function Reversed<T>(cmp: (T, T) -> int): (T, T) -> int {
    (a, b) => -cmp(a, b)
  }

  lemma ReversedIsComparator<T(!new)>(cmp: (T, T) -> int)
    requires IsComparator(cmp)
    ensures IsComparator(Reversed(cmp))
  {
    var r := Reversed(cmp);
    forall a, b, c | r(a, b) <= 0 && r(b, c) <= 0 ensures r(a, c) <= 0 {
      assert cmp(b, a) <= 0 && cmp(c, b) <= 0;
      assert cmp(c, a) <= 0;
    }
  }

  /** `(a, b) => key(a) - key(b)` for an integer key. */
  function ByKey<T>(key: T -> int): (T, T) -> int {
    (a, b) => key(a) - key(b)
  }

  lemma ByKeyIsComparator<T(!new)>(key: T -> int)
    ensures IsComparator(ByKey(key))
  {
  }

  /** Under an integer-key comparator, sorted means the keys never decrease. */
  lemma ByKeySorted<T(!new)>(s: seq<T>, key: T -> int)
    ensures var r := SortBy(s, ByKey(key));
      forall i, j :: 0 <= i < j < |r| ==> key(r[i]) <= key(r[j])
  {
    ByKeyIsComparator(key);
    SortBySorted(s, ByKey(key));
  }

  /** A comparator that ranks `key(a)` against `key(b)` by an outer comparator. */
  function OnKey<T, U>(cmp: (U, U) -> int, key: T -> U): (T, T) -> int {
    (a, b) => cmp(key(a), key(b))
  }

  lemma OnKeyIsComparator<T(!new), U(!new)>(cmp: (U, U) -> int, key: T -> U)
    requires IsComparator(cmp)
    ensures IsComparator(OnKey(cmp, key))
  {
    var c := OnKey(cmp, key);
    forall a, b, d | c(a, b) <= 0 && c(b, d) <= 0 ensures c(a, d) <= 0 {
      assert cmp(key(a), key(b)) <= 0 && cmp(key(b), key(d)) <= 0;
    }
  }
}
