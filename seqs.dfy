/** The array operations the components chain together: `filter`, `map` over matching
    elements, de-duplication in first-seen order (`new Set(...)` / a `Map` keyed by id)
    and the add-or-remove toggle used by the check-box lists. */
module Seqs {
  import opened Js

  /** `b` contains the elements of `a`, in the same order, possibly with others between. */
  predicate IsSubsequence<T(==)>(a: seq<T>, b: seq<T>)
    decreases |b|
  {
    a == [] || (b != [] && ((a[0] == b[0] && IsSubsequence(a[1..], b[1..])) || IsSubsequence(a, b[1..])))
  }

  /** `s.filter(p)`. */
  function Filter<T>(s: seq<T>, p: T -> bool): (r: seq<T>)
    ensures |r| <= |s|
    ensures forall x :: x in r ==> x in s && p(x)
    ensures forall x :: x in s && p(x) ==> x in r
    ensures IsSubsequence(r, s)
  {
    if s == [] then []
    else if p(s[0]) then [s[0]] + Filter(s[1..], p)
    else Filter(s[1..], p)
  }

  lemma {:induction false} FilterAppend<T>(a: seq<T>, b: seq<T>, p: T -> bool)
    ensures Filter(a + b, p) == Filter(a, p) + Filter(b, p)
  {
    if a == [] {
      assert a + b == b;
    } else {
      assert (a + b)[0] == a[0];
      assert (a + b)[1..] == a[1..] + b;
      FilterAppend(a[1..], b, p);
    }
  }

  /** Filtering with a predicate that holds everywhere changes nothing. */
  lemma {:induction false} FilterAll<T>(s: seq<T>, p: T -> bool)
    requires forall x :: x in s ==> p(x)
    ensures Filter(s, p) == s
  {
    if s != [] {
      FilterAll(s[1..], p);
    }
  }

  /** Filtering with a predicate that holds nowhere leaves nothing. */
  lemma {:induction false} FilterNone<T>(s: seq<T>, p: T -> bool)
    requires forall x :: x in s ==> !p(x)
    ensures Filter(s, p) == []
  {
    if s != [] {
      FilterNone(s[1..], p);
    }
  }

  /** Two predicates that agree on the elements select the same elements. */
  lemma {:induction false} FilterExt<T>(s: seq<T>, p: T -> bool, q: T -> bool)
    requires forall x :: x in s ==> p(x) == q(x)
    ensures Filter(s, p) == Filter(s, q)
  {
    if s != [] {
      FilterExt(s[1..], p, q);
    }
  }

  /** Two filters in a row keep what satisfies both predicates. */
  lemma {:induction false} FilterFilter<T>(s: seq<T>, p: T -> bool, q: T -> bool, both: T -> bool)
    requires forall x :: x in s ==> both(x) == (p(x) && q(x))
    ensures Filter(Filter(s, p), q) == Filter(s, both)
  {
    if s != [] {
      FilterFilter(s[1..], p, q, both);
      if p(s[0]) {
        var t := Filter(s[1..], p);
        assert ([s[0]] + t)[0] == s[0] && ([s[0]] + t)[1..] == t;
      }
    }
  }

  /** Filtering a prefix gives a prefix of the filtered sequence. */
  lemma {:induction false} FilterPrefix<T>(s: seq<T>, k: nat, p: T -> bool)
    requires k <= |s|
    ensures Filter(s[..k], p) <= Filter(s, p)
  {
    assert s == s[..k] + s[k..];
    FilterAppend(s[..k], s[k..], p);
  }

  /** A weaker predicate keeps at least as many elements. */
  lemma {:induction false} FilterMonotone<T>(s: seq<T>, p: T -> bool, q: T -> bool)
    requires forall x :: x in s && p(x) ==> q(x)
    ensures |Filter(s, p)| <= |Filter(s, q)|
  {
    if s != [] {
      FilterMonotone(s[1..], p, q);
    }
  }

  /** `s.map(x => p(x) ? f(x) : x)`: the in-place update of the matching elements. */
  function MapWhere<T>(s: seq<T>, p: T -> bool, f: T -> T): (r: seq<T>)
    ensures |r| == |s|
    ensures forall i :: 0 <= i < |s| ==> r[i] == if p(s[i]) then f(s[i]) else s[i]
  {
    if s == [] then [] else [if p(s[0]) then f(s[0]) else s[0]] + MapWhere(s[1..], p, f)
  }

  /** When nothing matches, the update changes nothing. */
  lemma MapWhereNone<T>(s: seq<T>, p: T -> bool, f: T -> T)
    requires forall i :: 0 <= i < |s| ==> !p(s[i])
    ensures MapWhere(s, p, f) == s
  {
  }

  /** The first element of `s` whose key is `k`, if any. */
  function FirstWithKey<T, K(==)>(s: seq<T>, key: T -> K, k: K): (r: Option<T>)
    ensures r.Some? ==> r.value in s && key(r.value) == k
    ensures r.None? ==> forall x :: x in s ==> key(x) != k
  {
    if s == [] then None else if key(s[0]) == k then Some(s[0]) else FirstWithKey(s[1..], key, k)
  }

  /** The keys of the elements of `s`. */
  function Keys<T, K>(s: seq<T>, key: T -> K): (ks: set<K>)
    ensures forall x :: x in s ==> key(x) in ks
  {
    if s == [] then {} else {key(s[0])} + Keys(s[1..], key)
  }

  lemma {:induction false} KeysWitness<T, K>(s: seq<T>, key: T -> K, k: K)
    requires k in Keys(s, key)
    ensures exists x :: x in s && key(x) == k
  {
    if key(s[0]) != k {
      KeysWitness(s[1..], key, k);
      var x :| x in s[1..] && key(x) == k;
      assert x in s;
    }
  }

  /** The elements of `s` whose key is not in `seen` and has not occurred earlier in `s`,
      in order: what collecting into a `Map` keyed by `key` (or a `Set`) keeps. */
  function DedupBy<T, K>(s: seq<T>, key: T -> K, seen: set<K>): (r: seq<T>)
    ensures IsSubsequence(r, s)
    ensures forall x :: x in r ==> x in s
  {
    if s == [] then []
    else if key(s[0]) in seen then DedupBy(s[1..], key, seen)
    else [s[0]] + DedupBy(s[1..], key, seen + {key(s[0])})
  }

  /** One step of the de-duplication: the head is kept exactly when its key is new, and
      its key is seen from then on. */
  lemma DedupByStep<T, K>(s: seq<T>, key: T -> K, seen: set<K>)
    requires s != []
    ensures DedupBy(s, key, seen)
         == (if key(s[0]) in seen then [] else [s[0]]) + DedupBy(s[1..], key, seen + {key(s[0])})
  {
    if key(s[0]) in seen {
      assert seen + {key(s[0])} == seen;
    }
  }

  /** The kept elements have pairwise distinct keys, none of them already seen. */
  lemma {:induction false} DedupDistinct<T, K>(s: seq<T>, key: T -> K, seen: set<K>)
    ensures forall i :: 0 <= i < |DedupBy(s, key, seen)| ==> key(DedupBy(s, key, seen)[i]) !in seen
    ensures forall i, j :: 0 <= i < j < |DedupBy(s, key, seen)| ==>
      key(DedupBy(s, key, seen)[i]) != key(DedupBy(s, key, seen)[j])
  {
    if s != [] {
      var r := DedupBy(s, key, seen);
      if key(s[0]) in seen {
        DedupDistinct(s[1..], key, seen);
        assert r == DedupBy(s[1..], key, seen);
      } else {
        var seen' := seen + {key(s[0])};
        DedupDistinct(s[1..], key, seen');
        var rest := DedupBy(s[1..], key, seen');
        assert r == [s[0]] + rest;
        forall i | 0 <= i < |r| ensures key(r[i]) !in seen {
          if i > 0 {
            assert r[i] == rest[i - 1];
          }
        }
        forall i, j | 0 <= i < j < |r| ensures key(r[i]) != key(r[j]) {
          assert r[j] == rest[j - 1];
          if i > 0 {
            assert r[i] == rest[i - 1];
          }
        }
      }
    }
  }

  /** Every key of `s` that was not seen before is represented. */
  lemma {:induction false} DedupKeys<T, K>(s: seq<T>, key: T -> K, seen: set<K>)
    ensures Keys(DedupBy(s, key, seen), key) == Keys(s, key) - seen
  {
    if s != [] {
      KeysAppend([s[0]], s[1..], key);
      assert [s[0]] + s[1..] == s;
      if key(s[0]) in seen {
        DedupKeys(s[1..], key, seen);
      } else {
        DedupKeys(s[1..], key, seen + {key(s[0])});
        var rest := DedupBy(s[1..], key, seen + {key(s[0])});
        KeysAppend([s[0]], rest, key);
        assert DedupBy(s, key, seen) == [s[0]] + rest;
      }
    }
  }

  lemma {:induction false} KeysAppend<T, K>(a: seq<T>, b: seq<T>, key: T -> K)
    ensures Keys(a + b, key) == Keys(a, key) + Keys(b, key)
  {
    if a == [] {
      assert a + b == b;
    } else {
      assert (a + b)[0] == a[0];
      assert (a + b)[1..] == a[1..] + b;
      KeysAppend(a[1..], b, key);
    }
  }

  /** Each kept element is the first element of `s` with its key: the first entry
      written under a key is the one kept. */
  lemma {:induction false} DedupFirstSeen<T, K>(s: seq<T>, key: T -> K, seen: set<K>)
    ensures forall i :: 0 <= i < |DedupBy(s, key, seen)| ==>
      FirstWithKey(s, key, key(DedupBy(s, key, seen)[i])) == Some(DedupBy(s, key, seen)[i])
  {
    if s != [] {
      var r := DedupBy(s, key, seen);
      var seen' := if key(s[0]) in seen then seen else seen + {key(s[0])};
      DedupFirstSeen(s[1..], key, seen');
      DedupDistinct(s[1..], key, seen');
      var rest := DedupBy(s[1..], key, seen');
      if key(s[0]) in seen {
        assert r == rest;
        forall i | 0 <= i < |r| ensures FirstWithKey(s, key, key(r[i])) == Some(r[i]) {
          assert key(rest[i]) !in seen';
        }
      } else {
        assert r == [s[0]] + rest;
        forall i | 0 <= i < |r| ensures FirstWithKey(s, key, key(r[i])) == Some(r[i]) {
          if i > 0 {
            assert r[i] == rest[i - 1];
            assert key(rest[i - 1]) !in seen';
          }
        }
      }
    }
  }

  /** Adds `x` when absent and removes it when present: the check-box toggle over a
      list of selected values. */
  function Toggle<T(==)>(s: seq<T>, x: T): (r: seq<T>)
    ensures x in s ==> x !in r && (forall y :: y in r ==> y in s) && forall y :: y in s && y != x ==> y in r
    ensures x !in s ==> r == s + [x]
  {
    if x in s then Filter(s, y => y != x) else s + [x]
  }

  /** Toggling a value that was not selected twice restores the selection. */
  lemma ToggleTwice<T>(s: seq<T>, x: T)
    requires x !in s
    ensures Toggle(Toggle(s, x), x) == s
  {
    var p := (y: T) => y != x;
    FilterAppend(s, [x], p);
    FilterAll(s, p);
    assert Filter([x], p) == [];
  }
}
