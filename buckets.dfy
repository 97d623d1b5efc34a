/**
 * Sorting by an integer key and selecting the elements that carry a label:
 * the two collection operations `groupForecastsByDay` is built from, stated
 * for any element type so that their proofs do not depend on how keys and
 * labels are computed.
 */
module Buckets {
  import opened Wrappers

  predicate SortedBy<T>(s: seq<T>, key: T -> int) {
    forall i, j :: 0 <= i < j < |s| ==> key(s[i]) <= key(s[j])
  }

  /** Inserts `x` in front of the first element whose key is not smaller. */
  function InsertBy<T>(x: T, s: seq<T>, key: T -> int): (r: seq<T>)
    requires SortedBy(s, key)
    ensures SortedBy(r, key)
    ensures multiset(r) == multiset(s) + multiset{x}
    ensures r[0] == x || (s != [] && r[0] == s[0])
    decreases |s|
  {
    if s == [] then [x]
    else if key(x) <= key(s[0]) then
      SortedCons(x, s, key);
      [x] + s
    else
      var rest := InsertBy(x, s[1..], key);
      assert s == [s[0]] + s[1..];
      SortedCons(s[0], rest, key);
      [s[0]] + rest
  }

  lemma SortedCons<T>(a: T, t: seq<T>, key: T -> int)
    requires SortedBy(t, key) && (t != [] ==> key(a) <= key(t[0]))
    ensures SortedBy([a] + t, key)
  {
    var r := [a] + t;
    forall i, j | 0 <= i < j < |r| ensures key(r[i]) <= key(r[j]) {
      if i == 0 {
        assert r[j] == t[j - 1];
        assert key(t[0]) <= key(t[j - 1]) || j == 1;
      } else {
        assert r[i] == t[i - 1] && r[j] == t[j - 1];
      }
    }
  }

  /**
   * A stable insertion sort: the result is ordered by key and is a permutation
   * of the input; an element goes in front of the later elements with an equal key.
   */
  function SortBy<T>(s: seq<T>, key: T -> int): (r: seq<T>)
    ensures SortedBy(r, key)
    ensures multiset(r) == multiset(s)
    decreases |s|
  {
    if s == [] then []
    else
      assert s == [s[0]] + s[1..];
      InsertBy(s[0], SortBy(s[1..], key), key)
  }

  /** The elements of `s` whose key is `k`, in their order in `s`. */
  function WithKey<T>(s: seq<T>, key: T -> int, k: int): seq<T>
    decreases |s|
  {
    if s == [] then [] else (if key(s[0]) == k then [s[0]] else []) + WithKey(s[1..], key, k)
  }

  /**
   * Insertion puts `x` in front of every element with its key: among the
   * elements with any one key, `x` comes first and the others keep their order.
   */
  lemma {:induction false} InsertByWithKey<T>(x: T, s: seq<T>, key: T -> int, k: int)
    requires SortedBy(s, key)
    ensures WithKey(InsertBy(x, s, key), key, k) == (if key(x) == k then [x] else []) + WithKey(s, key, k)
    decreases |s|
  {
    if s == [] || key(x) <= key(s[0]) {
      WithKeyCons(x, s, key, k);
    } else {
      assert SortedBy(s[1..], key);
      InsertByWithKey(x, s[1..], key, k);
      InsertByBehind(x, s, key);
      WithKeyBehind(x, s, InsertBy(x, s[1..], key), key, k);
    }
  }

  lemma WithKeyCons<T>(x: T, s: seq<T>, key: T -> int, k: int)
    ensures WithKey([x] + s, key, k) == (if key(x) == k then [x] else []) + WithKey(s, key, k)
  {
    assert ([x] + s)[0] == x && ([x] + s)[1..] == s;
  }

  /** Putting `s[0]` in front of a sequence that starts the keys of `s[1..]` with `x`, when `x`'s key is larger. */
  lemma WithKeyBehind<T>(x: T, s: seq<T>, rest: seq<T>, key: T -> int, k: int)
    requires s != [] && key(s[0]) < key(x)
    requires WithKey(rest, key, k) == (if key(x) == k then [x] else []) + WithKey(s[1..], key, k)
    ensures WithKey([s[0]] + rest, key, k) == (if key(x) == k then [x] else []) + WithKey(s, key, k)
  {
    WithKeyCons(s[0], rest, key, k);
    WithKeyCons(s[0], s[1..], key, k);
    assert [s[0]] + s[1..] == s;
  }

  /** An element with a larger key than the front goes behind it. */
  lemma InsertByBehind<T>(x: T, s: seq<T>, key: T -> int)
    requires SortedBy(s, key) && s != [] && key(s[0]) < key(x)
    ensures InsertBy(x, s, key) == [s[0]] + InsertBy(x, s[1..], key)
  {
  }

  /** The sort is stable: the elements with any one key keep their order in `s`. */
  lemma {:induction false} SortByStable<T>(s: seq<T>, key: T -> int, k: int)
    ensures WithKey(SortBy(s, key), key, k) == WithKey(s, key, k)
    decreases |s|
  {
    if s != [] {
      SortByStable(s[1..], key, k);
      InsertByWithKey(s[0], SortBy(s[1..], key), key, k);
    }
  }

  /** The elements of `s` labelled `l`, in their order in `s`. */
  function Select<T, L(==)>(s: seq<T>, labelOf: T -> Option<L>, l: L): seq<T>
    decreases |s|
  {
    if s == [] then []
    else Select(s[..|s| - 1], labelOf, l) + (if labelOf(s[|s| - 1]) == Some(l) then [s[|s| - 1]] else [])
  }

  /** The elements of `s` that carry any label, in their order in `s`. */
  function Labelled<T, L>(s: seq<T>, labelOf: T -> Option<L>): seq<T>
    decreases |s|
  {
    if s == [] then []
    else Labelled(s[..|s| - 1], labelOf) + (if labelOf(s[|s| - 1]).Some? then [s[|s| - 1]] else [])
  }

  lemma SelectSnoc<T, L>(s: seq<T>, i: nat, labelOf: T -> Option<L>, l: L)
    requires i < |s|
    ensures Select(s[..i + 1], labelOf, l) == Select(s[..i], labelOf, l) + (if labelOf(s[i]) == Some(l) then [s[i]] else [])
  {
    assert s[..i + 1][..i] == s[..i];
  }

  /** How often `x` occurs in a selection: as often as in `s` when it carries the label, else never. */
  lemma {:induction false} SelectCount<T, L>(s: seq<T>, labelOf: T -> Option<L>, l: L, x: T)
    ensures multiset(Select(s, labelOf, l))[x] == if labelOf(x) == Some(l) then multiset(s)[x] else 0
    decreases |s|
  {
    if s != [] {
      var p := s[..|s| - 1];
      SelectCount(p, labelOf, l, x);
      assert s == p + [s[|s| - 1]];
    }
  }

  lemma {:induction false} LabelledCount<T, L>(s: seq<T>, labelOf: T -> Option<L>, x: T)
    ensures multiset(Labelled(s, labelOf))[x] == if labelOf(x).Some? then multiset(s)[x] else 0
    decreases |s|
  {
    if s != [] {
      var p := s[..|s| - 1];
      LabelledCount(p, labelOf, x);
      assert s == p + [s[|s| - 1]];
    }
  }

  /** Selecting from two permutations of one another gives permutations of one another. */
  lemma SelectPermutation<T, L>(s: seq<T>, t: seq<T>, labelOf: T -> Option<L>, l: L)
    requires multiset(s) == multiset(t)
    ensures multiset(Select(s, labelOf, l)) == multiset(Select(t, labelOf, l))
  {
    var a, b := multiset(Select(s, labelOf, l)), multiset(Select(t, labelOf, l));
    forall x ensures a[x] == b[x] {
      SelectCount(s, labelOf, l, x);
      SelectCount(t, labelOf, l, x);
      assert multiset(s)[x] == multiset(t)[x];
    }
    MultisetExtensional(a, b);
  }

  lemma MultisetExtensional<T>(a: multiset<T>, b: multiset<T>)
    requires forall x :: a[x] == b[x]
    ensures a == b
  {
  }

  /** A selection holds only elements of `s`, and only ones labelled `l`. */
  lemma {:induction false} SelectMembers<T, L>(s: seq<T>, labelOf: T -> Option<L>, l: L)
    ensures forall x :: x in Select(s, labelOf, l) ==> x in s && labelOf(x) == Some(l)
    decreases |s|
  {
    if s != [] {
      var p := s[..|s| - 1];
      SelectMembers(p, labelOf, l);
      assert s == p + [s[|s| - 1]];
    }
  }

  /** A selection keeps the order of `s`, so it is sorted when `s` is. */
  lemma {:induction false} SelectSorted<T, L>(s: seq<T>, labelOf: T -> Option<L>, l: L, key: T -> int)
    requires SortedBy(s, key)
    ensures SortedBy(Select(s, labelOf, l), key)
    ensures forall j :: 0 <= j < |Select(s, labelOf, l)| ==> s != [] && key(Select(s, labelOf, l)[j]) <= key(s[|s| - 1])
    decreases |s|
  {
    if s != [] {
      var p := s[..|s| - 1];
      assert SortedBy(p, key);
      SelectSorted(p, labelOf, l, key);
      var q := Select(p, labelOf, l);
      forall j | 0 <= j < |q| ensures key(q[j]) <= key(s[|s| - 1]) {
        assert key(q[j]) <= key(p[|p| - 1]);
        assert p[|p| - 1] == s[|s| - 2];
      }
    }
  }

  /** Nothing is selected exactly when no element of `s` carries the label. */
  lemma {:induction false} SelectEmpty<T, L>(s: seq<T>, labelOf: T -> Option<L>, l: L)
    ensures Select(s, labelOf, l) == [] <==> forall i :: 0 <= i < |s| ==> labelOf(s[i]) != Some(l)
    decreases |s|
  {
    if s != [] {
      var p := s[..|s| - 1];
      SelectEmpty(p, labelOf, l);
      assert forall i :: 0 <= i < |p| ==> p[i] == s[i];
    }
  }

  /** The dictionary update `grouped[l, default: []].append(x)`, skipped when `x` has no label. */
  function AddToBucket<T, L(==)>(grouped: map<L, seq<T>>, l: Option<L>, x: T): (r: map<L, seq<T>>)
    ensures l.None? ==> r == grouped
    ensures l.Some? ==> r.Keys == grouped.Keys + {l.value} && r[l.value] != [] && r[l.value][|r[l.value]| - 1] == x
    ensures l.Some? ==> r[l.value][..|r[l.value]| - 1] == if l.value in grouped then grouped[l.value] else []
    ensures forall k :: k in grouped && l != Some(k) ==> r[k] == grouped[k]
  {
    match l
    case None => grouped
    case Some(key) => grouped[key := (if key in grouped then grouped[key] else []) + [x]]
  }

  /** The dictionary holds exactly the non-empty selections of `s`. */
  ghost predicate HoldsSelections<T, L(!new)>(grouped: map<L, seq<T>>, s: seq<T>, labelOf: T -> Option<L>) {
    (forall l :: l in grouped <==> Select(s, labelOf, l) != []) &&
    (forall l :: l in grouped ==> grouped[l] == Select(s, labelOf, l))
  }

  /** Appending the next element under its label keeps the dictionary equal to the selections. */
  lemma AddToBucketStep<T, L(!new)>(grouped: map<L, seq<T>>, s: seq<T>, i: nat, labelOf: T -> Option<L>)
    requires i < |s| && HoldsSelections(grouped, s[..i], labelOf)
    ensures HoldsSelections(AddToBucket(grouped, labelOf(s[i]), s[i]), s[..i + 1], labelOf)
  {
    forall l ensures Select(s[..i + 1], labelOf, l) == Select(s[..i], labelOf, l) + (if labelOf(s[i]) == Some(l) then [s[i]] else []) {
      SelectSnoc(s, i, labelOf, l);
    }
  }
}
