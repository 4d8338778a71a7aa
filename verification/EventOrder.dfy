/**
 Sorting events by the index the contract gave them, and when the result is
 the contract's own sequence 0, 1, 2, ... (tools/zkmsg/core/src/registry.rs
 and tickets.rs rebuild both trees this way).
 */
module EventOrder {

  /** A stable insertion into a sequence sorted by `key`. */
  function Place<T(!new)>(key: T -> nat, x: T, s: seq<T>): seq<T> {
    if s == [] || key(x) <= key(s[0]) then [x] + s else [s[0]] + Place(key, x, s[1..])
  }

  /** `sort_by_key`: a stable sort. */
  function SortBy<T(!new)>(key: T -> nat, s: seq<T>): seq<T> {
    if s == [] then [] else Place(key, s[0], SortBy(key, s[1..]))
  }

  ghost predicate Sorted<T(!new)>(key: T -> nat, s: seq<T>) {
    forall i, j :: 0 <= i < j < |s| ==> key(s[i]) <= key(s[j])
  }

  lemma {:induction false} PlaceMembers<T(!new)>(key: T -> nat, x: T, s: seq<T>)
    ensures multiset(Place(key, x, s)) == multiset(s) + multiset{x}
    ensures forall y :: y in Place(key, x, s) <==> y in s || y == x
  {
    if s == [] || key(x) <= key(s[0]) {
    } else {
      PlaceMembers(key, x, s[1..]);
      assert s == [s[0]] + s[1..];
    }
  }

  lemma {:induction false} PlaceSorted<T(!new)>(key: T -> nat, x: T, s: seq<T>)
    requires Sorted(key, s)
    ensures Sorted(key, Place(key, x, s))
  {
    if s != [] && key(x) > key(s[0]) {
      var tail := s[1..];
      PlaceSorted(key, x, tail);
      PlaceMembers(key, x, tail);
      var rest := Place(key, x, tail);
      forall j | 0 <= j < |rest| ensures key(s[0]) <= key(rest[j]) {
        var y := rest[j];
        assert y in rest;
        if y in tail {
          var i :| 0 <= i < |tail| && tail[i] == y;
          assert s[i + 1] == y && key(s[0]) <= key(s[i + 1]);
        } else {
          assert y == x;
        }
      }
    }
  }

  lemma {:induction false} SortByIsSort<T(!new)>(key: T -> nat, s: seq<T>)
    ensures Sorted(key, SortBy(key, s)) && multiset(SortBy(key, s)) == multiset(s)
  {
    if s != [] {
      SortByIsSort(key, s[1..]);
      PlaceSorted(key, s[0], SortBy(key, s[1..]));
      PlaceMembers(key, s[0], SortBy(key, s[1..]));
      assert s == [s[0]] + s[1..];
    }
  }

  /** The keys that occur in s. */
  function Keys<T(!new), K(==, !new)>(key: T -> K, s: seq<T>): set<K> {
    if s == [] then {} else {key(s[0])} + Keys(key, s[1..])
  }

  function Below(n: nat): (r: set<nat>)
    ensures |r| == n && forall k: nat :: k in r <==> k < n
  {
    if n == 0 then {}
    else
      var b := Below(n - 1);
      assert n - 1 !in b;
      b + {n - 1}
  }

  /** The n keys are 0, ..., n-1, once each. */
  ghost predicate Contiguous<T(!new)>(key: T -> nat, s: seq<T>) {
    Keys(key, s) == Below(|s|)
  }

  /** s[i] has key i. */
  ghost predicate Indexed<T(!new)>(key: T -> nat, s: seq<T>) {
    forall i :: 0 <= i < |s| ==> key(s[i]) == i
  }

  lemma {:induction false} KeysMembers<T(!new), K(!new)>(key: T -> K, s: seq<T>)
    ensures forall i :: 0 <= i < |s| ==> key(s[i]) in Keys(key, s)
    ensures forall k :: k in Keys(key, s) ==> exists i :: 0 <= i < |s| && key(s[i]) == k
    ensures |Keys(key, s)| <= |s|
  {
    if s != [] {
      var tail := s[1..];
      KeysMembers(key, tail);
      assert {key(s[0])} + Keys(key, tail) == Keys(key, s);
      assert |{key(s[0])} + Keys(key, tail)| <= 1 + |Keys(key, tail)| by {
        if key(s[0]) in Keys(key, tail) {
          assert {key(s[0])} + Keys(key, tail) == Keys(key, tail);
        }
      }
      forall i | 0 <= i < |s| ensures key(s[i]) in Keys(key, s) {
        if i > 0 {
          assert tail[i - 1] == s[i];
        }
      }
      forall k | k in Keys(key, s) ensures exists i :: 0 <= i < |s| && key(s[i]) == k {
        if k == key(s[0]) {
          assert key(s[0]) == k;
        } else {
          var j :| 0 <= j < |tail| && key(tail[j]) == k;
          assert key(s[j + 1]) == k;
        }
      }
    }
  }

  lemma {:induction false} KeysAppend<T(!new), K(!new)>(key: T -> K, s: seq<T>, x: T)
    ensures Keys(key, s + [x]) == Keys(key, s) + {key(x)}
  {
    if s == [] {
    } else {
      assert (s + [x])[1..] == s[1..] + [x];
      KeysAppend(key, s[1..], x);
    }
  }

  lemma DropTop(keys: set<nat>, n: nat)
    requires n > 0 && |keys| <= n - 1 && keys + {n - 1} == Below(n)
    ensures keys == Below(n - 1)
  {
    assert |keys + {n - 1}| == |keys| + if n - 1 in keys then 0 else 1 by {
      assert n - 1 in keys ==> keys + {n - 1} == keys;
    }
    forall k: nat ensures k in keys <==> k in Below(n - 1) {
      assert k in keys + {n - 1} <==> k < n;
    }
  }

  lemma LastIsTop<T(!new)>(key: T -> nat, s: seq<T>)
    requires s != [] && Sorted(key, s) && Contiguous(key, s)
    ensures key(s[|s| - 1]) == |s| - 1
  {
    KeysMembers(key, s);
    assert |s| - 1 in Keys(key, s);
    assert key(s[|s| - 1]) in Keys(key, s);
    var i :| 0 <= i < |s| && key(s[i]) == |s| - 1;
  }

  /** A sorted sequence of n keys that are 0, ..., n-1 is indexed by them. */
  lemma {:induction false} SortedContiguous<T(!new)>(key: T -> nat, s: seq<T>)
    requires Sorted(key, s) && Contiguous(key, s)
    ensures Indexed(key, s)
  {
    if s != [] {
      var n := |s|;
      var front := s[..n - 1];
      assert s == front + [s[n - 1]];
      LastIsTop(key, s);
      KeysAppend(key, front, s[n - 1]);
      KeysMembers(key, front);
      DropTop(Keys(key, front), n);
      SortedContiguous(key, front);
    }
  }

  lemma {:induction false} IndexedIsContiguous<T(!new)>(key: T -> nat, s: seq<T>)
    requires Indexed(key, s)
    ensures Contiguous(key, s)
  {
    if s != [] {
      var n := |s|;
      assert s == s[..n - 1] + [s[n - 1]];
      KeysAppend(key, s[..n - 1], s[n - 1]);
      IndexedIsContiguous(key, s[..n - 1]);
    }
  }

  lemma InBoth<T(!new)>(s: seq<T>, t: seq<T>, x: T)
    requires multiset(s) == multiset(t)
    ensures x in s <==> x in t
  {
    assert x in s <==> x in multiset(s);
    assert x in t <==> x in multiset(t);
  }

  lemma KeysWithin<T(!new), K(!new)>(key: T -> K, s: seq<T>, t: seq<T>)
    requires multiset(s) == multiset(t)
    ensures Keys(key, s) <= Keys(key, t)
  {
    KeysMembers(key, s);
    KeysMembers(key, t);
    forall k | k in Keys(key, s) ensures k in Keys(key, t) {
      var i :| 0 <= i < |s| && key(s[i]) == k;
      InBoth(s, t, s[i]);
      var j :| 0 <= j < |t| && t[j] == s[i];
      assert key(t[j]) in Keys(key, t);
    }
  }

  lemma SameKeys<T(!new), K(!new)>(key: T -> K, s: seq<T>, t: seq<T>)
    requires multiset(s) == multiset(t)
    ensures |s| == |t| && Keys(key, s) == Keys(key, t)
  {
    assert |multiset(s)| == |multiset(t)|;
    KeysWithin(key, s, t);
    KeysWithin(key, t, s);
  }

  /** Sorting yields the contract's sequence exactly when the keys are
      0, ..., n-1 once each. */
  lemma SortIndexes<T(!new)>(key: T -> nat, s: seq<T>)
    ensures |SortBy(key, s)| == |s|
    ensures Indexed(key, SortBy(key, s)) <==> Contiguous(key, s)
  {
    SortByIsSort(key, s);
    var t := SortBy(key, s);
    SameKeys(key, s, t);
    if Contiguous(key, s) {
      SortedContiguous(key, t);
    }
    if Indexed(key, t) {
      IndexedIsContiguous(key, t);
    }
  }

  lemma IndexedUnique<T(!new)>(key: T -> nat, a: seq<T>, b: seq<T>)
    requires Indexed(key, a) && Indexed(key, b) && multiset(a) == multiset(b)
    ensures a == b
  {
    SameKeys(key, a, b);
    forall i | 0 <= i < |a| ensures a[i] == b[i] {
      InBoth(a, b, a[i]);
      var j :| 0 <= j < |b| && b[j] == a[i];
      assert key(b[j]) == j && key(a[i]) == i;
    }
  }

  /** The contract's sequence does not depend on the order the events came in. */
  lemma SortIgnoresOrder<T(!new)>(key: T -> nat, s: seq<T>, t: seq<T>)
    requires multiset(s) == multiset(t) && Contiguous(key, s)
    ensures Contiguous(key, t) && SortBy(key, s) == SortBy(key, t)
  {
    SameKeys(key, s, t);
    SortIndexes(key, s);
    SortIndexes(key, t);
    SortByIsSort(key, s);
    SortByIsSort(key, t);
    IndexedUnique(key, SortBy(key, s), SortBy(key, t));
  }
}
