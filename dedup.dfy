/** Ordered, first-seen-wins deduplication by a key, as the scrapers do it four
    times: a `seen` set grows while a result list collects every element whose
    key was not yet seen. `Unique` is the specification, `Deduplicate` the
    loop; the lemmas below serve every use. */
module Dedup {

  function KeySet<T, K>(xs: seq<T>, key: T -> K): (ks: set<K>)
    ensures forall i :: 0 <= i < |xs| ==> key(xs[i]) in ks
  {
    set i | 0 <= i < |xs| :: key(xs[i])
  }

  lemma KeySetSnoc<T, K>(xs: seq<T>, x: T, key: T -> K)
    ensures KeySet(xs + [x], key) == KeySet(xs, key) + {key(x)}
  {
    var l, r := KeySet(xs + [x], key), KeySet(xs, key) + {key(x)};
    forall k | k in l ensures k in r {
      var i :| 0 <= i < |xs + [x]| && key((xs + [x])[i]) == k;
      if i < |xs| { assert (xs + [x])[i] == xs[i]; }
    }
    forall k | k in r ensures k in l {
      if k in KeySet(xs, key) {
        var i :| 0 <= i < |xs| && key(xs[i]) == k;
        assert (xs + [x])[i] == xs[i];
      } else {
        assert (xs + [x])[|xs|] == x;
      }
    }
  }

  /** The elements of xs whose key no earlier element has, in order. */
  function Unique<T, K(==)>(xs: seq<T>, key: T -> K): (r: seq<T>)
    ensures |r| <= |xs|
  {
    if xs == [] then []
    else
      var d := Unique(xs[..|xs| - 1], key);
      if key(xs[|xs| - 1]) in KeySet(d, key) then d else d + [xs[|xs| - 1]]
  }

  /** Element i of xs is the first with its key. */
  ghost predicate IsFirst<T, K>(xs: seq<T>, key: T -> K, i: nat)
    requires i < |xs|
  {
    forall j :: 0 <= j < i ==> key(xs[j]) != key(xs[i])
  }

  /** A reference definition: the elements among the first n of xs that are
      the first with their key, in index order. */
  ghost function FirstOccurrences<T, K>(xs: seq<T>, key: T -> K, n: nat): (r: seq<T>)
    requires n <= |xs|
  {
    if n == 0 then []
    else FirstOccurrences(xs, key, n - 1) + (if IsFirst(xs, key, n - 1) then [xs[n - 1]] else [])
  }

  /** The reference definition holds every first occurrence among the first
      n elements, and nothing else. */
  lemma {:induction false} FirstOccurrencesMembers<T, K>(xs: seq<T>, key: T -> K, n: nat)
    requires n <= |xs|
    ensures forall k :: 0 <= k < n && IsFirst(xs, key, k) ==> xs[k] in FirstOccurrences(xs, key, n)
    ensures forall x :: x in FirstOccurrences(xs, key, n) ==> exists k :: 0 <= k < n && IsFirst(xs, key, k) && xs[k] == x
  {
    if n > 0 {
      FirstOccurrencesMembers(xs, key, n - 1);
      var prev := FirstOccurrences(xs, key, n - 1);
      var tail := if IsFirst(xs, key, n - 1) then [xs[n - 1]] else [];
      assert FirstOccurrences(xs, key, n) == prev + tail;
      forall x | x in FirstOccurrences(xs, key, n)
        ensures exists k :: 0 <= k < n && IsFirst(xs, key, k) && xs[k] == x
      {
        if x !in prev {
          assert x in tail;
          assert IsFirst(xs, key, n - 1) && xs[n - 1] == x;
        }
      }
    }
  }

  /** Deduplication keeps exactly the keys it was given. */
  lemma {:induction false} UniqueKeySet<T, K>(xs: seq<T>, key: T -> K)
    ensures KeySet(Unique(xs, key), key) == KeySet(xs, key)
  {
    if xs != [] {
      var p := xs[..|xs| - 1];
      UniqueKeySet(p, key);
      var d := Unique(p, key);
      var x := xs[|xs| - 1];
      assert xs == p + [x];
      KeySetSnoc(p, x, key);
      if key(x) !in KeySet(d, key) {
        KeySetSnoc(d, x, key);
      }
    }
  }

  /** An element is kept exactly when no earlier element has its key: the
      output is the order-preserving selection of first occurrences. */
  lemma {:induction false} UniqueIsFirstOccurrences<T, K>(xs: seq<T>, key: T -> K)
    ensures Unique(xs, key) == FirstOccurrences(xs, key, |xs|)
  {
    if xs != [] {
      var n := |xs|;
      var p := xs[..n - 1];
      var d := Unique(p, key);
      var x := xs[n - 1];
      var kept := IsFirst(xs, key, n - 1);
      calc {
        Unique(xs, key);
        if key(x) in KeySet(d, key) then d else d + [x];
        { UniqueKeepsLast(xs, key); }
        if kept then d + [x] else d;
        { UniqueIsFirstOccurrences(p, key); FirstOccurrencesPrefix(xs, key, n - 1); }
        FirstOccurrences(xs, key, n - 1) + (if kept then [x] else []);
        FirstOccurrences(xs, key, n);
      }
    }
  }

  /** The last element survives exactly when it is the first with its key. */
  lemma UniqueKeepsLast<T, K>(xs: seq<T>, key: T -> K)
    requires xs != []
    ensures key(xs[|xs| - 1]) in KeySet(Unique(xs[..|xs| - 1], key), key) <==> !IsFirst(xs, key, |xs| - 1)
  {
    UniqueKeySet(xs[..|xs| - 1], key);
    IsFirstLast(xs, key);
  }

  /** The last element is the first with its key exactly when the elements
      before it do not have that key. */
  lemma IsFirstLast<T, K>(xs: seq<T>, key: T -> K)
    requires xs != []
    ensures IsFirst(xs, key, |xs| - 1) <==> key(xs[|xs| - 1]) !in KeySet(xs[..|xs| - 1], key)
  {
    var n := |xs|;
    var p := xs[..n - 1];
    if key(xs[n - 1]) in KeySet(p, key) {
      var j :| 0 <= j < |p| && key(p[j]) == key(xs[n - 1]);
      assert key(xs[j]) == key(xs[n - 1]);
    } else {
      forall j | 0 <= j < n - 1 ensures key(xs[j]) != key(xs[n - 1]) {
        assert xs[j] == p[j];
      }
    }
  }

  /** The reference definition only looks at the first n elements. */
  lemma {:induction false} FirstOccurrencesPrefix<T, K>(xs: seq<T>, key: T -> K, n: nat)
    requires n <= |xs|
    ensures FirstOccurrences(xs[..n], key, n) == FirstOccurrences(xs, key, n)
  {
    if n > 0 {
      FirstOccurrencesPrefix(xs, key, n - 1);
      FirstOccurrencesPrefixOf(xs, n, key, n - 1);
      assert IsFirst(xs[..n], key, n - 1) == IsFirst(xs, key, n - 1) by {
        assert forall j :: 0 <= j < n ==> xs[..n][j] == xs[j];
      }
    }
  }

  lemma {:induction false} FirstOccurrencesPrefixOf<T, K>(xs: seq<T>, m: nat, key: T -> K, n: nat)
    requires n <= m <= |xs|
    ensures FirstOccurrences(xs[..m], key, n) == FirstOccurrences(xs, key, n)
  {
    if n > 0 {
      FirstOccurrencesPrefixOf(xs, m, key, n - 1);
      assert IsFirst(xs[..m], key, n - 1) == IsFirst(xs, key, n - 1) by {
        assert forall j :: 0 <= j < m ==> xs[..m][j] == xs[j];
      }
    }
  }

  /** No two kept elements share a key. */
  lemma {:induction false} UniqueKeysDistinct<T, K>(xs: seq<T>, key: T -> K)
    ensures forall i, j :: 0 <= i < j < |Unique(xs, key)| ==>
      key(Unique(xs, key)[i]) != key(Unique(xs, key)[j])
  {
    if xs != [] {
      var p := xs[..|xs| - 1];
      UniqueKeysDistinct(p, key);
      var d := Unique(p, key);
      var x := xs[|xs| - 1];
      if key(x) !in KeySet(d, key) {
        var r := d + [x];
        forall i, j | 0 <= i < j < |r| ensures key(r[i]) != key(r[j]) {
          if j == |d| {
            assert key(r[i]) in KeySet(d, key);
          }
        }
      }
    }
  }

  /** Every kept element comes from the input, and there are no more of them. */
  lemma {:induction false} UniqueSubset<T, K>(xs: seq<T>, key: T -> K)
    ensures |Unique(xs, key)| <= |xs|
    ensures forall x :: x in Unique(xs, key) ==> x in xs
  {
    if xs != [] {
      var p := xs[..|xs| - 1];
      UniqueSubset(p, key);
      assert forall x :: x in p ==> x in xs;
    }
  }

  /** The survivors of a prefix are a prefix of the survivors of the whole:
      later elements never displace earlier ones. */
  lemma {:induction false} UniquePrefix<T, K>(xs: seq<T>, ys: seq<T>, key: T -> K)
    ensures |Unique(xs, key)| <= |Unique(xs + ys, key)|
    ensures Unique(xs + ys, key)[..|Unique(xs, key)|] == Unique(xs, key)
    ensures forall x :: x in Unique(xs + ys, key)[|Unique(xs, key)|..] ==> x in ys
  {
    if ys == [] {
      assert xs + ys == xs;
    } else {
      var ys' := ys[..|ys| - 1];
      var y := ys[|ys| - 1];
      UniquePrefix(xs, ys', key);
      assert (xs + ys)[..|xs + ys| - 1] == xs + ys';
      var d := Unique(xs + ys', key);
      var u := Unique(xs, key);
      assert Unique(xs + ys, key) == if key(y) in KeySet(d, key) then d else d + [y];
      if key(y) !in KeySet(d, key) {
        assert (d + [y])[..|u|] == d[..|u|];
        assert (d + [y])[|u|..] == d[|u|..] + [y];
      }
      assert forall x :: x in ys' ==> x in ys;
    }
  }

  /** Appending elements whose keys were all seen already changes nothing. */
  lemma {:induction false} UniqueAppendSeen<T, K>(xs: seq<T>, ys: seq<T>, key: T -> K)
    requires forall j :: 0 <= j < |ys| ==> key(ys[j]) in KeySet(xs, key)
    ensures Unique(xs + ys, key) == Unique(xs, key)
  {
    if ys == [] {
      assert xs + ys == xs;
    } else {
      var ys' := ys[..|ys| - 1];
      UniqueAppendSeen(xs, ys', key);
      assert (xs + ys)[..|xs + ys| - 1] == xs + ys';
      UniqueKeySet(xs, key);
      assert key(ys[|ys| - 1]) in KeySet(Unique(xs + ys', key), key);
    }
  }

  /** Deduplicating a list concatenated with itself is deduplicating it once. */
  lemma UniqueSelfAppend<T, K>(xs: seq<T>, key: T -> K)
    ensures Unique(xs + xs, key) == Unique(xs, key)
  {
    UniqueAppendSeen(xs, xs, key);
  }

  /** A list whose keys are already distinct is left as it is. */
  lemma {:induction false} UniqueOfDistinct<T, K>(xs: seq<T>, key: T -> K)
    requires forall i, j :: 0 <= i < j < |xs| ==> key(xs[i]) != key(xs[j])
    ensures Unique(xs, key) == xs
  {
    if xs != [] {
      var p := xs[..|xs| - 1];
      UniqueOfDistinct(p, key);
      var x := xs[|xs| - 1];
      forall i | 0 <= i < |p| ensures key(p[i]) != key(x) {
        assert p[i] == xs[i];
      }
      assert key(x) !in KeySet(p, key);
      assert p + [x] == xs;
    }
  }

  /** Deduplication is idempotent. */
  lemma UniqueIdempotent<T, K>(xs: seq<T>, key: T -> K)
    ensures Unique(Unique(xs, key), key) == Unique(xs, key)
  {
    UniqueKeysDistinct(xs, key);
    UniqueOfDistinct(Unique(xs, key), key);
  }

  /** One more element survives exactly when its key is new. */
  lemma UniqueSnoc<T, K>(xs: seq<T>, x: T, key: T -> K)
    ensures Unique(xs + [x], key) == if key(x) in KeySet(Unique(xs, key), key) then Unique(xs, key) else Unique(xs, key) + [x]
  {
    assert (xs + [x])[..|xs|] == xs;
  }

  /** What follows a prefix is deduplicated against the prefix's survivors
      only, so prefixes with the same survivors lead to the same result. */
  lemma {:induction false} UniqueAppendCongruent<T, K>(a: seq<T>, a': seq<T>, b: seq<T>, key: T -> K)
    requires Unique(a, key) == Unique(a', key)
    ensures Unique(a + b, key) == Unique(a' + b, key)
  {
    if b == [] {
      assert a + b == a && a' + b == a';
    } else {
      var b' := b[..|b| - 1];
      UniqueAppendCongruent(a, a', b', key);
      assert (a + b)[..|a + b| - 1] == a + b';
      assert (a' + b)[..|a' + b| - 1] == a' + b';
      assert (a + b)[|a + b| - 1] == b[|b| - 1] == (a' + b)[|a' + b| - 1];
    }
  }

  /** Repeating the first part of a list changes nothing. */
  lemma UniqueRepeatFirst<T, K>(a: seq<T>, b: seq<T>, key: T -> K)
    ensures Unique(a + a + b, key) == Unique(a + b, key)
  {
    UniqueSelfAppend(a, key);
    UniqueAppendCongruent(a + a, a, b, key);
  }

  /** Repeating the last part of a list changes nothing. */
  lemma UniqueRepeatLast<T, K>(a: seq<T>, b: seq<T>, key: T -> K)
    ensures Unique(a + b + b, key) == Unique(a + b, key)
  {
    forall j | 0 <= j < |b| ensures key(b[j]) in KeySet(a + b, key) {
      assert (a + b)[|a| + j] == b[j];
    }
    UniqueAppendSeen(a + b, b, key);
  }

  /** The loop of the source: a `seen` set and the survivors so far. */
  method Deduplicate<T, K(==)>(xs: seq<T>, key: T -> K) returns (unique: seq<T>)
    ensures unique == Unique(xs, key)
  {
    var seen: set<K> := {};
    unique := [];
    for i := 0 to |xs|
      invariant unique == Unique(xs[..i], key)
      invariant seen == KeySet(unique, key)
    {
      assert xs[..i + 1][..i] == xs[..i];
      if key(xs[i]) !in seen {
        KeySetSnoc(unique, xs[i], key);
        seen := seen + {key(xs[i])};
        unique := unique + [xs[i]];
      }
    }
    assert xs[..|xs|] == xs;
  }
}
