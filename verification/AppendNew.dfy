/** The loop that xunix/gpu.go and cli/docker.go both run: append each item unless
    its key is already taken. */
module AppendNew {

  predicate Taken<X>(xs: seq<X>, key: X -> string, k: string) {
    exists i :: 0 <= i < |xs| && key(xs[i]) == k
  }

  function Appended<X>(base: seq<X>, items: seq<X>, key: X -> string): seq<X> {
    if items == [] then base
    else
      var before := Appended(base, items[..|items| - 1], key);
      var item := items[|items| - 1];
      if Taken(before, key, key(item)) then before else before + [item]
  }

  /** Item i is the first claimant of its key: nothing in the base and no earlier
      item has it. */
  ghost predicate FirstClaimant<X>(base: seq<X>, items: seq<X>, key: X -> string, i: nat)
    requires i < |items|
  {
    && !Taken(base, key, key(items[i]))
    && forall j :: 0 <= j < i ==> key(items[j]) != key(items[i])
  }

  ghost predicate Increasing(idx: seq<nat>) {
    forall a, b :: 0 <= a < b < |idx| ==> idx[a] < idx[b]
  }

  /** idx lists exactly the first claimants among the first n items, in order. */
  ghost predicate ListsClaimants<X>(base: seq<X>, items: seq<X>, key: X -> string, n: nat, idx: seq<nat>)
    requires n <= |items|
  {
    && Increasing(idx)
    && (forall a :: 0 <= a < |idx| ==> idx[a] < n && FirstClaimant(base, items, key, idx[a]))
    && (forall i :: 0 <= i < n && FirstClaimant(base, items, key, i) ==> i in idx)
  }

  /** The keys taken after the loop are those of the base and of the items. */
  lemma {:induction false} TakenAfter<X>(base: seq<X>, items: seq<X>, key: X -> string, k: string)
    ensures Taken(Appended(base, items, key), key, k) <==> Taken(base, key, k) || Taken(items, key, k)
  {
    if items != [] {
      var front, item := items[..|items| - 1], items[|items| - 1];
      var before := Appended(base, front, key);
      TakenAfter(base, front, key, k);
      TakenAfter(base, front, key, key(item));
      TakenSnoc(before, item, key, k);
      TakenSnoc(front, item, key, k);
      assert items == front + [item];
    }
  }

  lemma TakenSnoc<X>(xs: seq<X>, x: X, key: X -> string, k: string)
    ensures Taken(xs + [x], key, k) <==> Taken(xs, key, k) || key(x) == k
  {
    if i :| 0 <= i < |xs| && key(xs[i]) == k {
      assert key((xs + [x])[i]) == k;
    }
    assert (xs + [x])[|xs|] == x;
    if i :| 0 <= i < |xs + [x]| && key((xs + [x])[i]) == k {
      if i < |xs| { assert key(xs[i]) == k; }
    }
  }

  /** The base stays in front, and behind it come exactly the first claimants, in
      the order of the items. */
  lemma {:induction false} AppendedAreFirstClaimants<X>(base: seq<X>, items: seq<X>, key: X -> string)
    returns (idx: seq<nat>)
    ensures ListsClaimants(base, items, key, |items|, idx)
    ensures |Appended(base, items, key)| == |base| + |idx|
    ensures base <= Appended(base, items, key)
    ensures forall a :: 0 <= a < |idx| ==> Appended(base, items, key)[|base| + a] == items[idx[a]]
  {
    if items == [] {
      return [];
    }
    var n := |items| - 1;
    var front, item := items[..n], items[n];
    var before := Appended(base, front, key);
    var idx0 := AppendedAreFirstClaimants(base, front, key);
    forall i | 0 <= i < n
      ensures FirstClaimant(base, items, key, i) <==> FirstClaimant(base, front, key, i)
    {
    }
    TakenAfter(base, front, key, key(item));
    assert Taken(front, key, key(item)) <==> exists j :: 0 <= j < n && key(items[j]) == key(items[n]) by {
      if j :| 0 <= j < n && key(items[j]) == key(items[n]) { assert key(front[j]) == key(item); }
    }
    assert Taken(before, key, key(item)) <==> !FirstClaimant(base, items, key, n);
    if Taken(before, key, key(item)) {
      idx := idx0;
    } else {
      idx := idx0 + [n];
      forall i | 0 <= i < |items| && FirstClaimant(base, items, key, i) ensures i in idx {
        if i == n { assert idx[|idx0|] == n; } else { assert i in idx0; }
      }
    }
  }

  ghost predicate DistinctKeys<X>(xs: seq<X>, key: X -> string) {
    forall i, j :: 0 <= i < j < |xs| ==> key(xs[i]) != key(xs[j])
  }

  /** Keys that were pairwise distinct in the base are pairwise distinct afterwards;
      the appended part is always pairwise distinct and new. */
  lemma AppendedDistinct<X>(base: seq<X>, items: seq<X>, key: X -> string)
    ensures base <= Appended(base, items, key)
    ensures DistinctKeys(Appended(base, items, key)[|base|..], key)
    ensures forall i, j :: 0 <= i < |base| <= j < |Appended(base, items, key)| ==>
      key(base[i]) != key(Appended(base, items, key)[j])
    ensures DistinctKeys(base, key) ==> DistinctKeys(Appended(base, items, key), key)
  {
    var r := Appended(base, items, key);
    var idx := AppendedAreFirstClaimants(base, items, key);
    forall i, j | |base| <= i < j < |r| ensures key(r[i]) != key(r[j]) {
      var a, b := i - |base|, j - |base|;
      assert r[|base| + a] == items[idx[a]] && r[|base| + b] == items[idx[b]];
      assert idx[a] < idx[b] && FirstClaimant(base, items, key, idx[b]);
    }
    forall i, j | 0 <= i < |base| <= j < |r| ensures key(base[i]) != key(r[j]) {
      var b := j - |base|;
      assert r[|base| + b] == items[idx[b]] && FirstClaimant(base, items, key, idx[b]);
    }
  }

  /** Every item's key has an entry. */
  lemma EveryKeyHasAnEntry<X>(base: seq<X>, items: seq<X>, key: X -> string, i: nat)
    requires i < |items|
    ensures Taken(Appended(base, items, key), key, key(items[i]))
  {
    TakenAfter(base, items, key, key(items[i]));
  }
}
