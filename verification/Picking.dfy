/** Loops that keep some elements of a list, in order. */
module Picking {
  import opened AppendNew

  /** ys holds the elements of xs at exactly the kept positions, in order; idx are
      the positions. */
  ghost predicate PicksAt<X>(xs: seq<X>, keep: (nat, X) -> bool, ys: seq<X>, idx: seq<nat>) {
    && Increasing(idx) && |ys| == |idx|
    && (forall a :: 0 <= a < |idx| ==> idx[a] < |xs| && keep(idx[a], xs[idx[a]]) && ys[a] == xs[idx[a]])
    && (forall i :: 0 <= i < |xs| && keep(i, xs[i]) ==> i in idx)
  }

  ghost predicate IsPick<X>(xs: seq<X>, keep: (nat, X) -> bool, ys: seq<X>) {
    exists idx :: PicksAt(xs, keep, ys, idx)
  }

  lemma PickNothing<X>(keep: (nat, X) -> bool)
    ensures IsPick([], keep, [])
  {
    assert PicksAt([], keep, [], []);
  }

  lemma PickNext<X>(xs: seq<X>, x: X, keep: (nat, X) -> bool, ys: seq<X>)
    requires IsPick(xs, keep, ys)
    ensures IsPick(xs + [x], keep, ys + if keep(|xs|, x) then [x] else [])
  {
    var idx: seq<nat> :| PicksAt(xs, keep, ys, idx);
    if keep(|xs|, x) {
      KeepOne(xs, x, keep, ys, idx);
    } else {
      DropOne(xs, x, keep, ys, idx);
      assert ys + [] == ys;
    }
  }

  lemma KeepOne<X>(xs: seq<X>, x: X, keep: (nat, X) -> bool, ys: seq<X>, idx: seq<nat>)
    requires PicksAt(xs, keep, ys, idx) && keep(|xs|, x)
    ensures PicksAt(xs + [x], keep, ys + [x], idx + [|xs|])
  {
    var all, more := xs + [x], idx + [|xs|];
    forall i | 0 <= i < |all| && keep(i, all[i]) ensures i in more {
      if i == |xs| { assert more[|idx|] == i; } else { assert xs[i] == all[i] && i in idx; }
    }
  }

  lemma DropOne<X>(xs: seq<X>, x: X, keep: (nat, X) -> bool, ys: seq<X>, idx: seq<nat>)
    requires PicksAt(xs, keep, ys, idx) && !keep(|xs|, x)
    ensures PicksAt(xs + [x], keep, ys, idx)
  {
    var all := xs + [x];
    forall i | 0 <= i < |all| && keep(i, all[i]) ensures i in idx {
      assert i < |xs| && xs[i] == all[i];
    }
  }
}
