/** xunix/gpu.go, TryUnmountProcGPUDrivers: unmount the GPU mounts under /proc,
    deepest paths first. */
module ProcUnmount {
  import opened GoText
  import opened GpuMounts
  import opened Picking

  function Depth(m: MountPoint): nat {
    Count(m.path, '/')
  }

  predicate DeepestFirst(mounts: seq<MountPoint>) {
    forall i, j :: 0 <= i < j < |mounts| ==> Depth(mounts[i]) >= Depth(mounts[j])
  }

  /** No mount of the list lies deeper than the one at k. */
  predicate IsDeepest(mounts: seq<MountPoint>, k: nat) {
    k < |mounts| && forall i :: 0 <= i < |mounts| ==> Depth(mounts[i]) <= Depth(mounts[k])
  }

  lemma {:induction false} SomeDeepest(mounts: seq<MountPoint>)
    requires mounts != []
    ensures exists k: nat :: k < |mounts| && IsDeepest(mounts, k)
  {
    var last := |mounts| - 1;
    if last == 0 {
      assert IsDeepest(mounts, 0);
    } else {
      SomeDeepest(mounts[..last]);
      var k: nat :| k < |mounts[..last]| && IsDeepest(mounts[..last], k);
      assert forall i :: 0 <= i < last ==> mounts[..last][i] == mounts[i];
      assert IsDeepest(mounts, if Depth(mounts[k]) >= Depth(mounts[last]) then k else last);
    }
  }

  /** All mounts of the one list lie at least as deep as all of the other. */
  predicate AllDeeper(above: seq<MountPoint>, below: seq<MountPoint>) {
    forall i, j :: 0 <= i < |above| && 0 <= j < |below| ==> Depth(above[i]) >= Depth(below[j])
  }

  /** sort.Slice with "more slashes is less": some permutation with the deepest
      paths first. Equal depths may come in any order (the sort is not stable), so
      which of the deepest remaining mounts comes next is left open. */
  method SortSlice(mounts: seq<MountPoint>) returns (sorted: seq<MountPoint>)
    ensures multiset(sorted) == multiset(mounts) && DeepestFirst(sorted)
    ensures forall i, j :: 0 <= i < j < |sorted| ==> Count(sorted[i].path, '/') >= Count(sorted[j].path, '/')
  {
    sorted := [];
    var rest := mounts;
    while rest != []
      invariant multiset(sorted) + multiset(rest) == multiset(mounts)
      invariant DeepestFirst(sorted) && AllDeeper(sorted, rest)
      decreases |rest|
    {
      SomeDeepest(rest);
      var k: nat :| k < |rest| && IsDeepest(rest, k);
      MoveDeepest(sorted, rest, k);
      sorted, rest := sorted + [rest[k]], rest[..k] + rest[k + 1..];
    }
  }

  lemma MoveDeepest(sorted: seq<MountPoint>, rest: seq<MountPoint>, k: nat)
    requires DeepestFirst(sorted) && AllDeeper(sorted, rest) && IsDeepest(rest, k)
    ensures DeepestFirst(sorted + [rest[k]])
    ensures AllDeeper(sorted + [rest[k]], rest[..k] + rest[k + 1..])
    ensures multiset(sorted + [rest[k]]) + multiset(rest[..k] + rest[k + 1..]) == multiset(sorted) + multiset(rest)
  {
    assert rest == rest[..k] + [rest[k]] + rest[k + 1..];
  }

  predicate IsProcGpu(gpuMount: string -> bool, m: MountPoint) {
    HasPrefix(m.path, "/proc/") && gpuMount(m.path)
  }

  function Selected(gpuMount: string -> bool, mounts: seq<MountPoint>): seq<MountPoint> {
    if mounts == [] then []
    else
      var m := mounts[|mounts| - 1];
      Selected(gpuMount, mounts[..|mounts| - 1]) + if IsProcGpu(gpuMount, m) then [m] else []
  }

  /** The attempts whose unmount succeeded, in order; attempt k succeeds if ok(k). */
  function Successful(attempts: seq<MountPoint>, ok: nat -> bool): seq<MountPoint> {
    if attempts == [] then []
    else
      var last := |attempts| - 1;
      Successful(attempts[..last], ok) + if ok(last) then [attempts[last]] else []
  }

  /** They are exactly the attempts at the positions that succeed. */
  lemma {:induction false} SuccessfulArePicked(attempts: seq<MountPoint>, ok: nat -> bool)
    ensures IsPick(attempts, (i, m) => ok(i), Successful(attempts, ok))
  {
    if attempts == [] {
      PickNothing((i: nat, m: MountPoint) => ok(i));
    } else {
      var front, last := attempts[..|attempts| - 1], attempts[|attempts| - 1];
      SuccessfulArePicked(front, ok);
      PickNext(front, last, (i, m) => ok(i), Successful(front, ok));
      assert front + [last] == attempts;
    }
  }

  predicate ProperAncestor(a: MountPoint, d: MountPoint) {
    HasPrefix(d.path, a.path + "/")
  }

  lemma AncestorsAreShallower(a: MountPoint, d: MountPoint)
    requires ProperAncestor(a, d)
    ensures Depth(d) > Depth(a)
  {
    var rest := d.path[|a.path| + 1..];
    assert d.path == (a.path + "/") + rest;
    CountConcat(a.path + "/", rest, '/');
    CountConcat(a.path, "/", '/');
    assert Count("/", '/') == 1 + Count("", '/');
  }

  /** Selecting keeps exactly the occurrences of the /proc GPU mounts ... */
  lemma {:induction false} SelectedCounts(gpuMount: string -> bool, mounts: seq<MountPoint>, m: MountPoint)
    ensures multiset(Selected(gpuMount, mounts))[m] == if IsProcGpu(gpuMount, m) then multiset(mounts)[m] else 0
  {
    if mounts != [] {
      var front, last := mounts[..|mounts| - 1], mounts[|mounts| - 1];
      SelectedCounts(gpuMount, front, m);
      assert mounts == front + [last];
    }
  }

  /** ... and their order. */
  lemma {:induction false} SelectedDeepestFirst(gpuMount: string -> bool, mounts: seq<MountPoint>)
    requires DeepestFirst(mounts)
    ensures DeepestFirst(Selected(gpuMount, mounts))
    ensures forall d: nat :: AtLeast(mounts, d) ==> AtLeast(Selected(gpuMount, mounts), d)
  {
    if mounts != [] {
      var front, last := mounts[..|mounts| - 1], mounts[|mounts| - 1];
      SelectedDeepestFirst(gpuMount, front);
      assert AtLeast(front, Depth(last));
      forall d: nat | AtLeast(mounts, d) ensures AtLeast(Selected(gpuMount, mounts), d) {
        assert AtLeast(front, d);
        assert mounts[|mounts| - 1] == last;
      }
    }
  }

  predicate AtLeast(mounts: seq<MountPoint>, d: nat) {
    forall i :: 0 <= i < |mounts| ==> Depth(mounts[i]) >= d
  }

  /** A mount is attempted before each of its proper ancestors. */
  ghost predicate DescendantsFirst(attempts: seq<MountPoint>) {
    forall i, j :: 0 <= i < |attempts| && 0 <= j < |attempts| && ProperAncestor(attempts[i], attempts[j]) ==> j < i
  }

  lemma DeepestFirstIsDescendantsFirst(attempts: seq<MountPoint>)
    requires DeepestFirst(attempts)
    ensures DescendantsFirst(attempts)
  {
    forall i, j | 0 <= i < |attempts| && 0 <= j < |attempts| && ProperAncestor(attempts[i], attempts[j])
      ensures j < i
    {
      AncestorsAreShallower(attempts[i], attempts[j]);
    }
  }

  lemma SelectedAttempts(gpuMount: string -> bool, mounts: seq<MountPoint>)
    requires DeepestFirst(mounts)
    ensures var attempts := Selected(gpuMount, mounts);
      && DeepestFirst(attempts) && DescendantsFirst(attempts)
      && forall m :: multiset(attempts)[m] == if IsProcGpu(gpuMount, m) then multiset(mounts)[m] else 0
  {
    SelectedDeepestFirst(gpuMount, mounts);
    DeepestFirstIsDescendantsFirst(Selected(gpuMount, mounts));
    var attempts := Selected(gpuMount, mounts);
    forall m ensures multiset(attempts)[m] == if IsProcGpu(gpuMount, m) then multiset(mounts)[m] else 0 {
      SelectedCounts(gpuMount, mounts, m);
    }
  }

  /** Attempts every GPU mount under /proc exactly as often as it is listed, whatever
      attempts fail, descendants before ancestors; returns the successful ones. */
  method TryUnmountProcGPUDrivers(mountTable: Option<seq<MountPoint>>, gpuMount: string -> bool, ok: nat -> bool)
    returns (drivers: Option<seq<MountPoint>>, attempts: seq<MountPoint>)
    ensures drivers.None? <==> mountTable.None?
    ensures drivers.None? ==> attempts == []
    ensures forall i, j :: 0 <= i < j < |attempts| ==> Count(attempts[i].path, '/') >= Count(attempts[j].path, '/')
    ensures DescendantsFirst(attempts)
    ensures mountTable.Some? ==>
      && (forall m :: multiset(attempts)[m] ==
            if HasPrefix(m.path, "/proc/") && gpuMount(m.path) then multiset(mountTable.value)[m] else 0)
      && IsPick(attempts, (i, m) => ok(i), drivers.value)
  {
    if mountTable.None? {
      return None, [];
    }
    var mounts := SortSlice(mountTable.value);
    var done: seq<MountPoint> := [];
    attempts := [];
    for i := 0 to |mounts|
      invariant attempts == Selected(gpuMount, mounts[..i])
      invariant done == Successful(attempts, ok)
    {
      assert mounts[..i + 1][..i] == mounts[..i];
      if HasPrefix(mounts[i].path, "/proc/") && gpuMount(mounts[i].path) {
        var success := ok(|attempts|);
        assert (attempts + [mounts[i]])[..|attempts|] == attempts;
        attempts := attempts + [mounts[i]];
        if !success {
          continue;
        }
        done := done + [mounts[i]];
      }
    }
    assert mounts[..|mounts|] == mounts;
    SelectedAttempts(gpuMount, mounts);
    SuccessfulArePicked(attempts, ok);
    return Some(done), attempts;
  }
}
