/** From the host's mount table to the mounts of the inner container: GPUs and
    usrLibGPUs (xunix/gpu.go) and the loop that remaps their result and adds it to
    the mount list (cli/docker.go, lines 671-717). */
module GpuMounts {
  import opened GoText
  import opened GoPath
  import opened FiniteSets
  import opened Symlinks
  import opened Chains
  import opened LinkChain
  import opened AppendNew
  import opened Remap
  import opened MountList
  import opened LinkNames
  import opened Picking

  datatype MountPoint = MountPoint(device: string, path: string, opts: seq<string>)

  /** The three regular expressions, as predicates on paths. */
  datatype Matcher = Matcher(gpuMount: string -> bool, gpuExtra: string -> bool, sharedObject: string -> bool)

  /** One call of the function passed to afero.Walk. */
  datatype Visit = Visit(path: string, failed: bool)

  datatype GpuError = ListFailed | WalkFailed

  function ReadOnlyBind(path: string): MountPoint {
    MountPoint("", path, ["ro"])
  }

  predicate IsDevice(matcher: Matcher, m: MountPoint) {
    matcher.gpuMount(m.path) && HasPrefix(m.path, "/dev/")
  }

  predicate IsBind(matcher: Matcher, m: MountPoint) {
    matcher.gpuMount(m.path) && !HasPrefix(m.path, "/dev/")
  }

  // ----- Mounts and the symlinks beside them

  /** The bind of a link that leads to a GPU mount of the table. */
  ghost predicate IsLinkBind(fs: FileSystem, matcher: Matcher, mounts: seq<MountPoint>, b: MountPoint) {
    exists i :: 0 <= i < |mounts| && LinksTo(fs, matcher, mounts[i], b)
  }

  ghost predicate LinksTo(fs: FileSystem, matcher: Matcher, m: MountPoint, b: MountPoint) {
    && IsBind(matcher, m) && AllLinks(fs, m.path).Ok?
    && b == ReadOnlyBind(b.path)
    && b.path in SameDir(AllLinks(fs, m.path).value, m.path)
    && Reaches(SameDir(AllLinks(fs, m.path).value, m.path), m.path, b.path)
  }

  /** Nothing but GPU mounts outside /dev and links that lead to one of them. */
  ghost predicate OnlyGpuBinds(fs: FileSystem, matcher: Matcher, mounts: seq<MountPoint>, binds: seq<MountPoint>) {
    forall k :: 0 <= k < |binds| ==>
      (binds[k] in mounts && IsBind(matcher, binds[k])) || IsLinkBind(fs, matcher, mounts, binds[k])
  }

  /** A GPU mount and the links within ten hops of it are all there. */
  ghost predicate CoversMount(fs: FileSystem, m: MountPoint, binds: seq<MountPoint>) {
    && m in binds
    && (AllLinks(fs, m.path).Ok? ==>
          forall l :: l in Within(SameDir(AllLinks(fs, m.path).value, m.path), m.path, MAX_ITERATIONS) ==>
            ReadOnlyBind(l) in binds)
  }

  ghost predicate CoversAll(fs: FileSystem, matcher: Matcher, mounts: seq<MountPoint>, binds: seq<MountPoint>) {
    forall i :: 0 <= i < |mounts| && IsBind(matcher, mounts[i]) ==> CoversMount(fs, mounts[i], binds)
  }

  function Devices(matcher: Matcher, mounts: seq<MountPoint>): seq<string> {
    if mounts == [] then []
    else
      var m := mounts[|mounts| - 1];
      Devices(matcher, mounts[..|mounts| - 1]) + if IsDevice(matcher, m) then [m.path] else []
  }

  function MountPaths(mounts: seq<MountPoint>): (paths: seq<string>)
    ensures |paths| == |mounts| && forall i :: 0 <= i < |mounts| ==> paths[i] == mounts[i].path
  {
    seq(|mounts|, i requires 0 <= i < |mounts| => mounts[i].path)
  }

  /** The devices are the paths of the table that name a GPU and lie in /dev, in the
      order of the table. */
  ghost predicate AreDevices(matcher: Matcher, mounts: seq<MountPoint>, devices: seq<string>) {
    IsPick(MountPaths(mounts), (i, path) => matcher.gpuMount(path) && HasPrefix(path, "/dev/"), devices)
  }

  lemma {:induction false} DevicesArePicked(matcher: Matcher, mounts: seq<MountPoint>)
    ensures AreDevices(matcher, mounts, Devices(matcher, mounts))
  {
    var keep := (i: nat, path: string) => matcher.gpuMount(path) && HasPrefix(path, "/dev/");
    if mounts == [] {
      PickNothing(keep);
      assert MountPaths(mounts) == [];
    } else {
      var front, last := mounts[..|mounts| - 1], mounts[|mounts| - 1];
      DevicesArePicked(matcher, front);
      PickNext(MountPaths(front), last.path, keep, Devices(matcher, front));
      assert MountPaths(front) + [last.path] == MountPaths(mounts);
    }
  }

  lemma CoverageGrows(fs: FileSystem, m: MountPoint, binds: seq<MountPoint>, more: seq<MountPoint>)
    requires CoversMount(fs, m, binds)
    ensures CoversMount(fs, m, binds + more)
  {
  }

  lemma OnlyGpuBindsGrows(fs: FileSystem, matcher: Matcher, mounts: seq<MountPoint>, m: MountPoint,
                          binds: seq<MountPoint>)
    requires OnlyGpuBinds(fs, matcher, mounts, binds)
    ensures OnlyGpuBinds(fs, matcher, mounts + [m], binds)
  {
    forall k | 0 <= k < |binds| && IsLinkBind(fs, matcher, mounts, binds[k])
      ensures IsLinkBind(fs, matcher, mounts + [m], binds[k])
    {
      var i :| 0 <= i < |mounts| && LinksTo(fs, matcher, mounts[i], binds[k]);
      assert LinksTo(fs, matcher, (mounts + [m])[i], binds[k]);
    }
  }

  /** The binds for one GPU mount: the mount itself, then its links. */
  method BindsOf(fs: FileSystem, matcher: Matcher, m: MountPoint) returns (binds: seq<MountPoint>)
    requires IsBind(matcher, m)
    ensures CoversMount(fs, m, binds)
    ensures forall k :: 0 <= k < |binds| ==> binds[k] == m || LinksTo(fs, matcher, m, binds[k])
  {
    binds := [m];
    var found := SameDirSymlinks(fs, m.path);
    if found.Ok? {
      var links := found.value;
      for i := 0 to |links|
        invariant binds == [m] + Binds(links[..i])
      {
        assert Binds(links[..i + 1]) == Binds(links[..i]) + [ReadOnlyBind(links[i])];
        binds := binds + [ReadOnlyBind(links[i])];
      }
      assert links[..|links|] == links;
      LinksAreCovered(fs, m, links);
      LinksAreLinks(fs, matcher, m, links);
    }
  }

  lemma LinksAreCovered(fs: FileSystem, m: MountPoint, links: seq<string>)
    requires AllLinks(fs, m.path).Ok?
    requires Within(SameDir(AllLinks(fs, m.path).value, m.path), m.path, MAX_ITERATIONS) <= Elements(links)
    ensures CoversMount(fs, m, [m] + Binds(links))
  {
    forall l | l in Elements(links) ensures ReadOnlyBind(l) in [m] + Binds(links) {
      var k :| 0 <= k < |links| && links[k] == l;
      assert ([m] + Binds(links))[k + 1] == ReadOnlyBind(l);
    }
  }

  lemma LinksAreLinks(fs: FileSystem, matcher: Matcher, m: MountPoint, links: seq<string>)
    requires IsBind(matcher, m) && AllLinks(fs, m.path).Ok?
    requires Sound(SameDir(AllLinks(fs, m.path).value, m.path), m.path, links)
    ensures var binds := [m] + Binds(links);
      forall k :: 0 <= k < |binds| ==> binds[k] == m || LinksTo(fs, matcher, m, binds[k])
  {
    var binds := [m] + Binds(links);
    forall k | 0 <= k < |binds| ensures binds[k] == m || LinksTo(fs, matcher, m, binds[k]) {
      if k > 0 { assert links[k - 1] in links; }
    }
  }

  method ScanMounts(fs: FileSystem, matcher: Matcher, mounts: seq<MountPoint>)
    returns (devices: seq<string>, binds: seq<MountPoint>)
    ensures devices == Devices(matcher, mounts)
    ensures OnlyGpuBinds(fs, matcher, mounts, binds) && CoversAll(fs, matcher, mounts, binds)
  {
    devices, binds := [], [];
    for i := 0 to |mounts|
      invariant devices == Devices(matcher, mounts[..i])
      invariant OnlyGpuBinds(fs, matcher, mounts[..i], binds)
      invariant CoversAll(fs, matcher, mounts[..i], binds)
    {
      var m := mounts[i];
      assert mounts[..i + 1] == mounts[..i] + [m];
      OnlyGpuBindsGrows(fs, matcher, mounts[..i], m, binds);
      if matcher.gpuMount(m.path) {
        if HasPrefix(m.path, "/dev/") {
          devices := devices + [m.path];
          continue;
        }
        var own := BindsOf(fs, matcher, m);
        AddOwnBinds(fs, matcher, mounts[..i], m, binds, own);
        binds := binds + own;
      }
    }
    assert mounts[..|mounts|] == mounts;
  }

  lemma AddOwnBinds(fs: FileSystem, matcher: Matcher, mounts: seq<MountPoint>, m: MountPoint,
                    binds: seq<MountPoint>, own: seq<MountPoint>)
    requires OnlyGpuBinds(fs, matcher, mounts + [m], binds) && CoversAll(fs, matcher, mounts, binds)
    requires IsBind(matcher, m) && CoversMount(fs, m, own)
    requires forall k :: 0 <= k < |own| ==> own[k] == m || LinksTo(fs, matcher, m, own[k])
    ensures OnlyGpuBinds(fs, matcher, mounts + [m], binds + own)
    ensures CoversAll(fs, matcher, mounts + [m], binds + own)
  {
    assert (mounts + [m])[|mounts|] == m;
    forall i | 0 <= i < |mounts| && IsBind(matcher, mounts[i]) ensures CoversMount(fs, mounts[i], binds + own) {
      CoverageGrows(fs, mounts[i], binds, own);
    }
    forall k | 0 <= k < |own| && LinksTo(fs, matcher, m, own[k])
      ensures IsLinkBind(fs, matcher, mounts + [m], own[k])
    {
      assert LinksTo(fs, matcher, (mounts + [m])[|mounts|], own[k]);
    }
  }

  // ----- The scan of the host's usr/lib directory

  predicate IsGpuLibrary(matcher: Matcher, v: Visit) {
    !v.failed && matcher.gpuExtra(v.path) && matcher.sharedObject(v.path)
  }

  /** The chains of all matching libraries can be walked. */
  ghost predicate Walkable(fs: FileSystem, matcher: Matcher, usrLibDir: string, visits: seq<Visit>) {
    forall i :: 0 <= i < |visits| && IsGpuLibrary(matcher, visits[i]) ==>
      NeverRevisits(Next(fs, usrLibDir), visits[i].path)
  }

  /** What one visited path contributes: its whole chain, or nothing. */
  ghost function Contribution(fs: FileSystem, matcher: Matcher, usrLibDir: string, v: Visit): seq<string>
    requires IsGpuLibrary(matcher, v) ==> NeverRevisits(Next(fs, usrLibDir), v.path)
  {
    if !IsGpuLibrary(matcher, v) then []
    else
      LoopTerminatesIff(fs, usrLibDir, v.path);
      var r := Walk(fs, usrLibDir, v.path);
      if r.Ok? then r.value else []
  }

  ghost function Scanned(fs: FileSystem, matcher: Matcher, usrLibDir: string, visits: seq<Visit>): seq<string>
    requires Walkable(fs, matcher, usrLibDir, visits)
  {
    if visits == [] then []
    else
      var front := visits[..|visits| - 1];
      assert Walkable(fs, matcher, usrLibDir, front) by {
        forall i | 0 <= i < |front| && IsGpuLibrary(matcher, front[i])
          ensures NeverRevisits(Next(fs, usrLibDir), front[i].path)
        { assert front[i] == visits[i]; }
      }
      Scanned(fs, matcher, usrLibDir, front) + Contribution(fs, matcher, usrLibDir, visits[|visits| - 1])
  }

  lemma {:induction false} ScannedAre(fs: FileSystem, matcher: Matcher, usrLibDir: string, visits: seq<Visit>,
                                      i: nat, p: string)
    requires Walkable(fs, matcher, usrLibDir, visits) && i < |visits|
    requires IsGpuLibrary(matcher, visits[i]) && p in Contribution(fs, matcher, usrLibDir, visits[i])
    ensures p in Scanned(fs, matcher, usrLibDir, visits)
  {
    var front := visits[..|visits| - 1];
    WalkablePrefix(fs, matcher, usrLibDir, visits, |visits| - 1);
    if i < |front| {
      assert front[i] == visits[i];
      ScannedAre(fs, matcher, usrLibDir, front, i, p);
    }
  }

  /** The paths of the scan are those on the chains of the files whose name both
      patterns accept and that could be visited. */
  lemma {:induction false} ScannedComeFrom(fs: FileSystem, matcher: Matcher, usrLibDir: string, visits: seq<Visit>,
                                           p: string)
    returns (i: nat)
    requires Walkable(fs, matcher, usrLibDir, visits) && p in Scanned(fs, matcher, usrLibDir, visits)
    ensures i < |visits| && !visits[i].failed
    ensures matcher.gpuExtra(visits[i].path) && matcher.sharedObject(visits[i].path)
    ensures Terminates(Next(fs, usrLibDir), visits[i].path)
    ensures var r := Walk(fs, usrLibDir, visits[i].path); r.Ok? && p in r.value
  {
    var front, last := visits[..|visits| - 1], visits[|visits| - 1];
    WalkablePrefix(fs, matcher, usrLibDir, visits, |visits| - 1);
    if p in Scanned(fs, matcher, usrLibDir, front) {
      i := ScannedComeFrom(fs, matcher, usrLibDir, front, p);
    } else {
      i := |visits| - 1;
      assert p in Contribution(fs, matcher, usrLibDir, last);
      LoopTerminatesIff(fs, usrLibDir, last.path);
    }
  }

  /** A library that is reached under several names in one directory, such as
      libcuda.so, libcuda.so.1 and libcuda.so.535, is scanned under all of them if the
      walk visits the first. */
  lemma ScannedUnderAllNames(fs: FileSystem, matcher: Matcher, usrLibDir: string, visits: seq<Visit>, i: nat,
                             dir: string, names: seq<string>)
    requires Walkable(fs, matcher, usrLibDir, visits) && i < |visits| && !visits[i].failed
    requires matcher.gpuExtra(visits[i].path) && matcher.sharedObject(visits[i].path)
    requires IsClean(dir) && IsWalkable(fs, usrLibDir, dir, names) && visits[i].path == Under(dir, names[0])
    ensures forall k :: 0 <= k < |names| ==> Under(dir, names[k]) in Scanned(fs, matcher, usrLibDir, visits)
  {
    NamesAreWalked(fs, usrLibDir, dir, names);
    forall k | 0 <= k < |names| ensures Under(dir, names[k]) in Scanned(fs, matcher, usrLibDir, visits) {
      assert PathsOf(dir, names)[k] == Under(dir, names[k]);
      ScannedAre(fs, matcher, usrLibDir, visits, i, Under(dir, names[k]));
    }
  }

  method UsrLibGPUs(fs: FileSystem, matcher: Matcher, usrLibDir: string, visits: seq<Visit>)
    returns (r: Result<seq<MountPoint>, GpuError>)
    requires Walkable(fs, matcher, usrLibDir, visits)
    ensures r.Err? <==> Visit(usrLibDir, true) in visits
    ensures r.Err? ==> r.error == WalkFailed
    ensures r.Ok? ==> r.value == Binds(Scanned(fs, matcher, usrLibDir, visits))
  {
    var binds: seq<string> := [];
    for i := 0 to |visits|
      invariant Walkable(fs, matcher, usrLibDir, visits[..i])
      invariant binds == Scanned(fs, matcher, usrLibDir, visits[..i])
      invariant Visit(usrLibDir, true) !in visits[..i]
    {
      var v := visits[i];
      WalkablePrefix(fs, matcher, usrLibDir, visits, i + 1);
      assert visits[..i + 1][..i] == visits[..i];
      if v.path == usrLibDir && v.failed {
        return Err(WalkFailed);
      }
      if v.failed || !matcher.gpuExtra(v.path) || !matcher.sharedObject(v.path) {
        continue;
      }
      var paths := RecursiveSymlinks(fs, usrLibDir, v.path);
      if paths.Ok? {
        binds := binds + paths.value;
      }
    }
    assert visits[..|visits|] == visits;
    return Ok(Binds(binds));
  }

  lemma WalkablePrefix(fs: FileSystem, matcher: Matcher, usrLibDir: string, visits: seq<Visit>, n: nat)
    requires n <= |visits| && Walkable(fs, matcher, usrLibDir, visits)
    ensures Walkable(fs, matcher, usrLibDir, visits[..n])
  {
    forall i | 0 <= i < n && IsGpuLibrary(matcher, visits[..n][i])
      ensures NeverRevisits(Next(fs, usrLibDir), visits[..n][i].path)
    {
      assert visits[..n][i] == visits[i];
    }
  }

  // ----- Putting both together

  function BindKey(b: MountPoint): string {
    b.path
  }

  /** Line 41: devices, and binds in which the scanned libraries are added to the
      binds of the mount table unless their path is already there. */
  method GPUs(fs: FileSystem, matcher: Matcher, mountTable: Option<seq<MountPoint>>, usrLibDir: string,
              visits: seq<Visit>)
    returns (r: Result<(seq<string>, seq<MountPoint>), GpuError>, ghost fromMounts: seq<MountPoint>)
    requires Walkable(fs, matcher, usrLibDir, visits)
    ensures mountTable.None? ==> r == Err(ListFailed)
    ensures mountTable.Some? ==> (r.Err? <==> Visit(usrLibDir, true) in visits)
    ensures r.Ok? ==>
      && mountTable.Some?
      && r.value.0 == Devices(matcher, mountTable.value)
      && OnlyGpuBinds(fs, matcher, mountTable.value, fromMounts)
      && CoversAll(fs, matcher, mountTable.value, fromMounts)
      && var paths := Scanned(fs, matcher, usrLibDir, visits);
         r.value.1 == Appended(fromMounts, Binds(paths), BindKey)
  {
    fromMounts := [];
    if mountTable.None? {
      return Err(ListFailed), fromMounts;
    }
    var devices, binds := ScanMounts(fs, matcher, mountTable.value);
    fromMounts := binds;
    var extra := UsrLibGPUs(fs, matcher, usrLibDir, visits);
    if extra.Err? {
      return Err(extra.error), fromMounts;
    }
    binds := AppendUnique(binds, extra.value);
    return Ok((devices, binds)), fromMounts;
  }

  /** Lines 93-104. */
  method AppendUnique(binds0: seq<MountPoint>, gpus: seq<MountPoint>) returns (binds: seq<MountPoint>)
    ensures binds == Appended(binds0, gpus, BindKey)
  {
    binds := binds0;
    for i := 0 to |gpus|
      invariant binds == Appended(binds0, gpus[..i], BindKey)
    {
      assert gpus[..i + 1][..i] == gpus[..i];
      var duplicate := false;
      for j := 0 to |binds|
        invariant !duplicate
        invariant !Taken(binds[..j], BindKey, gpus[i].path)
      {
        if gpus[i].path == binds[j].path {
          assert BindKey(binds[j]) == gpus[i].path;
          duplicate := true;
          break;
        }
        TakenSnoc(binds[..j], binds[j], BindKey, gpus[i].path);
        assert binds[..j + 1] == binds[..j] + [binds[j]];
      }
      assert binds[..|binds|] == binds;
      assert duplicate <==> Taken(binds, BindKey, gpus[i].path);
      if !duplicate {
        binds := binds + [gpus[i]];
      }
    }
    assert gpus[..|gpus|] == gpus;
  }

  function Binds(paths: seq<string>): (binds: seq<MountPoint>)
    ensures |binds| == |paths|
    ensures forall i :: 0 <= i < |paths| ==> binds[i] == ReadOnlyBind(paths[i])
  {
    seq(|paths|, i requires 0 <= i < |paths| => ReadOnlyBind(paths[i]))
  }

  // ----- The inner container's mounts

  function MountKey(m: Mount): string {
    m.mountpoint
  }

  function InnerMount(hostDir: string, innerDir: string, b: MountPoint): Mount {
    Mount(b.path, Remapped(hostDir, innerDir, b.path), "ro" in b.opts)
  }

  function InnerMounts(hostDir: string, innerDir: string, binds: seq<MountPoint>): (mounts: seq<Mount>)
    ensures |mounts| == |binds|
    ensures forall i :: 0 <= i < |binds| ==> mounts[i] == InnerMount(hostDir, innerDir, binds[i])
  {
    seq(|binds|, i requires 0 <= i < |binds| => InnerMount(hostDir, innerDir, binds[i]))
  }

  /** The mount has the bind's path as its source, the remapped path as its mountpoint,
      and is read-only exactly if the bind's options say so. */
  predicate IsMountOf(m: Mount, b: MountPoint, hostDir: string, innerDir: string) {
    && m.source == b.path
    && m.mountpoint == Remapped(hostDir, innerDir, m.source)
    && (m.readOnly <==> "ro" in b.opts)
  }

  ghost predicate ComesFromBind(m: Mount, binds: seq<MountPoint>, hostDir: string, innerDir: string) {
    exists i :: 0 <= i < |binds| && IsMountOf(m, binds[i], hostDir, innerDir)
  }

  lemma AddedComeFromBinds(base: seq<Mount>, binds: seq<MountPoint>, hostDir: string, innerDir: string)
    ensures var mounts := Appended(base, InnerMounts(hostDir, innerDir, binds), MountKey);
      base <= mounts && forall k :: |base| <= k < |mounts| ==> ComesFromBind(mounts[k], binds, hostDir, innerDir)
  {
    var mounts := Appended(base, InnerMounts(hostDir, innerDir, binds), MountKey);
    FirstClaimantWins(base, binds, hostDir, innerDir);
    forall k | |base| <= k < |mounts| ensures ComesFromBind(mounts[k], binds, hostDir, innerDir) {
      var i :| 0 <= i < |binds| && mounts[k] == InnerMount(hostDir, innerDir, binds[i]);
      assert IsMountOf(mounts[k], binds[i], hostDir, innerDir);
    }
  }

  /** Lines 692-717 of cli/docker.go. */
  method AddBinds(base: seq<Mount>, binds: seq<MountPoint>, hostDir: string, innerDir: string)
    returns (mounts: seq<Mount>)
    ensures mounts == Appended(base, InnerMounts(hostDir, innerDir, binds), MountKey)
    ensures base <= mounts && forall k :: |base| <= k < |mounts| ==> ComesFromBind(mounts[k], binds, hostDir, innerDir)
  {
    AddedComeFromBinds(base, binds, hostDir, innerDir);
    mounts := base;
    ghost var all := InnerMounts(hostDir, innerDir, binds);
    for i := 0 to |binds|
      invariant mounts == Appended(base, all[..i], MountKey)
    {
      assert all[..i + 1][..i] == all[..i];
      var mountpoint := binds[i].path;
      if HasPrefix(mountpoint, hostDir) {
        mountpoint := JoinPath([innerDir, TrimPrefix(mountpoint, TrimSuffix(hostDir, "/"))]);
      }
      assert mountpoint == MountKey(all[i]);
      if exists k :: 0 <= k < |mounts| && mounts[k].mountpoint == mountpoint {
        assert Taken(mounts, MountKey, mountpoint);
        continue;
      }
      mounts := mounts + [Mount(binds[i].path, mountpoint, "ro" in binds[i].opts)];
    }
    assert all[..|binds|] == all;
  }

  /** A mountpoint of the inner container is served. */
  predicate Served(mounts: seq<Mount>, mountpoint: string) {
    Taken(mounts, MountKey, mountpoint)
  }

  /** What the user of a GPU workspace gets, from the mount table, the directory
      listings and the walk of usr/lib to the final mount list. */
  ghost predicate IsGpuMountList(fs: FileSystem, matcher: Matcher, table: seq<MountPoint>, visits: seq<Visit>,
                                 base: seq<Mount>, hostDir: string, innerDir: string, mounts: seq<Mount>)
    requires Walkable(fs, matcher, hostDir, visits)
  {
    // the base mounts are untouched, and distinct mountpoints stay distinct
    && base <= mounts
    && (DistinctKeys(base, MountKey) ==> DistinctKeys(mounts, MountKey))
    // every GPU mount outside /dev is served
    && (forall i :: 0 <= i < |table| && matcher.gpuMount(table[i].path) && !HasPrefix(table[i].path, "/dev/") ==>
          Served(mounts, Remapped(hostDir, innerDir, table[i].path)))
    // so is every symlink beside it that leads to it in at most ten hops
    && (forall i, l :: 0 <= i < |table| && IsNearLink(fs, matcher, table[i], l) ==>
          Served(mounts, Remapped(hostDir, innerDir, l)))
    // and every path on the chain of a GPU library
    && (forall p :: p in Scanned(fs, matcher, hostDir, visits) ==> Served(mounts, Remapped(hostDir, innerDir, p)))
    // and nothing else is added
    && (forall k :: |base| <= k < |mounts| ==> IsGpuMount(fs, matcher, table, visits, hostDir, innerDir, mounts[k]))
  }

  /** An added mount lies where its source is remapped to. It is a GPU mount of the
      table, read-only exactly if its own options say so, or it is read-only and a
      link that leads to one, or on the chain of a GPU library. */
  ghost predicate IsGpuMount(fs: FileSystem, matcher: Matcher, table: seq<MountPoint>, visits: seq<Visit>,
                             hostDir: string, innerDir: string, m: Mount)
    requires Walkable(fs, matcher, hostDir, visits)
  {
    && m.mountpoint == Remapped(hostDir, innerDir, m.source)
    && (IsTableMount(matcher, table, m)
        || (m.readOnly && IsLinkToGpu(fs, matcher, table, m.source))
        || (m.readOnly && m.source in Scanned(fs, matcher, hostDir, visits)))
  }

  ghost predicate IsTableMount(matcher: Matcher, table: seq<MountPoint>, m: Mount) {
    exists i :: 0 <= i < |table| && matcher.gpuMount(table[i].path) && !HasPrefix(table[i].path, "/dev/")
                && m.source == table[i].path && (m.readOnly <==> "ro" in table[i].opts)
  }

  ghost predicate IsLinkToGpu(fs: FileSystem, matcher: Matcher, table: seq<MountPoint>, path: string) {
    exists i :: 0 <= i < |table| && IsBind(matcher, table[i]) && AllLinks(fs, table[i].path).Ok?
                && Reaches(SameDir(AllLinks(fs, table[i].path).value, table[i].path), table[i].path, path)
  }

  lemma BindGivesGpuMount(fs: FileSystem, matcher: Matcher, table: seq<MountPoint>, visits: seq<Visit>,
                          hostDir: string, innerDir: string, b: MountPoint, m: Mount)
    requires Walkable(fs, matcher, hostDir, visits)
    requires IsGpuBind(fs, matcher, table, hostDir, visits, b) && IsMountOf(m, b, hostDir, innerDir)
    ensures IsGpuMount(fs, matcher, table, visits, hostDir, innerDir, m)
  {
    if b in table && IsBind(matcher, b) {
      var i :| 0 <= i < |table| && table[i] == b;
      assert IsTableMount(matcher, table, m);
    } else if IsLinkBind(fs, matcher, table, b) {
      var i :| 0 <= i < |table| && LinksTo(fs, matcher, table[i], b);
      assert IsLinkToGpu(fs, matcher, table, m.source);
    }
  }

  ghost predicate IsNearLink(fs: FileSystem, matcher: Matcher, m: MountPoint, l: string) {
    && IsBind(matcher, m) && AllLinks(fs, m.path).Ok?
    && l in Within(SameDir(AllLinks(fs, m.path).value, m.path), m.path, MAX_ITERATIONS)
  }

  ghost predicate IsGpuBind(fs: FileSystem, matcher: Matcher, table: seq<MountPoint>, hostDir: string,
                            visits: seq<Visit>, b: MountPoint)
    requires Walkable(fs, matcher, hostDir, visits)
  {
    || (b in table && IsBind(matcher, b))
    || IsLinkBind(fs, matcher, table, b)
    || (b == ReadOnlyBind(b.path) && b.path in Scanned(fs, matcher, hostDir, visits))
  }

  /** Lines 671-717: the GPU part of runDockerCVM. */
  method AddGpuMounts(fs: FileSystem, matcher: Matcher, mountTable: Option<seq<MountPoint>>, visits: seq<Visit>,
                      base: seq<Mount>, hostDir: string, innerDir: string)
    returns (r: Result<(seq<string>, seq<Mount>), GpuError>)
    requires Walkable(fs, matcher, hostDir, visits)
    ensures r.Err? <==> mountTable.None? || Visit(hostDir, true) in visits
    ensures r.Ok? ==>
      && AreDevices(matcher, mountTable.value, r.value.0)
      && IsGpuMountList(fs, matcher, mountTable.value, visits, base, hostDir, innerDir, r.value.1)
  {
    var gpus;
    ghost var fromMounts;
    gpus, fromMounts := GPUs(fs, matcher, mountTable, hostDir, visits);
    if gpus.Err? {
      return Err(gpus.error);
    }
    var mounts := AddBinds(base, gpus.value.1, hostDir, innerDir);
    GpuMountListFollows(fs, matcher, mountTable.value, visits, base, hostDir, innerDir, fromMounts);
    DevicesArePicked(matcher, mountTable.value);
    return Ok((gpus.value.0, mounts));
  }

  lemma BindIsServed(base: seq<Mount>, binds: seq<MountPoint>, hostDir: string, innerDir: string, path: string)
    requires Taken(binds, BindKey, path)
    ensures Served(Appended(base, InnerMounts(hostDir, innerDir, binds), MountKey), Remapped(hostDir, innerDir, path))
  {
    var i :| 0 <= i < |binds| && binds[i].path == path;
    EveryKeyHasAnEntry(base, InnerMounts(hostDir, innerDir, binds), MountKey, i);
  }

  lemma MemberIsTaken(binds: seq<MountPoint>, b: MountPoint)
    requires b in binds
    ensures Taken(binds, BindKey, b.path)
  {
    var i :| 0 <= i < |binds| && binds[i] == b;
    assert BindKey(binds[i]) == b.path;
  }

  lemma AppendedBindIsGpuBind(fs: FileSystem, matcher: Matcher, table: seq<MountPoint>, hostDir: string,
                              visits: seq<Visit>, fromMounts: seq<MountPoint>, b: MountPoint)
    requires Walkable(fs, matcher, hostDir, visits)
    requires OnlyGpuBinds(fs, matcher, table, fromMounts)
    requires b in Appended(fromMounts, Binds(Scanned(fs, matcher, hostDir, visits)), BindKey)
    ensures IsGpuBind(fs, matcher, table, hostDir, visits, b)
  {
    var extras := Binds(Scanned(fs, matcher, hostDir, visits));
    var binds := Appended(fromMounts, extras, BindKey);
    var idx := AppendedAreFirstClaimants(fromMounts, extras, BindKey);
    var k :| 0 <= k < |binds| && binds[k] == b;
    if k < |fromMounts| {
      assert binds[k] == fromMounts[k];
    } else {
      assert b == extras[idx[k - |fromMounts|]];
    }
  }

  /** Everything bound from the mount table or the scan is served. */
  lemma AllBindsAreServed(base: seq<Mount>, fromMounts: seq<MountPoint>, paths: seq<string>,
                          hostDir: string, innerDir: string)
    ensures
      var binds := Appended(fromMounts, Binds(paths), BindKey);
      var mounts := Appended(base, InnerMounts(hostDir, innerDir, binds), MountKey);
      && (forall b :: b in fromMounts ==> Served(mounts, Remapped(hostDir, innerDir, b.path)))
      && (forall p :: p in paths ==> Served(mounts, Remapped(hostDir, innerDir, p)))
  {
    var binds := Appended(fromMounts, Binds(paths), BindKey);
    var mounts := Appended(base, InnerMounts(hostDir, innerDir, binds), MountKey);
    forall p | Taken(fromMounts, BindKey, p) || Taken(Binds(paths), BindKey, p)
      ensures Served(mounts, Remapped(hostDir, innerDir, p))
    {
      TakenAfter(fromMounts, Binds(paths), BindKey, p);
      BindIsServed(base, binds, hostDir, innerDir, p);
    }
    forall b | b in fromMounts ensures Served(mounts, Remapped(hostDir, innerDir, b.path)) {
      MemberIsTaken(fromMounts, b);
    }
    forall p | p in paths ensures Served(mounts, Remapped(hostDir, innerDir, p)) {
      var i :| 0 <= i < |paths| && paths[i] == p;
      assert Binds(paths)[i] == ReadOnlyBind(p);
      MemberIsTaken(Binds(paths), ReadOnlyBind(p));
    }
  }

  /** The added mounts are exactly the remapped binds that are first to claim their
      mountpoint: no base mount and no earlier bind has it. */
  lemma FirstClaimantWins(base: seq<Mount>, binds: seq<MountPoint>, hostDir: string, innerDir: string)
    ensures
      var inner := InnerMounts(hostDir, innerDir, binds);
      var mounts := Appended(base, inner, MountKey);
      && base <= mounts
      && (forall k :: |base| <= k < |mounts| ==>
            exists i :: 0 <= i < |binds| && FirstClaimant(base, inner, MountKey, i)
                        && mounts[k] == InnerMount(hostDir, innerDir, binds[i]))
      && (forall i :: 0 <= i < |binds| && FirstClaimant(base, inner, MountKey, i) ==>
            InnerMount(hostDir, innerDir, binds[i]) in mounts)
  {
    var inner := InnerMounts(hostDir, innerDir, binds);
    var mounts := Appended(base, inner, MountKey);
    var idx := AppendedAreFirstClaimants(base, inner, MountKey);
    forall k | |base| <= k < |mounts|
      ensures exists i :: 0 <= i < |binds| && FirstClaimant(base, inner, MountKey, i)
                          && mounts[k] == InnerMount(hostDir, innerDir, binds[i])
    {
      assert mounts[k] == inner[idx[k - |base|]];
    }
    forall i | 0 <= i < |binds| && FirstClaimant(base, inner, MountKey, i)
      ensures InnerMount(hostDir, innerDir, binds[i]) in mounts
    {
      var a :| 0 <= a < |idx| && idx[a] == i;
      assert mounts[|base| + a] == inner[i];
    }
  }

  lemma AddedMountsAreGpuBinds(fs: FileSystem, matcher: Matcher, table: seq<MountPoint>, visits: seq<Visit>,
                               base: seq<Mount>, hostDir: string, innerDir: string, fromMounts: seq<MountPoint>)
    requires Walkable(fs, matcher, hostDir, visits)
    requires OnlyGpuBinds(fs, matcher, table, fromMounts)
    ensures
      var binds := Appended(fromMounts, Binds(Scanned(fs, matcher, hostDir, visits)), BindKey);
      var mounts := Appended(base, InnerMounts(hostDir, innerDir, binds), MountKey);
      forall k :: |base| <= k < |mounts| ==> IsGpuMount(fs, matcher, table, visits, hostDir, innerDir, mounts[k])
  {
    var binds := Appended(fromMounts, Binds(Scanned(fs, matcher, hostDir, visits)), BindKey);
    var mounts := Appended(base, InnerMounts(hostDir, innerDir, binds), MountKey);
    FirstClaimantWins(base, binds, hostDir, innerDir);
    forall k | |base| <= k < |mounts|
      ensures IsGpuMount(fs, matcher, table, visits, hostDir, innerDir, mounts[k])
    {
      var i :| 0 <= i < |binds| && mounts[k] == InnerMount(hostDir, innerDir, binds[i]);
      AppendedBindIsGpuBind(fs, matcher, table, hostDir, visits, fromMounts, binds[i]);
      BindGivesGpuMount(fs, matcher, table, visits, hostDir, innerDir, binds[i], mounts[k]);
    }
  }

  lemma GpuMountListFollows(fs: FileSystem, matcher: Matcher, table: seq<MountPoint>, visits: seq<Visit>,
                            base: seq<Mount>, hostDir: string, innerDir: string, fromMounts: seq<MountPoint>)
    requires Walkable(fs, matcher, hostDir, visits)
    requires OnlyGpuBinds(fs, matcher, table, fromMounts) && CoversAll(fs, matcher, table, fromMounts)
    ensures
      var binds := Appended(fromMounts, Binds(Scanned(fs, matcher, hostDir, visits)), BindKey);
      IsGpuMountList(fs, matcher, table, visits, base, hostDir, innerDir,
                     Appended(base, InnerMounts(hostDir, innerDir, binds), MountKey))
  {
    var paths := Scanned(fs, matcher, hostDir, visits);
    var inner := InnerMounts(hostDir, innerDir, Appended(fromMounts, Binds(paths), BindKey));
    var mounts := Appended(base, inner, MountKey);
    AppendedDistinct(base, inner, MountKey);
    AllBindsAreServed(base, fromMounts, paths, hostDir, innerDir);
    AddedMountsAreGpuBinds(fs, matcher, table, visits, base, hostDir, innerDir, fromMounts);
    forall i, l | 0 <= i < |table| && IsNearLink(fs, matcher, table[i], l)
      ensures Served(mounts, Remapped(hostDir, innerDir, l))
    {
      assert CoversMount(fs, table[i], fromMounts);
      assert ReadOnlyBind(l) in fromMounts;
    }
  }
}
