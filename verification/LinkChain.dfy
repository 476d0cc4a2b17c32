/** xunix/gpu.go, recursiveSymlinks: the chain of symlinks that starts at a path,
    followed without any bound on its length. */
module LinkChain {
  import opened GoText
  import opened GoPath
  import opened Symlinks
  import opened Chains
  import opened FiniteSets

  /** What one turn of the loop does with a path. */
  datatype Hop =
    | Outside                    // the path is not below the mountpoint
    | Failed(error: FsError)     // LStat or Readlink returned an error
    | End                        // not a symlink, or a symlink with an empty target
    | To(next: string)           // the resolved target

  function WithSlash(mountpoint: string): string {
    if HasSuffix(mountpoint, "/") then mountpoint else mountpoint + "/"
  }

  predicate Below(mountpoint: string, path: string) {
    HasPrefix(path, WithSlash(mountpoint))
  }

  function Resolve(path: string, link: string): string {
    if IsAbs(link) then link else JoinPath([Dir(path), link])
  }

  function HopFrom(fs: FileSystem, mountpoint: string, path: string): Hop {
    if !Below(mountpoint, path) then Outside
    else if path !in fs.isLink then Failed(LStatFailed(path))
    else if !fs.isLink[path] then End
    else if path !in fs.readlink then Failed(ReadlinkFailed(path))
    else if fs.readlink[path] == "" then End
    else To(Resolve(path, fs.readlink[path]))
  }

  /** One hop of the walk as a partial function; it is defined only on symlinks
      that can be read. */
  ghost function Next(fs: FileSystem, mountpoint: string): (step: StepFn)
    ensures forall p :: step(p).Some? ==> p in fs.readlink.Keys
  {
    p => if HopFrom(fs, mountpoint, p).To? then Some(HopFrom(fs, mountpoint, p).next) else None
  }

  /** The loop terminates on a path if and only if its chain never comes back to a
      path it has already visited. */
  lemma LoopTerminatesIff(fs: FileSystem, mountpoint: string, path: string)
    ensures Terminates(Next(fs, mountpoint), path) <==> NeverRevisits(Next(fs, mountpoint), path)
  {
    TerminatesIffNeverRevisits(Next(fs, mountpoint), fs.readlink.Keys, path);
  }

  /** A directory with a single symlink, which points to itself. */
  function SelfLink(p: string): FileSystem {
    FileSystem(map[], map[p := true], map[p := p])
  }

  /** Such a link below the mountpoint is enough for the loop to go on forever. */
  lemma SelfLinkLoops(mountpoint: string, p: string)
    requires Below(mountpoint, p) && IsAbs(p)
    ensures !NeverRevisits(Next(SelfLink(p), mountpoint), p)
    ensures !Terminates(Next(SelfLink(p), mountpoint), p)
  {
    var step := Next(SelfLink(p), mountpoint);
    assert ChainAt(step, p, 0) == Some(p) && ChainAt(step, p, 1) == Some(p);
    LoopTerminatesIff(SelfLink(p), mountpoint, p);
  }

  lemma SelfLinkInUsrLib()
    ensures !Terminates(Next(SelfLink("/usr/lib/libcuda.so"), "/usr/lib"), "/usr/lib/libcuda.so")
  {
    SelfLinkLoops("/usr/lib", "/usr/lib/libcuda.so");
  }

  // ----- The result

  /** What a walk that stops after n hops returns. */
  ghost function ResultAt(fs: FileSystem, mountpoint: string, path: string, n: nat): Result<seq<string>, FsError>
    requires StopsAt(Next(fs, mountpoint), path, n)
  {
    match HopFrom(fs, mountpoint, ChainAt(Next(fs, mountpoint), path, n).value)
    case Outside => Ok([])
    case Failed(e) => Err(e)
    case End => Ok(FirstOf(Next(fs, mountpoint), path, n + 1))
  }

  /** The one result of a terminating walk. */
  ghost function Walk(fs: FileSystem, mountpoint: string, path: string): Result<seq<string>, FsError>
    requires Terminates(Next(fs, mountpoint), path)
  {
    var n: nat :| StopsAt(Next(fs, mountpoint), path, n);
    ResultAt(fs, mountpoint, path, n)
  }

  lemma WalkIsResultAt(fs: FileSystem, mountpoint: string, path: string, n: nat)
    requires StopsAt(Next(fs, mountpoint), path, n)
    ensures Walk(fs, mountpoint, path) == ResultAt(fs, mountpoint, path, n)
  {
    var m: nat :| StopsAt(Next(fs, mountpoint), path, m)
      && Walk(fs, mountpoint, path) == ResultAt(fs, mountpoint, path, m);
    StopIsUnique(Next(fs, mountpoint), path, m, n);
  }

  /** A genuine chain starts at the path, never repeats, stays below the mountpoint,
      follows resolved targets and ends at something that is not a link with a
      target. */
  ghost predicate IsChain(fs: FileSystem, mountpoint: string, path: string, paths: seq<string>) {
    && paths != [] && paths[0] == path
    && NoDuplicates(paths)
    && (forall i :: 0 <= i < |paths| ==> Below(mountpoint, paths[i]))
    && (forall i :: 0 <= i < |paths| - 1 ==> IsLinkTo(fs, paths[i], paths[i + 1]))
    && var last := paths[|paths| - 1];
       && last in fs.isLink
       && (fs.isLink[last] ==> last in fs.readlink && fs.readlink[last] == "")
  }

  predicate IsLinkTo(fs: FileSystem, path: string, next: string) {
    && path in fs.isLink && fs.isLink[path]
    && path in fs.readlink && fs.readlink[path] != ""
    && next == Resolve(path, fs.readlink[path])
  }

  /** A walk that succeeds with some paths has found a genuine chain. */
  lemma SuccessIsChain(fs: FileSystem, mountpoint: string, path: string)
    requires Terminates(Next(fs, mountpoint), path)
    requires Walk(fs, mountpoint, path).Ok? && Walk(fs, mountpoint, path).value != []
    ensures IsChain(fs, mountpoint, path, Walk(fs, mountpoint, path).value)
  {
    var step := Next(fs, mountpoint);
    LoopTerminatesIff(fs, mountpoint, path);
    var n: nat :| StopsAt(step, path, n);
    WalkIsResultAt(fs, mountpoint, path, n);
    StoppedChain(step, path, n);
    var paths := FirstOf(step, path, n + 1);
    EndHop(fs, mountpoint, paths[n]);
    forall i | 0 <= i < n ensures Below(mountpoint, paths[i]) && IsLinkTo(fs, paths[i], paths[i + 1]) {
      LinkHop(fs, mountpoint, paths[i], paths[i + 1]);
    }
  }

  lemma LinkHop(fs: FileSystem, mountpoint: string, p: string, q: string)
    requires Next(fs, mountpoint)(p) == Some(q)
    ensures Below(mountpoint, p) && IsLinkTo(fs, p, q)
  {
  }

  lemma EndHop(fs: FileSystem, mountpoint: string, p: string)
    requires HopFrom(fs, mountpoint, p).End?
    ensures Below(mountpoint, p) && p in fs.isLink
    ensures fs.isLink[p] ==> p in fs.readlink && fs.readlink[p] == ""
  {
  }

  /** Some path of the chain lies outside the mountpoint. */
  ghost predicate Leaves(fs: FileSystem, mountpoint: string, path: string) {
    exists n: nat :: ChainAt(Next(fs, mountpoint), path, n).Some?
      && !Below(mountpoint, ChainAt(Next(fs, mountpoint), path, n).value)
  }

  /** Some path of the chain makes LStat or Readlink fail like this. */
  ghost predicate FailsWith(fs: FileSystem, mountpoint: string, path: string, e: FsError) {
    exists n: nat :: ChainAt(Next(fs, mountpoint), path, n).Some?
      && HopFrom(fs, mountpoint, ChainAt(Next(fs, mountpoint), path, n).value) == Failed(e)
  }

  /** A terminating walk returns nothing at all exactly when its chain leaves the
      mountpoint, and an error exactly when a call on its chain fails with it. */
  lemma EmptyOrErrorIff(fs: FileSystem, mountpoint: string, path: string)
    requires Terminates(Next(fs, mountpoint), path)
    ensures Walk(fs, mountpoint, path) == Ok([]) <==> Leaves(fs, mountpoint, path)
    ensures forall e :: Walk(fs, mountpoint, path) == Err(e) <==> FailsWith(fs, mountpoint, path, e)
  {
    var step := Next(fs, mountpoint);
    var n: nat :| StopsAt(step, path, n);
    WalkIsResultAt(fs, mountpoint, path, n);
    forall m: nat | StopsAt(step, path, m) ensures m == n {
      StopIsUnique(step, path, m, n);
    }
    if Leaves(fs, mountpoint, path) {
      var m: nat :| ChainAt(step, path, m).Some? && !Below(mountpoint, ChainAt(step, path, m).value);
      assert StopsAt(step, path, m);
    }
    forall e | FailsWith(fs, mountpoint, path, e) ensures Walk(fs, mountpoint, path) == Err(e) {
      var m: nat :| ChainAt(step, path, m).Some?
        && HopFrom(fs, mountpoint, ChainAt(step, path, m).value) == Failed(e);
      assert StopsAt(step, path, m);
    }
  }

  // ----- The code

  /** The loop is at this path of the chain, after these others. */
  ghost predicate OnChain(fs: FileSystem, mountpoint: string, path0: string, paths: seq<string>, path: string) {
    && ChainAt(Next(fs, mountpoint), path0, |paths|) == Some(path)
    && forall i :: 0 <= i < |paths| ==> ChainAt(Next(fs, mountpoint), path0, i) == Some(paths[i])
  }

  /** Leaving the loop. */
  lemma LeaveLoop(fs: FileSystem, mountpoint: string, path0: string, paths: seq<string>, path: string)
    requires OnChain(fs, mountpoint, path0, paths, path)
    requires !HopFrom(fs, mountpoint, path).To?
    ensures Terminates(Next(fs, mountpoint), path0)
    ensures Walk(fs, mountpoint, path0) ==
      match HopFrom(fs, mountpoint, path)
      case Outside => Ok([])
      case Failed(e) => Err(e)
      case End => Ok(paths + [path])
  {
    var step, n := Next(fs, mountpoint), |paths|;
    assert StopsAt(step, path0, n);
    WalkIsResultAt(fs, mountpoint, path0, n);
    assert paths + [path] == FirstOf(step, path0, n + 1);
  }

  /** Going round the loop once more. */
  lemma StayInLoop(fs: FileSystem, mountpoint: string, path0: string, paths: seq<string>, path: string)
    requires NeverRevisits(Next(fs, mountpoint), path0)
    requires OnChain(fs, mountpoint, path0, paths, path)
    requires HopFrom(fs, mountpoint, path).To?
    ensures OnChain(fs, mountpoint, path0, paths + [path], HopFrom(fs, mountpoint, path).next)
    ensures |paths| < |fs.readlink.Keys|
  {
    assert Next(fs, mountpoint)(path) == Some(HopFrom(fs, mountpoint, path).next);
    AcyclicChainIsShort(Next(fs, mountpoint), fs.readlink.Keys, path0, |paths| + 1);
  }

  /** The loop has no bound in the source; it is called on paths whose chain never
      revisits, the condition that LoopTerminatesIff shows to be exact. */
  method RecursiveSymlinks(fs: FileSystem, mountpoint0: string, path0: string)
    returns (r: Result<seq<string>, FsError>)
    requires NeverRevisits(Next(fs, mountpoint0), path0)
    ensures Terminates(Next(fs, mountpoint0), path0)
    ensures r == Walk(fs, mountpoint0, path0)
  {
    var mountpoint := mountpoint0;
    if !HasSuffix(mountpoint, "/") {
      mountpoint := mountpoint + "/";
    }
    var path := path0;
    var paths: seq<string> := [];
    while true
      invariant OnChain(fs, mountpoint0, path0, paths, path)
      decreases |fs.readlink.Keys| + 1 - |paths|
    {
      ghost var before := paths;
      if !HasPrefix(path, mountpoint) {
        assert HopFrom(fs, mountpoint0, path) == Outside;
        LeaveLoop(fs, mountpoint0, path0, before, path);
        return Ok([]);
      }
      if path !in fs.isLink {
        assert HopFrom(fs, mountpoint0, path) == Failed(LStatFailed(path));
        LeaveLoop(fs, mountpoint0, path0, before, path);
        return Err(LStatFailed(path));
      }
      paths := paths + [path];
      if !fs.isLink[path] {
        assert HopFrom(fs, mountpoint0, path) == End;
        LeaveLoop(fs, mountpoint0, path0, before, path);
        return Ok(paths);
      }
      if path !in fs.readlink {
        assert HopFrom(fs, mountpoint0, path) == Failed(ReadlinkFailed(path));
        LeaveLoop(fs, mountpoint0, path0, before, path);
        return Err(ReadlinkFailed(path));
      }
      var newPath := fs.readlink[path];
      if newPath == "" {
        assert HopFrom(fs, mountpoint0, path) == End;
        LeaveLoop(fs, mountpoint0, path0, before, path);
        return Ok(paths);
      }
      assert HopFrom(fs, mountpoint0, path) == To(Resolve(path, newPath));
      StayInLoop(fs, mountpoint0, path0, before, path);
      path := ResolveTarget(path, newPath);
    }
  }

  /** Lines 190 to 195. */
  method ResolveTarget(path: string, newPath: string) returns (next: string)
    ensures next == Resolve(path, newPath)
  {
    if IsAbs(newPath) {
      return newPath;
    }
    var dir := Dir(path);
    return JoinPath([dir, newPath]);
  }
}
