/** Both symlink functions of xunix/gpu.go, seen by the names in a directory: what
    `ls -l` shows is what they find. */
module LinkNames {
  import opened GoText
  import opened GoPath
  import opened FiniteSets
  import opened Symlinks
  import opened Chains
  import opened LinkChain

  // ----- SameDirSymlinks

  /** The directory lists a symlink with this name and this text. */
  ghost predicate ListsLink(fs: FileSystem, dir: string, name: string, text: string) {
    && dir in fs.listing && DirEntry(name, true) in fs.listing[dir]
    && Under(dir, name) in fs.readlink && fs.readlink[Under(dir, name)] == text
  }

  lemma ListedIsLinkPath(fs: FileSystem, target: string, name: string)
    requires AllLinks(fs, target).Ok? && PlainName(name)
    requires DirEntry(name, true) in fs.listing[Dir(target)]
    ensures Under(Dir(target), name) in AllLinks(fs, target).value
  {
    var entries := fs.listing[Dir(target)];
    var i :| 0 <= i < |entries| && entries[i] == DirEntry(name, true);
    AllLinksIff(fs, target);
    DirIsClean(target);
    JoinPlainName(Dir(target), name);
    assert JoinPath([Dir(target), entries[i].name]) in LinkPaths(Dir(target), entries);
  }

  /** Where a listed link leads: an absolute text says so itself, the name of a
      neighbour means that neighbour ... */
  lemma LinkLeadsTo(fs: FileSystem, target: string, name: string, text: string)
    requires AllLinks(fs, target).Ok? && PlainName(name) && ListsLink(fs, Dir(target), name, text)
    ensures var links := AllLinks(fs, target).value;
      && Under(Dir(target), name) in links
      && (IsAbs(text) ==> links[Under(Dir(target), name)] == text)
      && (PlainName(text) ==> links[Under(Dir(target), name)] == Under(Dir(target), text))
  {
    var dir := Dir(target);
    ListedIsLinkPath(fs, target, name);
    LinksOfIsLinkMap(fs, dir, fs.listing[dir]);
    if PlainName(text) {
      DirIsClean(target);
      JoinPlainName(dir, text);
      assert text[0] in text;
    }
  }

  /** ... and "../name" an entry of the parent directory. */
  lemma LinkLeadsToParents(fs: FileSystem, target: string, name: string, parent: string, sub: string, other: string)
    requires AllLinks(fs, target).Ok? && PlainName(name) && ListsLink(fs, Dir(target), name, "../" + other)
    requires IsClean(parent) && PlainName(sub) && PlainName(other) && Dir(target) == Under(parent, sub)
    ensures var links := AllLinks(fs, target).value;
      Under(Dir(target), name) in links && links[Under(Dir(target), name)] == Under(parent, other)
  {
    var dir := Dir(target);
    ListedIsLinkPath(fs, target, name);
    LinksOfIsLinkMap(fs, dir, fs.listing[dir]);
    JoinParentName(parent, sub, other);
    assert ("../" + other)[0] == '.';
  }

  /** In an absolute directory every destination is absolute. */
  lemma DestinationsAreAbsolute(fs: FileSystem, target: string)
    requires AllLinks(fs, target).Ok? && IsAbs(Dir(target))
    ensures forall x :: x in AllLinks(fs, target).value ==> IsAbs(AllLinks(fs, target).value[x])
  {
    var dir := Dir(target);
    var links := AllLinks(fs, target).value;
    LinksOfIsLinkMap(fs, dir, fs.listing[dir]);
    forall x | x in links ensures IsAbs(links[x]) {
      JoinIsAbs(dir, fs.readlink[x]);
    }
  }

  /** Names that lead from link to link to the given one. */
  ghost predicate IsNameChain(fs: FileSystem, dir: string, names: seq<string>, t: string) {
    && names != [] && PlainName(names[0])
    && if |names| == 1 then ListsLink(fs, dir, names[0], t)
       else ListsLink(fs, dir, names[0], names[1]) && IsNameChain(fs, dir, names[1..], t)
  }

  /** The target is the entry t of its own directory. */
  predicate IsEntry(target: string, t: string) {
    PlainName(t) && target == Under(Dir(target), t)
  }

  lemma {:induction false} NameChainReaches(fs: FileSystem, target: string, t: string, names: seq<string>)
    requires AllLinks(fs, target).Ok? && IsEntry(target, t) && IsNameChain(fs, Dir(target), names, t)
    ensures ReachesWithin(AllLinks(fs, target).value, target, Under(Dir(target), names[0]), |names|)
    decreases |names|
  {
    LinkLeadsTo(fs, target, names[0], if |names| > 1 then names[1] else t);
    if |names| > 1 {
      NameChainReaches(fs, target, t, names[1..]);
    }
  }

  /** Every link from which up to ten names lead to the target is found; one that
      names the target itself in particular. */
  lemma NamedLinksAreFound(fs: FileSystem, target: string, t: string, names: seq<string>, found: seq<string>)
    requires fs.PlainNames() && AllLinks(fs, target).Ok? && IsEntry(target, t)
    requires IsNameChain(fs, Dir(target), names, t) && |names| <= MAX_ITERATIONS
    requires IsSearchResult(SameDir(AllLinks(fs, target).value, target), target, found)
    ensures Under(Dir(target), names[0]) in found
  {
    var links := AllLinks(fs, target).value;
    var x := Under(Dir(target), names[0]);
    NoLinkIsSkipped(fs, target);
    NameChainReaches(fs, target, t, names);
    ReachesMonotone(links, target, x, |names|, MAX_ITERATIONS);
    assert x in Within(links, target, MAX_ITERATIONS);
    assert x in Elements(found);
  }

  /** Every symlink of the directory names a neighbour. */
  ghost predicate OnlyNeighbours(fs: FileSystem, dir: string) {
    forall name, text :: ListsLink(fs, dir, name, text) ==> PlainName(text)
  }

  lemma LinkHasName(fs: FileSystem, target: string, x: string) returns (name: string, text: string)
    requires fs.PlainNames() && AllLinks(fs, target).Ok? && x in AllLinks(fs, target).value
    ensures PlainName(name) && x == Under(Dir(target), name) && ListsLink(fs, Dir(target), name, text)
  {
    var dir := Dir(target);
    var entries := fs.listing[dir];
    LinksOfIsLinkMap(fs, dir, entries);
    AllLinksIff(fs, target);
    var i :| 0 <= i < |entries| && entries[i].symlink && x == JoinPath([dir, entries[i].name]);
    name, text := entries[i].name, fs.readlink[x];
    DirIsClean(target);
    JoinPlainName(dir, name);
    assert entries[i] == DirEntry(name, true);
  }

  lemma {:induction false} ReachingHasChain(fs: FileSystem, target: string, t: string, x: string, hops: nat)
    returns (names: seq<string>)
    requires fs.PlainNames() && AllLinks(fs, target).Ok? && IsEntry(target, t) && OnlyNeighbours(fs, Dir(target))
    requires ReachesWithin(AllLinks(fs, target).value, target, x, hops)
    ensures IsNameChain(fs, Dir(target), names, t) && x == Under(Dir(target), names[0])
    decreases hops
  {
    var links := AllLinks(fs, target).value;
    var name, text := LinkHasName(fs, target, x);
    LinkLeadsTo(fs, target, name, text);
    if links[x] == target {
      UnderInjective(Dir(target), text, t);
      names := [name];
    } else {
      var rest := ReachingHasChain(fs, target, t, links[x], hops - 1);
      UnderInjective(Dir(target), text, rest[0]);
      names := [name] + rest;
      assert names[1..] == rest;
    }
  }

  /** And nothing else is found, where links name neighbours: every result starts a
      chain of names to the target. */
  lemma FoundLinksAreNamed(fs: FileSystem, target: string, t: string, found: seq<string>, x: string)
    returns (names: seq<string>)
    requires fs.PlainNames() && AllLinks(fs, target).Ok? && IsEntry(target, t) && OnlyNeighbours(fs, Dir(target))
    requires IsSearchResult(SameDir(AllLinks(fs, target).value, target), target, found) && x in found
    ensures IsNameChain(fs, Dir(target), names, t) && x == Under(Dir(target), names[0])
  {
    NoLinkIsSkipped(fs, target);
    var hops: nat :| ReachesWithin(AllLinks(fs, target).value, target, x, hops);
    names := ReachingHasChain(fs, target, t, x, hops);
  }

  // ----- recursiveSymlinks

  /** From an entry of a directory, a neighbour's name leads to the neighbour ... */
  lemma NextIsNeighbour(dir: string, name: string, other: string)
    requires IsClean(dir) && PlainName(name) && PlainName(other)
    ensures Resolve(Under(dir, name), other) == Under(dir, other)
  {
    JoinPlainName(dir, name);
    JoinPlainName(dir, other);
    assert other[0] in other;
  }

  /** ... and "../other" to an entry of the parent directory. */
  lemma NextIsParents(dir: string, sub: string, name: string, other: string)
    requires IsClean(dir) && PlainName(sub) && PlainName(name) && PlainName(other)
    ensures Resolve(Under(Under(dir, sub), name), "../" + other) == Under(dir, other)
  {
    JoinPlainName(dir, sub);
    JoinPlainName(Under(dir, sub), name);
    JoinParentName(dir, sub, other);
    assert ("../" + other)[0] == '.';
  }

  /** What is below a mountpoint, with or without a trailing slash: the paths that go
      on with a '/' behind its text. */
  lemma BelowIff(mountpoint: string, p: string)
    requires !HasSuffix(mountpoint, "/")
    ensures Below(mountpoint, p) <==> exists rest :: p == mountpoint + "/" + rest
    ensures Below(mountpoint + "/", p) <==> Below(mountpoint, p)
  {
    if HasPrefix(p, mountpoint + "/") {
      assert p == mountpoint + "/" + p[|mountpoint| + 1..];
    }
  }

  /** A path that is a symlink with this text, or no symlink at all. */
  predicate Holds(fs: FileSystem, p: string, text: Option<string>) {
    && p in fs.isLink && fs.isLink[p] == text.Some?
    && (text.Some? ==> p in fs.readlink && fs.readlink[p] == text.value)
  }

  /** Each name is a link whose text is the next one; the last is no link. */
  predicate IsWalkable(fs: FileSystem, mountpoint: string, dir: string, names: seq<string>) {
    names != [] && forall i :: 0 <= i < |names| ==> IsWalkableAt(fs, mountpoint, dir, names, i)
  }

  predicate IsWalkableAt(fs: FileSystem, mountpoint: string, dir: string, names: seq<string>, i: nat)
    requires i < |names|
  {
    && PlainName(names[i]) && Below(mountpoint, Under(dir, names[i]))
    && Holds(fs, Under(dir, names[i]), if i + 1 < |names| then Some(names[i + 1]) else None)
  }

  function PathsOf(dir: string, names: seq<string>): (paths: seq<string>)
    ensures |paths| == |names| && forall i :: 0 <= i < |names| ==> paths[i] == Under(dir, names[i])
  {
    seq(|names|, i requires 0 <= i < |names| => Under(dir, names[i]))
  }

  lemma {:induction false} WalkFollowsNames(fs: FileSystem, mountpoint: string, dir: string, names: seq<string>, n: nat)
    requires IsClean(dir) && IsWalkable(fs, mountpoint, dir, names) && n < |names|
    ensures ChainAt(Next(fs, mountpoint), Under(dir, names[0]), n) == Some(Under(dir, names[n]))
    decreases n
  {
    if n > 0 {
      WalkFollowsNames(fs, mountpoint, dir, names, n - 1);
      assert IsWalkableAt(fs, mountpoint, dir, names, n - 1) && IsWalkableAt(fs, mountpoint, dir, names, n);
      NeighbourHop(fs, mountpoint, dir, names[n - 1], names[n]);
    }
  }

  lemma NeighbourHop(fs: FileSystem, mountpoint: string, dir: string, name: string, other: string)
    requires IsClean(dir) && PlainName(name) && PlainName(other) && Below(mountpoint, Under(dir, name))
    requires Holds(fs, Under(dir, name), Some(other))
    ensures HopFrom(fs, mountpoint, Under(dir, name)) == To(Under(dir, other))
  {
    NextIsNeighbour(dir, name, other);
  }

  /** On such names the walk ends and returns exactly their paths. */
  lemma NamesAreWalked(fs: FileSystem, mountpoint: string, dir: string, names: seq<string>)
    requires IsClean(dir) && IsWalkable(fs, mountpoint, dir, names)
    ensures var p := Under(dir, names[0]);
      && NeverRevisits(Next(fs, mountpoint), p) && Terminates(Next(fs, mountpoint), p)
      && Walk(fs, mountpoint, p) == Ok(PathsOf(dir, names))
  {
    var p, step, last := Under(dir, names[0]), Next(fs, mountpoint), |names| - 1;
    forall n: nat | n < |names| ensures ChainAt(step, p, n) == Some(Under(dir, names[n])) {
      WalkFollowsNames(fs, mountpoint, dir, names, n);
    }
    assert IsWalkableAt(fs, mountpoint, dir, names, last);
    assert HopFrom(fs, mountpoint, Under(dir, names[last])) == End;
    assert StopsAt(step, p, last);
    LoopTerminatesIff(fs, mountpoint, p);
    WalkIsResultAt(fs, mountpoint, p, last);
    assert FirstOf(step, p, last + 1) == PathsOf(dir, names);
  }

  /** The same for the loop itself, below a mountpoint or in a directory beneath it. */
  method WalkNames(fs: FileSystem, mountpoint: string, dir: string, names: seq<string>)
    returns (r: Result<seq<string>, FsError>)
    requires IsClean(dir) && IsWalkable(fs, mountpoint, dir, names)
    ensures r == Ok(PathsOf(dir, names))
  {
    NamesAreWalked(fs, mountpoint, dir, names);
    r := RecursiveSymlinks(fs, mountpoint, Under(dir, names[0]));
  }

  /** One absolute text that leads outside is enough to return nothing. */
  lemma EscapeYieldsNothing(fs: FileSystem, mountpoint: string, p: string, text: string)
    requires Below(mountpoint, p) && Holds(fs, p, Some(text)) && IsAbs(text) && !Below(mountpoint, text)
    ensures Terminates(Next(fs, mountpoint), p) && Walk(fs, mountpoint, p) == Ok([])
  {
    var step := Next(fs, mountpoint);
    assert HopFrom(fs, mountpoint, p) == To(text) && HopFrom(fs, mountpoint, text) == Outside;
    assert ChainAt(step, p, 0) == Some(p) && ChainAt(step, p, 1) == Some(text);
    assert StopsAt(step, p, 1);
    WalkIsResultAt(fs, mountpoint, p, 1);
  }
}
