/** xunix/gpu.go, SameDirSymlinks: which symlinks of a directory lead to a
    target, found by at most ten passes over a map whose iteration order Go
    picks afresh for every pass. */
module Symlinks {
  import opened GoText
  import opened GoPath
  import opened FiniteSets

  datatype DirEntry = DirEntry(name: string, symlink: bool)

  /** The three calls the code makes; a path that is missing from a map stands
      for a call that returns an error. */
  datatype FileSystem = FileSystem(
    listing: map<string, seq<DirEntry>>,  // ReadDir
    isLink: map<string, bool>,            // LStat, mode & ModeSymlink != 0
    readlink: map<string, string>)        // Readlink
  {
    /** What every real directory guarantees about the names it lists. */
    predicate PlainNames() {
      forall dir, i :: dir in listing && 0 <= i < |listing[dir]| ==> PlainName(listing[dir][i].name)
    }
  }

  datatype FsError = ReadDirFailed(path: string) | LStatFailed(path: string) | ReadlinkFailed(path: string)

  type Links = map<string, string>

  const MAX_ITERATIONS := 10

  // ----- The first pass: every symlink of the directory and its destination

  function Destination(dir: string, link: string): string {
    if IsAbs(link) then link else JoinPath([dir, link])
  }

  function LinksOf(fs: FileSystem, dir: string, entries: seq<DirEntry>): Result<Links, FsError> {
    if entries == [] then Ok(map[])
    else
      AddEntry(fs, dir, LinksOf(fs, dir, entries[..|entries| - 1]), entries[|entries| - 1])
  }

  function AddEntry(fs: FileSystem, dir: string, before: Result<Links, FsError>, e: DirEntry): Result<Links, FsError> {
    var path := JoinPath([dir, e.name]);
    if before.Err? || !e.symlink then before
    else if path !in fs.readlink then Err(ReadlinkFailed(path))
    else Ok(before.value[path := Destination(dir, fs.readlink[path])])
  }

  /** The paths of the symlinks among the entries. */
  ghost function LinkPaths(dir: string, entries: seq<DirEntry>): set<string> {
    set i | 0 <= i < |entries| && entries[i].symlink :: JoinPath([dir, entries[i].name])
  }

  /** The entry is a symlink that cannot be read. */
  predicate IsUnreadable(fs: FileSystem, dir: string, e: DirEntry) {
    e.symlink && JoinPath([dir, e.name]) !in fs.readlink
  }

  ghost predicate AllReadable(fs: FileSystem, dir: string, entries: seq<DirEntry>) {
    forall i :: 0 <= i < |entries| ==> !IsUnreadable(fs, dir, entries[i])
  }

  ghost predicate FailsFirst(fs: FileSystem, dir: string, entries: seq<DirEntry>, error: FsError) {
    exists i :: 0 <= i < |entries| && IsUnreadable(fs, dir, entries[i]) && AllReadable(fs, dir, entries[..i])
                && error == ReadlinkFailed(JoinPath([dir, entries[i].name]))
  }

  /** What the pass finds, said without it: the keys are the paths of the symlink
      entries, each with its destination; and it fails exactly if one of them cannot
      be read, with the first such. */
  ghost predicate IsLinkMap(fs: FileSystem, dir: string, entries: seq<DirEntry>, r: Result<Links, FsError>) {
    match r
    case Ok(links) =>
      && AllReadable(fs, dir, entries)
      && links.Keys == LinkPaths(dir, entries)
      && (forall x :: x in links ==> x in fs.readlink && links[x] == Destination(dir, fs.readlink[x]))
    case Err(error) => FailsFirst(fs, dir, entries, error)
  }

  lemma {:induction false} LinksOfIsLinkMap(fs: FileSystem, dir: string, entries: seq<DirEntry>)
    ensures IsLinkMap(fs, dir, entries, LinksOf(fs, dir, entries))
  {
    if entries == [] {
      EmptyLinkMap(fs, dir, entries);
    } else {
      var front, e := entries[..|entries| - 1], entries[|entries| - 1];
      LinksOfIsLinkMap(fs, dir, front);
      NextLinkMap(fs, dir, front, e, entries);
    }
  }

  lemma EmptyLinkMap(fs: FileSystem, dir: string, entries: seq<DirEntry>)
    requires entries == []
    ensures IsLinkMap(fs, dir, entries, LinksOf(fs, dir, entries))
  {
  }

  lemma NextLinkMap(fs: FileSystem, dir: string, front: seq<DirEntry>, e: DirEntry, entries: seq<DirEntry>)
    requires IsLinkMap(fs, dir, front, LinksOf(fs, dir, front)) && entries == front + [e]
    ensures IsLinkMap(fs, dir, entries, LinksOf(fs, dir, entries))
  {
    AddEntryKeepsLinkMap(fs, dir, front, e, LinksOf(fs, dir, front));
    assert entries[..|entries| - 1] == front;
  }

  lemma AddEntryKeepsLinkMap(fs: FileSystem, dir: string, front: seq<DirEntry>, e: DirEntry,
                             before: Result<Links, FsError>)
    requires IsLinkMap(fs, dir, front, before)
    ensures IsLinkMap(fs, dir, front + [e], AddEntry(fs, dir, before, e))
  {
    if before.Err? {
      FailureStays(fs, dir, front, e, before.error);
    } else if IsUnreadable(fs, dir, e) {
      assert (front + [e])[..|front|] == front && (front + [e])[|front|] == e;
    } else {
      OneMoreLink(fs, dir, front, e, before.value);
    }
  }

  lemma FailureStays(fs: FileSystem, dir: string, front: seq<DirEntry>, e: DirEntry, error: FsError)
    requires FailsFirst(fs, dir, front, error)
    ensures FailsFirst(fs, dir, front + [e], error)
  {
    var i :| 0 <= i < |front| && IsUnreadable(fs, dir, front[i]) && AllReadable(fs, dir, front[..i])
             && error == ReadlinkFailed(JoinPath([dir, front[i].name]));
    assert (front + [e])[..i] == front[..i] && (front + [e])[i] == front[i];
  }

  lemma LinkPathsSnoc(dir: string, front: seq<DirEntry>, e: DirEntry)
    ensures LinkPaths(dir, front + [e]) ==
      LinkPaths(dir, front) + if e.symlink then {JoinPath([dir, e.name])} else {}
  {
    var all := front + [e];
    assert all[|front|] == e;
    forall x | x in LinkPaths(dir, front) ensures x in LinkPaths(dir, all) {
      var i :| 0 <= i < |front| && front[i].symlink && x == JoinPath([dir, front[i].name]);
      assert all[i] == front[i];
    }
  }

  lemma OneMoreLink(fs: FileSystem, dir: string, front: seq<DirEntry>, e: DirEntry, links: Links)
    requires IsLinkMap(fs, dir, front, Ok(links)) && !IsUnreadable(fs, dir, e)
    ensures var path := JoinPath([dir, e.name]);
      IsLinkMap(fs, dir, front + [e],
                Ok(if e.symlink then links[path := Destination(dir, fs.readlink[path])] else links))
  {
    LinkPathsSnoc(dir, front, e);
  }

  /** The symlinks of the target's directory are all found if the directory can be
      listed and each of them can be read, and only then. */
  lemma AllLinksIff(fs: FileSystem, target: string)
    ensures AllLinks(fs, target).Ok? <==>
      Dir(target) in fs.listing && AllReadable(fs, Dir(target), fs.listing[Dir(target)])
    ensures AllLinks(fs, target).Ok? ==>
      AllLinks(fs, target).value.Keys == LinkPaths(Dir(target), fs.listing[Dir(target)])
  {
    if Dir(target) in fs.listing {
      var dir := Dir(target);
      var entries := fs.listing[dir];
      LinksOfIsLinkMap(fs, dir, entries);
      if LinksOf(fs, dir, entries).Err? {
        FailureIsUnreadable(fs, dir, entries, LinksOf(fs, dir, entries).error);
      }
    }
  }

  lemma FailureIsUnreadable(fs: FileSystem, dir: string, entries: seq<DirEntry>, error: FsError)
    requires FailsFirst(fs, dir, entries, error)
    ensures !AllReadable(fs, dir, entries)
  {
  }

  function AllLinks(fs: FileSystem, target: string): Result<Links, FsError> {
    var dir := Dir(target);
    if dir !in fs.listing then Err(ReadDirFailed(dir)) else LinksOf(fs, dir, fs.listing[dir])
  }

  /** The links the search does not skip. */
  function SameDir(links: Links, target: string): Links {
    map x | x in links && Dir(x) == Dir(target) :: links[x]
  }

  // ----- Reachability: the meaning of "points to the target, directly or not"

  ghost predicate ReachesWithin(links: Links, target: string, x: string, hops: nat)
    decreases hops
  {
    && hops > 0
    && x in links
    && (links[x] == target || ReachesWithin(links, target, links[x], hops - 1))
  }

  ghost predicate Reaches(links: Links, target: string, x: string) {
    exists hops: nat :: ReachesWithin(links, target, x, hops)
  }

  ghost function Within(links: Links, target: string, hops: nat): set<string> {
    set x | x in links && ReachesWithin(links, target, x, hops)
  }

  ghost function ReachSet(links: Links, target: string): set<string> {
    set x | x in links && Reaches(links, target, x)
  }

  lemma {:induction false} ReachesMonotone(links: Links, target: string, x: string, a: nat, b: nat)
    requires a <= b && ReachesWithin(links, target, x, a)
    ensures ReachesWithin(links, target, x, b)
    decreases a
  {
    if links[x] != target {
      ReachesMonotone(links, target, links[x], a - 1, b - 1);
    }
  }

  lemma WithinGrows(links: Links, target: string, a: nat, b: nat)
    requires a <= b
    ensures Within(links, target, a) <= Within(links, target, b)
  {
    forall x | x in Within(links, target, a) ensures x in Within(links, target, b) {
      ReachesMonotone(links, target, x, a, b);
    }
  }

  /** If some link needs exactly `hops` hops, at least `hops` links are within reach. */
  lemma {:induction false} LongChainsNeedManyLinks(links: Links, target: string, x: string, hops: nat)
    requires ReachesWithin(links, target, x, hops + 1) && !ReachesWithin(links, target, x, hops)
    ensures |Within(links, target, hops + 1)| >= hops + 1
    decreases hops
  {
    if hops == 0 {
      assert x in Within(links, target, 1);
    } else {
      var y := links[x];
      LongChainsNeedManyLinks(links, target, y, hops - 1);
      var near := Within(links, target, hops);
      WithinGrows(links, target, hops, hops + 1);
      SubsetCard(near + {x}, Within(links, target, hops + 1));
    }
  }

  /** Pigeonhole: no chain is longer than the number of links. */
  lemma {:induction false} ReachesBound(links: Links, target: string, x: string, hops: nat)
    requires ReachesWithin(links, target, x, hops)
    ensures ReachesWithin(links, target, x, |links|)
    decreases hops
  {
    if hops <= |links| {
      ReachesMonotone(links, target, x, hops, |links|);
    } else if ReachesWithin(links, target, x, hops - 1) {
      ReachesBound(links, target, x, hops - 1);
    } else {
      LongChainsNeedManyLinks(links, target, x, hops - 1);
      SubsetCard(Within(links, target, hops), links.Keys);
    }
  }

  // ----- The search

  /** Handling one link of a pass. */
  function Visit(links: Links, target: string, found: seq<string>, x: string): (r: seq<string>)
    requires x in links
  {
    if x !in found && (links[x] == target || links[x] in found) then found + [x] else found
  }

  function Pass(links: Links, target: string, found: seq<string>, order: seq<string>): seq<string>
    requires forall x :: x in order ==> x in links
  {
    if order == [] then found
    else Visit(links, target, Pass(links, target, found, order[..|order| - 1]), order[|order| - 1])
  }

  /** An order in which a map may be iterated: each key once. */
  ghost predicate IsOrder(links: Links, order: seq<string>) {
    && NoDuplicates(order)
    && forall x :: x in order <==> x in links
  }

  ghost predicate AreOrders(links: Links, orders: seq<seq<string>>) {
    forall i :: 0 <= i < |orders| ==> IsOrder(links, orders[i])
  }

  /** One pass per order, stopping after a pass that finds nothing. */
  ghost function Search(links: Links, target: string, found: seq<string>, orders: seq<seq<string>>): seq<string>
    requires AreOrders(links, orders)
    decreases |orders|
  {
    if orders == [] then found
    else
      var next := Pass(links, target, found, orders[0]);
      if next == found then found else Search(links, target, next, orders[1..])
  }

  /** What every pass keeps: found links are listed once and reach the target. */
  ghost predicate Sound(links: Links, target: string, found: seq<string>) {
    && NoDuplicates(found)
    && forall x :: x in found ==> x in links && Reaches(links, target, x)
  }

  /** Every predecessor of the target or of a found link has been found. */
  ghost predicate Closed(links: Links, target: string, found: seq<string>) {
    forall x :: x in links && (links[x] == target || links[x] in found) ==> x in found
  }

  lemma VisitSound(links: Links, target: string, found: seq<string>, x: string)
    requires x in links && Sound(links, target, found)
    ensures Sound(links, target, Visit(links, target, found, x))
  {
    if x !in found {
      if links[x] == target {
        assert ReachesWithin(links, target, x, 1);
      } else if links[x] in found {
        var hops: nat :| ReachesWithin(links, target, links[x], hops);
        assert ReachesWithin(links, target, x, hops + 1);
      }
    }
  }

  lemma {:induction false} PassSound(links: Links, target: string, found: seq<string>, order: seq<string>)
    requires forall x :: x in order ==> x in links
    requires Sound(links, target, found)
    ensures Sound(links, target, Pass(links, target, found, order))
  {
    if order != [] {
      PassSound(links, target, found, order[..|order| - 1]);
      VisitSound(links, target, Pass(links, target, found, order[..|order| - 1]), order[|order| - 1]);
    }
  }

  /** A pass only appends, and it finds every link in its order that is one hop
      from the target or from what was found before. */
  lemma {:induction false} PassGrows(links: Links, target: string, found: seq<string>, order: seq<string>)
    requires forall x :: x in order ==> x in links
    ensures found <= Pass(links, target, found, order)
    ensures forall x :: x in order && (links[x] == target || links[x] in found) ==>
      x in Pass(links, target, found, order)
  {
    if order != [] {
      PassGrows(links, target, found, order[..|order| - 1]);
      assert forall x :: x in order ==> x in order[..|order| - 1] || x == order[|order| - 1];
    }
  }

  /** A full pass from everything within k hops reaches everything within k + 1. */
  lemma PassAdvances(links: Links, target: string, found: seq<string>, order: seq<string>, k: nat)
    requires IsOrder(links, order)
    requires forall x :: x in Within(links, target, k) ==> x in found
    ensures forall x :: x in Within(links, target, k + 1) ==> x in Pass(links, target, found, order)
  {
    PassGrows(links, target, found, order);
    forall x | x in Within(links, target, k + 1) ensures x in Pass(links, target, found, order) {
      if links[x] != target {
        assert ReachesWithin(links, target, links[x], k);
        assert links[x] in Within(links, target, k);
      }
    }
  }

  lemma QuietPassMeansClosed(links: Links, target: string, found: seq<string>, order: seq<string>)
    requires IsOrder(links, order)
    requires Pass(links, target, found, order) == found
    ensures Closed(links, target, found)
  {
    PassGrows(links, target, found, order);
  }

  lemma {:induction false} ClosedIsComplete(links: Links, target: string, found: seq<string>, x: string, hops: nat)
    requires Closed(links, target, found) && ReachesWithin(links, target, x, hops)
    ensures x in found
    decreases hops
  {
    if links[x] != target {
      ClosedIsComplete(links, target, found, links[x], hops - 1);
    }
  }

  /** In every iteration order, every result reaches the target and is listed once. */
  lemma {:induction false} SearchSound(links: Links, target: string, found: seq<string>, orders: seq<seq<string>>)
    requires AreOrders(links, orders) && Sound(links, target, found)
    ensures Sound(links, target, Search(links, target, found, orders))
    decreases |orders|
  {
    if orders != [] {
      PassSound(links, target, found, orders[0]);
      SearchSound(links, target, Pass(links, target, found, orders[0]), orders[1..]);
    }
  }

  /** In every iteration order, a search of n passes (cut short or not) that starts
      from everything within k hops finds everything within k + n hops. */
  lemma {:induction false} SearchFindsWithin(links: Links, target: string, found: seq<string>,
                                             orders: seq<seq<string>>, k: nat)
    requires AreOrders(links, orders)
    requires forall x :: x in Within(links, target, k) ==> x in found
    ensures forall x :: x in Within(links, target, k + |orders|) ==> x in Search(links, target, found, orders)
    decreases |orders|
  {
    if orders != [] {
      var next := Pass(links, target, found, orders[0]);
      if next == found {
        QuietPassMeansClosed(links, target, found, orders[0]);
        forall x | x in Within(links, target, k + |orders|) ensures x in found {
          ClosedIsComplete(links, target, found, x, k + |orders|);
        }
      } else {
        PassAdvances(links, target, found, orders[0], k);
        SearchFindsWithin(links, target, next, orders[1..], k + 1);
      }
    }
  }

  /** If no chain needs more hops than there are passes, the search finds exactly
      the links that reach the target, in any orders. */
  lemma ShortChainsAreExact(links: Links, target: string, orders: seq<seq<string>>)
    requires AreOrders(links, orders)
    requires ReachSet(links, target) <= Within(links, target, |orders|)
    ensures Elements(Search(links, target, [], orders)) == ReachSet(links, target)
  {
    SearchSound(links, target, [], orders);
    SearchFindsWithin(links, target, [], orders, 0);
  }

  /** In particular when the directory holds no more symlinks than that. */
  lemma FewLinksAreExact(links: Links, target: string, orders: seq<seq<string>>)
    requires AreOrders(links, orders) && |links| <= |orders|
    ensures Elements(Search(links, target, [], orders)) == ReachSet(links, target)
  {
    forall x | x in ReachSet(links, target) ensures x in Within(links, target, |orders|) {
      var hops: nat :| ReachesWithin(links, target, x, hops);
      ReachesBound(links, target, x, hops);
      ReachesMonotone(links, target, x, |links|, |orders|);
    }
    ShortChainsAreExact(links, target, orders);
  }

  // ----- The worst order: farthest links first

  /** The links within k hops, those needing more hops before those needing fewer. */
  ghost function NearLast(links: Links, target: string, k: nat): (r: seq<string>)
    ensures NoDuplicates(r)
    ensures forall x :: x in r <==> x in Within(links, target, k)
  {
    if k == 0 then []
    else
      var far := Enumerate(Within(links, target, k) - Within(links, target, k - 1));
      var near := NearLast(links, target, k - 1);
      WithinGrows(links, target, k - 1, k);
      assert forall x :: x in far + near <==> x in far || x in near;
      assert NoDuplicates(far + near) by {
        forall i, j | 0 <= i < j < |far + near| ensures (far + near)[i] != (far + near)[j] {
          if i < |far| <= j { assert far[i] in far; assert near[j - |far|] in near; }
        }
      }
      far + near
  }

  /** For every k, this order lists what needs more than k hops before the rest. */
  lemma {:induction false} NearLastSplits(links: Links, target: string, k: nat, n: nat) returns (far: seq<string>)
    requires k <= n
    ensures NearLast(links, target, n) == far + NearLast(links, target, k)
    ensures forall x :: x in far ==> x in links && x !in Within(links, target, k)
  {
    if k == n {
      far := [];
    } else {
      var inner := NearLastSplits(links, target, k, n - 1);
      var ring := Within(links, target, n) - Within(links, target, n - 1);
      far := Enumerate(ring) + inner;
      WithinGrows(links, target, k, n - 1);
      assert Enumerate(ring) + (inner + NearLast(links, target, k)) == far + NearLast(links, target, k);
    }
  }

  ghost function WorstOrder(links: Links, target: string): (order: seq<string>)
    ensures IsOrder(links, order)
  {
    var beyond := Enumerate(links.Keys - Within(links, target, |links|));
    var near := NearLast(links, target, |links|);
    assert forall x :: x in beyond + near <==> x in beyond || x in near;
    assert NoDuplicates(beyond + near) by {
      forall i, j | 0 <= i < j < |beyond + near| ensures (beyond + near)[i] != (beyond + near)[j] {
        if i < |beyond| <= j { assert beyond[i] in beyond; assert near[j - |beyond|] in near; }
      }
    }
    beyond + near
  }

  lemma {:induction false} PassConcat(links: Links, target: string, found: seq<string>, a: seq<string>, b: seq<string>)
    requires forall x :: x in a + b ==> x in links
    requires forall x :: x in a ==> x in links
    requires forall x :: x in b ==> x in links
    ensures Pass(links, target, found, a + b) == Pass(links, target, Pass(links, target, found, a), b)
  {
    if b == [] {
      assert a + b == a;
    } else {
      assert (a + b)[..|a + b| - 1] == a + b[..|b| - 1];
      forall x | x in a + b[..|b| - 1] ensures x in links {
        assert x in a + b;
      }
      PassConcat(links, target, found, a, b[..|b| - 1]);
    }
  }

  /** Links more than k + 1 hops away are not found from exactly the first k hops. */
  lemma {:induction false} FarLinksAreMissed(links: Links, target: string, found: seq<string>,
                                             order: seq<string>, k: nat)
    requires forall x :: x in order ==> x in links && x !in Within(links, target, k + 1)
    requires Elements(found) == Within(links, target, k)
    ensures Pass(links, target, found, order) == found
  {
    if order != [] {
      FarLinksAreMissed(links, target, found, order[..|order| - 1], k);
      var x := order[|order| - 1];
      assert !ReachesWithin(links, target, x, k + 1);
      assert forall y :: y in found ==> y in Within(links, target, k) by {
        assert forall y :: y in found ==> y in Elements(found);
      }
    }
  }

  lemma {:induction false} NearLinksStayNear(links: Links, target: string, found: seq<string>,
                                             order: seq<string>, k: nat)
    requires forall x :: x in order ==> x in Within(links, target, k)
    requires Elements(found) <= Within(links, target, k)
    ensures Elements(Pass(links, target, found, order)) <= Within(links, target, k)
  {
    if order != [] {
      NearLinksStayNear(links, target, found, order[..|order| - 1], k);
    }
  }

  /** For every k, everything beyond k hops comes first in the worst order. */
  lemma WorstOrderSplits(links: Links, target: string, k: nat) returns (far: seq<string>, near: seq<string>)
    ensures WorstOrder(links, target) == far + near
    ensures forall x :: x in far ==> x in links && x !in Within(links, target, k)
    ensures forall x :: x in near ==> x in Within(links, target, k)
  {
    var n := |links|;
    var beyond := Enumerate(links.Keys - Within(links, target, n));
    forall x | x in beyond ensures x in links && x !in Within(links, target, k) {
      if ReachesWithin(links, target, x, k) {
        ReachesBound(links, target, x, k);
        assert false;
      }
    }
    if k <= n {
      var middle := NearLastSplits(links, target, k, n);
      far, near := beyond + middle, NearLast(links, target, k);
      assert beyond + (middle + near) == far + near;
    } else {
      far, near := beyond, NearLast(links, target, n);
      forall x | x in near ensures x in Within(links, target, k) {
        ReachesMonotone(links, target, x, n, k);
      }
    }
  }

  /** A pass in the worst order gains exactly one hop. */
  lemma WorstPassGainsOneHop(links: Links, target: string, found: seq<string>, k: nat)
    requires Elements(found) == Within(links, target, k)
    ensures Elements(Pass(links, target, found, WorstOrder(links, target))) == Within(links, target, k + 1)
  {
    var far, near := WorstOrderSplits(links, target, k + 1);
    assert forall x :: x in far + near <==> x in far || x in near;
    PassConcat(links, target, found, far, near);
    FarLinksAreMissed(links, target, found, far, k);
    WithinGrows(links, target, k, k + 1);
    NearLinksStayNear(links, target, found, near, k + 1);
    forall x | x in Within(links, target, k) ensures x in found {
      assert x in Elements(found);
    }
    PassAdvances(links, target, found, WorstOrder(links, target), k);
  }

  ghost predicate AllAre(orders: seq<seq<string>>, order: seq<string>) {
    forall i :: 0 <= i < |orders| ==> orders[i] == order
  }

  /** The list holds just what is within that many hops. */
  ghost predicate IsWithin(links: Links, target: string, found: seq<string>, hops: nat) {
    Elements(found) == Within(links, target, hops)
  }

  /** With this order a pass gains exactly one hop, wherever it starts. */
  ghost predicate GainsOneHop(links: Links, target: string, order: seq<string>) {
    && IsOrder(links, order)
    && forall found, k: nat :: IsWithin(links, target, found, k) ==>
         IsWithin(links, target, Pass(links, target, found, order), k + 1)
  }

  lemma WorstOrderGains(links: Links, target: string)
    ensures GainsOneHop(links, target, WorstOrder(links, target))
  {
    forall found, k: nat | IsWithin(links, target, found, k)
      ensures IsWithin(links, target, Pass(links, target, found, WorstOrder(links, target)), k + 1)
    {
      WorstPassGainsOneHop(links, target, found, k);
    }
  }

  /** In such orders a search of n passes finds what is within some number of hops
      that is at most n more. */
  lemma {:induction false} SlowSearch(links: Links, target: string, found: seq<string>,
                                      orders: seq<seq<string>>, order: seq<string>, k: nat)
    returns (hops: nat)
    requires GainsOneHop(links, target, order) && AllAre(orders, order) && AreOrders(links, orders)
    requires IsWithin(links, target, found, k)
    ensures hops <= k + |orders| && IsWithin(links, target, Search(links, target, found, orders), hops)
    decreases |orders|
  {
    hops := k;
    if orders != [] {
      var next := Pass(links, target, found, order);
      AllButFirst(links, orders, order);
      SearchStep(links, target, found, orders);
      if next != found {
        hops := SlowSearch(links, target, next, orders[1..], order, k + 1);
      }
    }
  }

  lemma AllButFirst(links: Links, orders: seq<seq<string>>, order: seq<string>)
    requires orders != [] && AllAre(orders, order) && AreOrders(links, orders)
    ensures AllAre(orders[1..], order) && AreOrders(links, orders[1..]) && orders[0] == order
  {
  }

  lemma SearchStep(links: Links, target: string, found: seq<string>, orders: seq<seq<string>>)
    requires orders != [] && AreOrders(links, orders)
    ensures AreOrders(links, orders[1..]) && IsOrder(links, orders[0])
    ensures var next := Pass(links, target, found, orders[0]);
      Search(links, target, found, orders) == if next == found then found else Search(links, target, next, orders[1..])
  {
  }

  /** A run of that many passes that ends without x. */
  ghost predicate RunMisses(links: Links, target: string, x: string, passes: nat, orders: seq<seq<string>>) {
    && AreOrders(links, orders) && |orders| == passes
    && x !in Elements(Search(links, target, [], orders))
  }

  /** Some choice of map orders misses every link that needs more hops than there are passes. */
  lemma FarLinkCanBeMissed(links: Links, target: string, x: string, passes: nat)
    requires x !in Within(links, target, passes)
    ensures exists orders :: RunMisses(links, target, x, passes, orders)
  {
    var worst := WorstOrder(links, target);
    var orders := seq(passes, _ => worst);
    assert AreOrders(links, orders);
    WorstOrderGains(links, target);
    assert IsWithin(links, target, [], 0);
    var hops := SlowSearch(links, target, [], orders, worst, 0);
    WithinGrows(links, target, hops, passes);
    assert RunMisses(links, target, x, passes, orders);
  }

  /** n passes find exactly the links that reach the target, whatever the map
      orders, if and only if no link that reaches it needs more than n hops. */
  lemma PassesAreExactIff(links: Links, target: string, passes: nat)
    ensures (forall orders :: AreOrders(links, orders) && |orders| == passes ==>
               Elements(Search(links, target, [], orders)) == ReachSet(links, target))
       <==> ReachSet(links, target) <= Within(links, target, passes)
  {
    if ReachSet(links, target) <= Within(links, target, passes) {
      forall orders | AreOrders(links, orders) && |orders| == passes
        ensures Elements(Search(links, target, [], orders)) == ReachSet(links, target)
      {
        ShortChainsAreExact(links, target, orders);
      }
    } else {
      assert exists x :: x in ReachSet(links, target) && x !in Within(links, target, passes);
      var x :| x in ReachSet(links, target) && x !in Within(links, target, passes);
      FarLinkCanBeMissed(links, target, x, passes);
      var orders :| RunMisses(links, target, x, passes, orders);
    }
  }

  /** The ten passes of the code. */
  lemma TenPassesAreExactIff(links: Links, target: string)
    ensures (forall orders :: AreOrders(links, orders) && |orders| == MAX_ITERATIONS ==>
               Elements(Search(links, target, [], orders)) == ReachSet(links, target))
       <==> ReachSet(links, target) <= Within(links, target, MAX_ITERATIONS)
  {
    PassesAreExactIff(links, target, MAX_ITERATIONS);
  }

  /** A chain of n links: "tx" points to "t", "txx" to "tx", and so on. */
  function LongName(n: nat): string {
    "t" + seq(n, _ => 'x')
  }

  function LongChain(n: nat): Links {
    map name | name in (set k | 1 <= k <= n :: LongName(k)) :: name[..|name| - 1]
  }

  lemma {:induction false} LongChainDistance(n: nat, k: nat, hops: nat)
    requires 1 <= k <= n
    ensures ReachesWithin(LongChain(n), "t", LongName(k), hops) <==> hops >= k
    decreases hops
  {
    assert LongName(k) in LongChain(n);
    assert LongName(k)[..k] == LongName(k - 1);
    assert LongName(0) == "t";
    if hops > 0 && k > 1 {
      assert |LongName(k - 1)| != |"t"|;
      LongChainDistance(n, k - 1, hops - 1);
    }
  }

  /** The documentation says "all links in the same directory as target that point
      to target, either indirectly or directly". Eleven links in one chain are
      enough for the code to fall short of that. */
  lemma LongChainsCanBeMissed(n: nat, passes: nat)
    requires n > passes
    ensures LongName(n) in ReachSet(LongChain(n), "t")
    ensures exists orders :: RunMisses(LongChain(n), "t", LongName(n), passes, orders)
  {
    LongChainDistance(n, n, passes);
    LongChainDistance(n, n, n);
    FarLinkCanBeMissed(LongChain(n), "t", LongName(n), passes);
  }

  // ----- The directory filter is vacuous for real directories

  lemma {:induction false} ListedLinksAreInDir(fs: FileSystem, dir: string, entries: seq<DirEntry>)
    requires IsClean(dir)
    requires forall i :: 0 <= i < |entries| ==> PlainName(entries[i].name)
    requires LinksOf(fs, dir, entries).Ok?
    ensures forall x :: x in LinksOf(fs, dir, entries).value ==> Dir(x) == dir
  {
    if entries != [] {
      ListedLinksAreInDir(fs, dir, entries[..|entries| - 1]);
      DirOfJoin(dir, entries[|entries| - 1].name);
    }
  }

  /** On a file system with real directory entries the check of line 241 never
      skips a link, so reachability is over all symlinks of the directory. */
  lemma NoLinkIsSkipped(fs: FileSystem, target: string)
    requires fs.PlainNames() && AllLinks(fs, target).Ok?
    ensures SameDir(AllLinks(fs, target).value, target) == AllLinks(fs, target).value
  {
    CleanIsClean(target[..AfterLastSlash(target)]);
    ListedLinksAreInDir(fs, Dir(target), fs.listing[Dir(target)]);
  }

  // ----- The code

  method SameDirSymlinks(fs: FileSystem, target: string) returns (r: Result<seq<string>, FsError>)
    ensures r.Err? <==> AllLinks(fs, target).Err?
    ensures r.Err? ==> r.error == AllLinks(fs, target).error
    ensures r.Ok? ==> IsSearchResult(SameDir(AllLinks(fs, target).value, target), target, r.value)
  {
    var dir := Dir(target);
    if dir !in fs.listing {
      return Err(ReadDirFailed(dir));
    }
    var allLinks := CollectLinks(fs, dir, fs.listing[dir]);
    if allLinks.Err? {
      return Err(allLinks.error);
    }
    var found := TenPasses(allLinks.value, target);
    return Ok(found);
  }

  /** What the search promises for every iteration order: at most ten passes were
      made; each result reaches the target and is listed once; everything within
      ten hops is there; and an early exit means that everything is there. */
  ghost predicate IsSearchResult(links: Links, target: string, found: seq<string>) {
    && Sound(links, target, found)
    && Within(links, target, MAX_ITERATIONS) <= Elements(found)
    && exists orders :: IsSearchRun(links, target, orders, found)
  }

  ghost predicate IsSearchRun(links: Links, target: string, orders: seq<seq<string>>, found: seq<string>) {
    && |orders| <= MAX_ITERATIONS
    && AreOrders(links, orders)
    && found == Search(links, target, [], orders)
    && (|orders| < MAX_ITERATIONS ==> Elements(found) == ReachSet(links, target))
  }

  /** A result of the code is exact whenever no chain needs more than ten hops. */
  lemma SearchResultIsExact(links: Links, target: string, found: seq<string>)
    requires IsSearchResult(links, target, found)
    requires ReachSet(links, target) <= Within(links, target, MAX_ITERATIONS)
    ensures Elements(found) == ReachSet(links, target)
  {
    assert forall x :: x in Elements(found) ==> x in found;
  }

  method CollectLinks(fs: FileSystem, dir: string, fis: seq<DirEntry>) returns (r: Result<Links, FsError>)
    ensures r == LinksOf(fs, dir, fis)
    ensures IsLinkMap(fs, dir, fis, r)
  {
    LinksOfIsLinkMap(fs, dir, fis);
    var allLinks: Links := map[];
    for i := 0 to |fis|
      invariant LinksOf(fs, dir, fis[..i]) == Ok(allLinks)
    {
      assert fis[..i + 1][..i] == fis[..i];
      if fis[i].symlink {
        var absPath := JoinPath([dir, fis[i].name]);
        if absPath !in fs.readlink {
          LinksErrorPersists(fs, dir, fis, i + 1);
          return Err(ReadlinkFailed(absPath));
        }
        var link := fs.readlink[absPath];
        if !IsAbs(link) {
          link := JoinPath([dir, link]);
        }
        allLinks := allLinks[absPath := link];
      }
    }
    assert fis[..|fis|] == fis;
    return Ok(allLinks);
  }

  /** The passes made so far all found something and led from [] to found. */
  ghost predicate SearchedSoFar(links: Links, target: string, orders: seq<seq<string>>, found: seq<string>) {
    forall more :: AreOrders(links, more) && AreOrders(links, orders + more) ==>
      Search(links, target, [], orders + more) == Search(links, target, found, more)
  }

  lemma OnePassMore(links: Links, target: string, orders: seq<seq<string>>, found: seq<string>, order: seq<string>)
    requires AreOrders(links, orders + [order]) && SearchedSoFar(links, target, orders, found)
    ensures forall x :: x in order ==> x in links
    ensures var next := Pass(links, target, found, order);
      if next == found then Search(links, target, [], orders + [order]) == found
      else SearchedSoFar(links, target, orders + [order], next)
  {
    assert (orders + [order])[|orders|] == order;
    assert IsOrder(links, order);
    var next := Pass(links, target, found, order);
    if next != found {
      forall more | AreOrders(links, more) && AreOrders(links, (orders + [order]) + more)
        ensures Search(links, target, [], (orders + [order]) + more) == Search(links, target, next, more)
      {
        assert (orders + [order]) + more == orders + ([order] + more);
        assert ([order] + more)[1..] == more;
        assert AreOrders(links, [order] + more);
      }
    }
  }

  method TenPasses(allLinks: Links, target: string) returns (found: seq<string>)
    ensures IsSearchResult(SameDir(allLinks, target), target, found)
  {
    ghost var links := SameDir(allLinks, target);
    ghost var orders: seq<seq<string>> := [];
    found := [];
    assert SearchedSoFar(links, target, [], []) by {
      assert forall more: seq<seq<string>> :: [] + more == more;
    }
    for iteration := 0 to MAX_ITERATIONS
      invariant |orders| == iteration && AreOrders(links, orders)
      invariant SearchedSoFar(links, target, orders, found)
    {
      ghost var before, order := found, [];
      var foundThisTime;
      found, foundThisTime, order := OnePass(allLinks, target, found);
      assert AreOrders(links, orders + [order]);
      OnePassMore(links, target, orders, before, order);
      orders := orders + [order];
      if !foundThisTime {
        QuietPassMeansClosed(links, target, found, order);
        SearchSound(links, target, [], orders);
        ClosedResultIsComplete(links, target, found);
        assert IsSearchRun(links, target, orders, found);
        return;
      }
    }
    assert orders + [] == orders;
    SearchSound(links, target, [], orders);
    SearchFindsWithin(links, target, [], orders, 0);
    assert IsSearchRun(links, target, orders, found);
  }

  lemma ClosedResultIsComplete(links: Links, target: string, found: seq<string>)
    requires Closed(links, target, found) && Sound(links, target, found)
    ensures Elements(found) == ReachSet(links, target)
    ensures Within(links, target, MAX_ITERATIONS) <= Elements(found)
  {
    forall x, hops: nat | ReachesWithin(links, target, x, hops) ensures x in found {
      ClosedIsComplete(links, target, found, x, hops);
    }
  }

  lemma {:induction false} LinksErrorPersists(fs: FileSystem, dir: string, entries: seq<DirEntry>, i: nat)
    requires i <= |entries| && LinksOf(fs, dir, entries[..i]).Err?
    ensures LinksOf(fs, dir, entries) == LinksOf(fs, dir, entries[..i])
  {
    if i == |entries| {
      assert entries[..i] == entries;
    } else {
      assert entries[..|entries| - 1][..i] == entries[..i];
      LinksErrorPersists(fs, dir, entries[..|entries| - 1], i);
    }
  }

  /** One pass over the map; the order is whatever the iteration happens to
      choose. */
  method OnePass(allLinks: Links, target: string, found0: seq<string>)
    returns (found: seq<string>, foundThisTime: bool, ghost order: seq<string>)
    ensures IsOrder(SameDir(allLinks, target), order)
    ensures found == Pass(SameDir(allLinks, target), target, found0, order)
    ensures foundThisTime <==> found != found0
  {
    ghost var links := SameDir(allLinks, target);
    var targetDir := Dir(target);
    found, foundThisTime, order := found0, false, [];
    var todo := allLinks.Keys;
    while todo != {}
      invariant todo <= allLinks.Keys
      invariant NoDuplicates(order)
      invariant forall x :: x in order <==> x in links && x !in todo
      invariant found == Pass(links, target, found0, order)
      invariant |found| >= |found0| && (foundThisTime <==> |found| > |found0|)
      decreases |todo|
    {
      var linkName :| linkName in todo;
      var linkDest := allLinks[linkName];
      todo := todo - {linkName};
      if Dir(linkName) != targetDir {
        continue;
      }
      ghost var before := found;
      if linkDest == target {
        if linkName !in found {
          found := found + [linkName];
          foundThisTime := true;
        }
      }
      if linkDest in found {
        if linkName !in found {
          found := found + [linkName];
          foundThisTime := true;
        }
      }
      assert found == Visit(links, target, before, linkName);
      assert (order + [linkName])[..|order|] == order;
      order := order + [linkName];
    }
    PassGrows(links, target, found0, order);
  }
}
