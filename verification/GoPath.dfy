/** Go's `path/filepath` on Unix: Clean, Join, Dir and IsAbs. Clean is written
    as a fold over the '/'-separated components onto a stack. */
module GoPath {
  import opened GoText

  predicate IsAbs(p: string) {
    p != "" && p[0] == '/'
  }

  function Push(stack: seq<string>, rooted: bool, c: string): seq<string> {
    if c == "" || c == "." then stack
    else if c == ".." then
      if stack != [] && stack[|stack| - 1] != ".." then stack[..|stack| - 1]
      else if rooted then stack
      else stack + [c]
    else stack + [c]
  }

  function PushAll(stack: seq<string>, rooted: bool, comps: seq<string>): seq<string>
    decreases |comps|
  {
    if comps == [] then stack
    else PushAll(Push(stack, rooted, comps[0]), rooted, comps[1..])
  }

  function Render(rooted: bool, stack: seq<string>): string {
    if rooted then "/" + Join(stack, '/')
    else if stack == [] then "."
    else Join(stack, '/')
  }

  function Clean(p: string): string {
    Render(IsAbs(p), PushAll([], IsAbs(p), Split(p, '/')))
  }

  predicate IsClean(p: string) {
    Clean(p) == p
  }

  /** `filepath.Join`: leading empty elements are dropped, the rest is joined
      and cleaned, and only empty elements give the empty string. */
  function JoinPath(elems: seq<string>): string {
    if elems == [] then ""
    else if elems[0] == "" then JoinPath(elems[1..])
    else Clean(Join(elems, '/'))
  }

  /** One past the last '/', or 0. */
  function AfterLastSlash(p: string): (k: nat)
    ensures k <= |p|
  {
    if p == "" then 0
    else if p[|p| - 1] == '/' then |p|
    else AfterLastSlash(p[..|p| - 1])
  }

  function Dir(p: string): string {
    Clean(p[..AfterLastSlash(p)])
  }

  // ----- What a cleaned path looks like

  /** A name a directory entry can have. */
  predicate PlainName(c: string) {
    c != "" && c != "." && c != ".." && '/' !in c
  }

  /** The stacks that Clean builds: plain names, with ".." only in front and
      never under the root. */
  predicate Normal(rooted: bool, stack: seq<string>) {
    forall i :: 0 <= i < |stack| ==>
      || PlainName(stack[i])
      || (!rooted && stack[i] == ".." && forall j :: 0 <= j < i ==> stack[j] == "..")
  }

  lemma {:induction false} PushAllNormal(stack: seq<string>, rooted: bool, comps: seq<string>)
    requires Normal(rooted, stack) && NoneContain(comps, '/')
    ensures Normal(rooted, PushAll(stack, rooted, comps))
    decreases |comps|
  {
    if comps != [] {
      var c := comps[0];
      var next := Push(stack, rooted, c);
      assert Normal(rooted, next) by {
        if c == ".." && !rooted && next == stack + [c] {
          assert stack == [] || stack[|stack| - 1] == "..";
        }
      }
      PushAllNormal(next, rooted, comps[1..]);
    }
  }

  lemma {:induction false} PushAllConcat(stack: seq<string>, rooted: bool, a: seq<string>, b: seq<string>)
    ensures PushAll(stack, rooted, a + b) == PushAll(PushAll(stack, rooted, a), rooted, b)
    decreases |a|
  {
    if a == [] {
      assert a + b == b;
    } else {
      assert (a + b)[1..] == a[1..] + b;
      PushAllConcat(Push(stack, rooted, a[0]), rooted, a[1..], b);
    }
  }

  /** A normal stack survives being pushed again. */
  lemma {:induction false} PushAllOfNormal(stack: seq<string>, rooted: bool, more: seq<string>)
    requires Normal(rooted, stack + more)
    ensures PushAll(stack, rooted, more) == stack + more
    decreases |more|
  {
    if more != [] {
      var c := (stack + more)[|stack|];
      assert c == more[0];
      assert c == ".." && stack != [] ==> (stack + more)[|stack| - 1] == "..";
      assert Push(stack, rooted, c) == stack + [c];
      assert stack + [c] + more[1..] == stack + more;
      PushAllOfNormal(stack + [c], rooted, more[1..]);
    }
  }

  lemma NormalHasNoSlash(rooted: bool, stack: seq<string>)
    requires Normal(rooted, stack)
    ensures NoneContain(stack, '/')
  {
  }

  lemma RenderFirst(rooted: bool, stack: seq<string>)
    requires Normal(rooted, stack)
    ensures Render(rooted, stack) != ""
    ensures IsAbs(Render(rooted, stack)) == rooted
  {
    NormalHasNoSlash(rooted, stack);
    if !rooted && stack != [] {
      assert stack[0] != "" && stack[0][0] in stack[0];
      assert Join(stack, '/')[0] == stack[0][0];
    }
  }

  /** Reading a rendered stack component by component gives the stack back. */
  lemma PushRendered(rooted: bool, stack: seq<string>)
    requires Normal(rooted, stack)
    ensures PushAll([], rooted, Split(Render(rooted, stack), '/')) == stack
  {
    NormalHasNoSlash(rooted, stack);
    if stack == [] {
      SplitNoSep(".", '/');
      if rooted {
        assert Render(rooted, stack) == "" + "/" + "";
        SplitConcat("", "", '/');
        assert Split("/", '/') == [""] + [""];
        PushAllConcat([], rooted, [""], [""]);
      } else {
        assert PushAll([], rooted, ["."]) == PushAll([], rooted, []);
      }
    } else {
      SplitJoin(stack, '/');
      PushAllOfNormal([], rooted, stack);
      assert [] + stack == stack;
      if rooted {
        assert Render(rooted, stack) == "" + "/" + Join(stack, '/');
        SplitConcat("", Join(stack, '/'), '/');
        PushAllConcat([], rooted, [""], stack);
      }
    }
  }

  /** The stack behind a clean path. */
  lemma CleanStack(p: string) returns (stack: seq<string>)
    requires IsClean(p)
    ensures Normal(IsAbs(p), stack) && p == Render(IsAbs(p), stack)
    ensures stack == PushAll([], IsAbs(p), Split(p, '/'))
  {
    stack := PushAll([], IsAbs(p), Split(p, '/'));
    SplitPieces(p, '/');
    PushAllNormal([], IsAbs(p), Split(p, '/'));
  }

  lemma RenderIsClean(rooted: bool, stack: seq<string>)
    requires Normal(rooted, stack)
    ensures IsClean(Render(rooted, stack))
  {
    RenderFirst(rooted, stack);
    PushRendered(rooted, stack);
  }

  lemma RenderInjective(rooted: bool, a: seq<string>, b: seq<string>)
    requires Normal(rooted, a) && Normal(rooted, b)
    requires Render(rooted, a) == Render(rooted, b)
    ensures a == b
  {
    PushRendered(rooted, a);
    PushRendered(rooted, b);
  }

  /** Cleaning is idempotent. */
  lemma CleanIsClean(p: string)
    ensures IsClean(Clean(p))
  {
    SplitPieces(p, '/');
    PushAllNormal([], IsAbs(p), Split(p, '/'));
    RenderIsClean(IsAbs(p), PushAll([], IsAbs(p), Split(p, '/')));
  }

  // ----- The rules of Clean, as path/filepath documents them

  lemma CleanOfParts(a: string, b: string)
    requires a != ""
    ensures Clean(a + "/" + b) ==
      Render(IsAbs(a), PushAll(PushAll([], IsAbs(a), Split(a, '/')), IsAbs(a), Split(b, '/')))
  {
    SplitConcat(a, b, '/');
    PushAllConcat([], IsAbs(a), Split(a, '/'), Split(b, '/'));
    assert IsAbs(a + "/" + b) == IsAbs(a);
  }

  lemma PushFirstOf(stack: seq<string>, rooted: bool, c: string, b: string)
    requires '/' !in c
    ensures PushAll(stack, rooted, Split(c + "/" + b, '/')) == PushAll(Push(stack, rooted, c), rooted, Split(b, '/'))
  {
    SplitNoSep(c, '/');
    SplitConcat(c, b, '/');
    PushAllConcat(stack, rooted, [c], Split(b, '/'));
    assert PushAll(stack, rooted, [c]) == PushAll(Push(stack, rooted, c), rooted, []);
  }

  /** Multiple slashes are one, and "." elements go. */
  lemma CleanDropsDots(a: string, c: string, b: string)
    requires a != "" && (c == "" || c == ".")
    ensures Clean(a + "/" + (c + "/" + b)) == Clean(a + "/" + b)
  {
    CleanOfParts(a, b);
    CleanOfParts(a, c + "/" + b);
    PushFirstOf(PushAll([], IsAbs(a), Split(a, '/')), IsAbs(a), c, b);
  }

  /** An inner ".." goes with the element before it. */
  lemma CleanDropsParent(a: string, name: string, b: string)
    requires a != "" && PlainName(name)
    ensures Clean(a + "/" + (name + "/" + (".." + "/" + b))) == Clean(a + "/" + b)
  {
    CleanOfParts(a, b);
    CleanOfParts(a, name + "/" + (".." + "/" + b));
    PushDown(PushAll([], IsAbs(a), Split(a, '/')), IsAbs(a), name, b);
  }

  lemma PushDown(stack: seq<string>, rooted: bool, name: string, b: string)
    requires PlainName(name)
    ensures PushAll(stack, rooted, Split(name + "/" + (".." + "/" + b), '/')) == PushAll(stack, rooted, Split(b, '/'))
  {
    PushFirstOf(stack, rooted, name, ".." + "/" + b);
    PushFirstOf(stack + [name], rooted, "..", b);
    assert (stack + [name])[..|stack|] == stack;
  }

  /** A ".." at the root goes ... */
  lemma CleanDropsRootParent(b: string)
    ensures Clean("/../" + b) == Clean("/" + b)
  {
    assert "/../" + b == "" + "/" + ("../" + b) && "/" + b == "" + "/" + b && ".." + "/" + b == "../" + b;
    SplitConcat("", "../" + b, '/');
    SplitConcat("", b, '/');
    SplitNoSep("", '/');
    PushFirstOf([], true, "", "../" + b);
    PushFirstOf([], true, "", b);
    PushFirstOf([], true, "..", b);
  }

  /** ... and one at the start of a relative path stays, as in "../../a". */
  lemma CleanKeepsLeadingParents(k: nat, name: string)
    requires PlainName(name)
    ensures IsClean(Join(seq(k, _ => "..") + [name], '/'))
  {
    var stack := seq(k, _ => "..") + [name];
    assert Normal(false, stack);
    RenderIsClean(false, stack);
  }

  /** Cleaning "dir/rest" pushes the components of rest onto dir's stack. */
  lemma CleanBelow(rooted: bool, stack: seq<string>, rest: string)
    requires Normal(rooted, stack)
    ensures Clean(Render(rooted, stack) + "/" + rest) == Render(rooted, PushAll(stack, rooted, Split(rest, '/')))
  {
    var d := Render(rooted, stack);
    var p := d + "/" + rest;
    RenderFirst(rooted, stack);
    assert p[0] == d[0];
    SplitConcat(d, rest, '/');
    PushAllConcat([], rooted, Split(d, '/'), Split(rest, '/'));
    PushRendered(rooted, stack);
  }

  lemma {:induction false} AfterLastSlashAt(a: string, name: string)
    requires '/' !in name
    requires a == "" || a[|a| - 1] == '/'
    ensures AfterLastSlash(a + name) == |a|
  {
    if name == "" {
      assert a + name == a;
    } else {
      var p := a + name;
      assert p[|p| - 1] == name[|name| - 1];
      assert p[..|p| - 1] == a + name[..|name| - 1];
      AfterLastSlashAt(a, name[..|name| - 1]);
    }
  }

  /** Joining a plain name to any directory appends one component ... */
  lemma JoinAnyName(dir: string, name: string) returns (stack: seq<string>)
    requires dir != "" && PlainName(name)
    ensures stack == PushAll([], IsAbs(dir), Split(dir, '/'))
    ensures Normal(IsAbs(dir), stack + [name])
    ensures JoinPath([dir, name]) == Render(IsAbs(dir), stack + [name])
  {
    stack := PushAll([], IsAbs(dir), Split(dir, '/'));
    SplitPieces(dir, '/');
    PushAllNormal([], IsAbs(dir), Split(dir, '/'));
    assert Join([dir, name], '/') == dir + "/" + name;
    SplitConcat(dir, name, '/');
    SplitNoSep(name, '/');
    PushAllConcat([], IsAbs(dir), Split(dir, '/'), [name]);
    assert PushAll(stack, IsAbs(dir), [name]) == stack + [name];
  }

  lemma JoinName(dir: string, name: string) returns (stack: seq<string>)
    requires IsClean(dir) && PlainName(name)
    ensures Normal(IsAbs(dir), stack) && dir == Render(IsAbs(dir), stack)
    ensures Normal(IsAbs(dir), stack + [name])
    ensures JoinPath([dir, name]) == Render(IsAbs(dir), stack + [name])
  {
    stack := CleanStack(dir);
    RenderFirst(IsAbs(dir), stack);
    var same := JoinAnyName(dir, name);
  }

  /** ... and Dir takes it off again: whatever a directory lists is found in
      that same directory. */
  lemma DirOfJoin(dir: string, name: string)
    requires IsClean(dir) && PlainName(name)
    ensures Dir(JoinPath([dir, name])) == dir
  {
    var stack := JoinName(dir, name);
    if stack == [] {
      DirOfTopName(IsAbs(dir), name);
    } else {
      DirOfNestedName(IsAbs(dir), stack, name);
    }
  }

  lemma DirOfTopName(rooted: bool, name: string)
    requires PlainName(name)
    ensures Dir(Render(rooted, [name])) == Render(rooted, [])
  {
    var front := if rooted then "/" else "";
    var p := Render(rooted, [name]);
    assert p == front + name;
    AfterLastSlashAt(front, name);
    assert p[..|front|] == front;
    SplitNoSep("", '/');
    if rooted {
      PushRendered(true, []);
    }
  }

  lemma DirOfNestedName(rooted: bool, stack: seq<string>, name: string)
    requires Normal(rooted, stack) && stack != [] && PlainName(name)
    ensures Dir(Render(rooted, stack + [name])) == Render(rooted, stack)
  {
    var dir := Render(rooted, stack);
    var p := Render(rooted, stack + [name]);
    JoinConcat(stack, [name], '/');
    assert p == (dir + "/") + name;
    AfterLastSlashAt(dir + "/", name);
    assert p[..|dir| + 1] == dir + "/" + "";
    CleanBelow(rooted, stack, "");
    SplitNoSep("", '/');
    assert PushAll(stack, rooted, [""]) == PushAll(stack, rooted, []);
  }

  // ----- Paths beneath a clean directory

  /** The path that `rest` has in a clean directory. */
  function Under(dir: string, rest: string): string {
    if dir == "/" then "/" + rest
    else if dir == "." then rest
    else dir + "/" + rest
  }

  predicate AllPlain(comps: seq<string>) {
    forall i :: 0 <= i < |comps| ==> PlainName(comps[i])
  }

  lemma UnderInjective(dir: string, a: string, b: string)
    requires Under(dir, a) == Under(dir, b)
    ensures a == b
  {
    if dir == "/" {
      assert ("/" + a)[1..] == a && ("/" + b)[1..] == b;
    } else if dir != "." {
      assert (dir + "/" + a)[|dir| + 1..] == a && (dir + "/" + b)[|dir| + 1..] == b;
    }
  }

  lemma PushPlain(stack: seq<string>, rooted: bool, rest: string, slash: bool)
    requires Normal(rooted, stack) && AllPlain(Split(rest, '/'))
    ensures PushAll(stack, rooted, Split(if slash then "/" + rest else rest, '/')) == stack + Split(rest, '/')
  {
    var comps := Split(rest, '/');
    assert Normal(rooted, stack + comps);
    PushAllOfNormal(stack, rooted, comps);
    if slash {
      assert "/" + rest == "" + "/" + rest;
      SplitConcat("", rest, '/');
      SplitNoSep("", '/');
      PushAllConcat(stack, rooted, [""], comps);
      assert PushAll(stack, rooted, [""]) == PushAll(stack, rooted, []);
    }
  }

  lemma RenderNotSpecial(rooted: bool, stack: seq<string>)
    requires Normal(rooted, stack) && stack != []
    ensures Render(rooted, stack) != "/" && Render(rooted, stack) != "."
  {
    assert stack[0] != "" && stack[0] != "." && '/' !in stack[0];
    if rooted {
      assert Render(rooted, stack)[1] == stack[0][0];
    } else if |stack| == 1 {
      assert stack[0][0] in stack[0];
    } else {
      assert |Render(rooted, stack)| > 1;
    }
  }

  lemma RenderUnder(rooted: bool, stack: seq<string>, rest: string)
    requires Normal(rooted, stack)
    ensures Render(rooted, stack + Split(rest, '/')) == Under(Render(rooted, stack), rest)
  {
    if stack == [] {
      assert stack + Split(rest, '/') == Split(rest, '/');
    } else {
      JoinConcat(stack, Split(rest, '/'), '/');
      RenderNotSpecial(rooted, stack);
    }
  }

  /** Joining plain components to a clean directory, with or without a further '/'. */
  lemma JoinPlain(inner: string, rest: string, slash: bool)
    requires IsClean(inner) && AllPlain(Split(rest, '/'))
    ensures JoinPath([inner, if slash then "/" + rest else rest]) == Under(inner, rest)
    ensures IsClean(Under(inner, rest))
  {
    var stack := CleanStack(inner);
    var tail := if slash then "/" + rest else rest;
    RenderFirst(IsAbs(inner), stack);
    assert Join([inner, tail], '/') == inner + "/" + tail;
    CleanBelow(IsAbs(inner), stack, tail);
    PushPlain(stack, IsAbs(inner), rest, slash);
    RenderUnder(IsAbs(inner), stack, rest);
    assert Normal(IsAbs(inner), stack + Split(rest, '/'));
    RenderIsClean(IsAbs(inner), stack + Split(rest, '/'));
  }

  lemma DirIsClean(p: string)
    ensures IsClean(Dir(p))
  {
    CleanIsClean(p[..AfterLastSlash(p)]);
  }

  lemma AbsUnder(dir: string, rest: string)
    requires IsAbs(dir)
    ensures IsAbs(Under(dir, rest))
  {
  }

  /** A plain name joined to a clean directory stands beneath it. */
  lemma JoinPlainName(dir: string, name: string)
    requires IsClean(dir) && PlainName(name)
    ensures JoinPath([dir, name]) == Under(dir, name)
    ensures IsClean(Under(dir, name)) && Dir(Under(dir, name)) == dir
  {
    SplitNoSep(name, '/');
    JoinPlain(dir, name, false);
    DirOfJoin(dir, name);
  }

  /** "../b" from a subdirectory leads to b beside it. */
  lemma JoinParentName(dir: string, sub: string, name: string)
    requires IsClean(dir) && PlainName(sub) && PlainName(name)
    ensures JoinPath([Under(dir, sub), "../" + name]) == Under(dir, name)
  {
    var rooted := IsAbs(dir);
    JoinPlainName(dir, sub);
    JoinPlainName(dir, name);
    var stack := JoinName(dir, sub);
    var same := JoinName(dir, name);
    RenderInjective(rooted, stack, same);
    RenderFirst(rooted, stack + [sub]);
    JoinTwo(Under(dir, sub), "../" + name, '/');
    CleanBelow(rooted, stack + [sub], "../" + name);
    UpAndDown(stack, rooted, sub, name);
  }

  lemma UpAndDown(stack: seq<string>, rooted: bool, sub: string, name: string)
    requires PlainName(sub) && PlainName(name)
    ensures PushAll(stack + [sub], rooted, Split("../" + name, '/')) == stack + [name]
  {
    assert "../" + name == ".." + "/" + name;
    PushFirstOf(stack + [sub], rooted, "..", name);
    assert (stack + [sub])[..|stack|] == stack;
    SplitNoSep(name, '/');
    assert PushAll(stack, rooted, [name]) == PushAll(stack + [name], rooted, []);
  }

  /** Whatever is joined to an absolute directory is absolute. */
  lemma JoinIsAbs(dir: string, rest: string)
    requires IsAbs(dir)
    ensures IsAbs(JoinPath([dir, rest]))
  {
    JoinTwo(dir, rest, '/');
  }

  /** Plain components are pushed as they are. */
  lemma PushPlainComps(stack: seq<string>, rooted: bool, comps: seq<string>)
    requires Normal(rooted, stack) && AllPlain(comps)
    ensures PushAll(stack, rooted, comps) == stack + comps
  {
    assert Normal(rooted, stack + comps);
    PushAllOfNormal(stack, rooted, comps);
  }

  lemma SplitNames(names: seq<string>)
    requires names != [] && AllPlain(names)
    ensures Split(Join(names, '/'), '/') == names
  {
    SplitJoin(names, '/');
  }

  /** The components behind "/a/b/", which ends in an empty one. */
  lemma StackOfDirectory(names: seq<string>, text: string)
    requires names != [] && AllPlain(names) && text == "/" + Join(names, '/') + "/"
    ensures PushAll([], true, Split(text, '/')) == names
  {
    var inner := Join(names, '/');
    SplitNames(names);
    assert text == ("" + "/" + inner) + "/" + "";
    SplitConcat("" + "/" + inner, "", '/');
    SplitConcat("", inner, '/');
    SplitNoSep("", '/');
    assert Split(text, '/') == [""] + names + [""];
    PushAllConcat([], true, [""] + names, [""]);
    PushAllConcat([], true, [""], names);
    PushPlainComps([], true, names);
    assert [] + names == names;
  }

  /** Joining a name to an absolute directory of plain components. */
  lemma JoinBeneathRoot(names: seq<string>, name: string)
    requires names != [] && AllPlain(names) && PlainName(name)
    ensures JoinPath(["/" + Join(names, '/') + "/", name]) == "/" + Join(names, '/') + "/" + name
  {
    var dir := "/" + Join(names, '/') + "/";
    StackOfDirectory(names, dir);
    JoinOnStack(dir, names, name);
  }

  lemma JoinOnStack(dir: string, names: seq<string>, name: string)
    requires IsAbs(dir) && PushAll([], true, Split(dir, '/')) == names && names != [] && PlainName(name)
    ensures JoinPath([dir, name]) == "/" + Join(names, '/') + "/" + name
  {
    var stack := JoinAnyName(dir, name);
    JoinConcat(names, [name], '/');
    assert "/" + (Join(names, '/') + "/" + name) == "/" + Join(names, '/') + "/" + name;
  }

  lemma ThreeElements(a: string, b: string, c: string)
    requires a != ""
    ensures JoinPath([a, b, c]) == JoinPath([a + "/" + b, c])
  {
    assert [a, b, c][1..] == [b, c] && [b, c][1..] == [c];
    assert Join([b, c], '/') == b + "/" + c;
    assert Join([a, b, c], '/') == a + "/" + (b + "/" + c);
    var ab := a + "/" + b;
    assert Join([ab, c], '/') == ab + "/" + c;
    assert ab + "/" + c == a + "/" + (b + "/" + c);
    assert [ab, c][0] != "";
  }

  /** The same in two parts, the second of which is absolute by itself. */
  lemma JoinTwoBeneathRoot(names: seq<string>, more: seq<string>, first: string, second: string, name: string)
    requires names != [] && AllPlain(names) && more != [] && AllPlain(more) && PlainName(name)
    requires first == "/" + Join(names, '/') + "/" && second == "/" + Join(more, '/')
    ensures JoinPath([first, second, name]) == "/" + Join(names + more, '/') + "/" + name
  {
    ThreeElements(first, second, name);
    StackOfParts(names, more, first + "/" + second);
    JoinOnStack(first + "/" + second, names + more, name);
  }

  lemma StackOfParts(names: seq<string>, more: seq<string>, text: string)
    requires names != [] && AllPlain(names) && more != [] && AllPlain(more)
    requires text == ("/" + Join(names, '/') + "/") + "/" + ("/" + Join(more, '/'))
    ensures PushAll([], true, Split(text, '/')) == names + more
  {
    var first := "/" + Join(names, '/') + "/";
    StackOfDirectory(names, first);
    SplitConcat(first, "/" + Join(more, '/'), '/');
    assert "/" + Join(more, '/') == "" + "/" + Join(more, '/');
    SplitConcat("", Join(more, '/'), '/');
    SplitNoSep("", '/');
    SplitNames(more);
    PushAllConcat([], true, Split(first, '/'), [""] + more);
    PushAllConcat(names, true, [""], more);
    assert Normal(true, names);
    PushPlainComps(names, true, more);
    assert PushAll(names, true, [""]) == PushAll(names, true, []);
  }
}
