/** cli/docker.go, lines 695-703: where a bind from the host's /usr/lib directory
    is mounted in the inner container. */
module Remap {
  import opened GoText
  import opened GoPath

  function Remapped(hostUsrLibDir: string, innerUsrLibDir: string, path: string): string {
    if HasPrefix(path, hostUsrLibDir) then
      JoinPath([innerUsrLibDir, TrimPrefix(path, TrimSuffix(hostUsrLibDir, "/"))])
    else path
  }

  lemma CleanPathComponents(p: string) returns (stack: seq<string>)
    requires IsClean(p) && IsAbs(p) && p != "/"
    ensures AllPlain(stack) && Split(p, '/') == [""] + stack
  {
    stack := CleanStack(p);
    NormalHasNoSlash(true, stack);
    SplitJoin(stack, '/');
    assert p == "" + "/" + Join(stack, '/');
    SplitConcat("", Join(stack, '/'), '/');
    SplitNoSep("", '/');
  }

  lemma TrailingSlashSplits(front: string)
    requires HasSuffix(front, "/")
    ensures var a := Split(front, '/'); |a| >= 2 && a[|a| - 1] == ""
  {
    var before := front[..|front| - 1];
    assert front == before + "/" + "";
    SplitConcat(before, "", '/');
    SplitNoSep("", '/');
  }

  lemma NoTrailingSlash(front: string, a: seq<string>)
    requires a == Split(front, '/') && (|a| >= 2 ==> a[|a| - 1] != "")
    ensures !HasSuffix(front, "/")
  {
    if HasSuffix(front, "/") {
      TrailingSlashSplits(front);
    }
  }

  lemma SuffixOfPlain(a: seq<string>, b: seq<string>, stack: seq<string>)
    requires a != [] && a + b == [""] + stack && AllPlain(stack)
    ensures AllPlain(b)
    ensures |a| >= 2 ==> a[|a| - 1] != ""
  {
    forall i | 0 <= i < |b| ensures PlainName(b[i]) {
      assert b[i] == (a + b)[|a| + i] == ([""] + stack)[|a| + i];
    }
    assert (a + b)[|a| - 1] == ([""] + stack)[|a| - 1];
  }

  lemma SplitAroundSlash(front: string, rest: string) returns (stack: seq<string>)
    requires IsClean(front + "/" + rest) && IsAbs(front + "/" + rest) && rest != ""
    ensures AllPlain(stack) && Split(front, '/') + Split(rest, '/') == [""] + stack
  {
    assert |front + "/" + rest| >= 2;
    stack := CleanPathComponents(front + "/" + rest);
    SplitConcat(front, rest, '/');
  }

  lemma PiecesAroundSlash(front: string, rest: string, a: seq<string>, b: seq<string>)
    requires IsClean(front + "/" + rest) && IsAbs(front + "/" + rest) && rest != ""
    requires a == Split(front, '/') && b == Split(rest, '/')
    ensures AllPlain(b)
    ensures |a| >= 2 ==> a[|a| - 1] != ""
  {
    var stack := SplitAroundSlash(front, rest);
    SuffixOfPlain(a, b, stack);
  }

  /** The components after a '/' in a clean absolute path are plain, and the text
      before it does not end in another '/'. */
  lemma BelowInCleanPath(front: string, rest: string)
    requires IsClean(front + "/" + rest) && IsAbs(front + "/" + rest) && rest != ""
    ensures AllPlain(Split(rest, '/'))
    ensures !HasSuffix(front, "/")
  {
    PiecesAroundSlash(front, rest, Split(front, '/'), Split(rest, '/'));
    NoTrailingSlash(front, Split(front, '/'));
  }

  /** Every clean path strictly beneath the host directory lands at the same place
      beneath a clean inner directory, whether or not the host directory is given
      with a trailing slash. */
  lemma BeneathIsRemapped(host: string, inner: string, rest: string)
    requires IsClean(inner) && rest != ""
    requires IsClean(host + "/" + rest) && IsAbs(host + "/" + rest)
    ensures Remapped(host, inner, host + "/" + rest) == Under(inner, rest)
    ensures Remapped(host + "/", inner, host + "/" + rest) == Under(inner, rest)
    ensures IsClean(Under(inner, rest))
  {
    BelowInCleanPath(host, rest);
    JoinPlain(inner, rest, true);
    SpellingsOfBeneath(host, inner, rest);
  }

  lemma SpellingsOfBeneath(host: string, inner: string, rest: string)
    requires !HasSuffix(host, "/")
    ensures Remapped(host, inner, host + "/" + rest) == JoinPath([inner, "/" + rest])
    ensures Remapped(host + "/", inner, host + "/" + rest) == JoinPath([inner, "/" + rest])
  {
    var p := host + "/" + rest;
    assert HasPrefix(p, host) && p[|host|..] == "/" + rest;
    assert HasPrefix(p, host + "/");
    assert TrimSuffix(host + "/", "/") == host;
  }

  /** On such paths the remap is injective. */
  lemma BeneathIsInjective(host: string, inner: string, a: string, b: string)
    requires IsClean(inner) && a != "" && b != ""
    requires IsClean(host + "/" + a) && IsAbs(host + "/" + a)
    requires IsClean(host + "/" + b) && IsAbs(host + "/" + b)
    requires Remapped(host, inner, host + "/" + a) == Remapped(host, inner, host + "/" + b)
    ensures a == b
  {
    BeneathIsRemapped(host, inner, a);
    BeneathIsRemapped(host, inner, b);
    UnderInjective(inner, a, b);
  }

  /** A path that merely starts with the text of the host directory (a sibling such
      as /usr/lib64 of /usr/lib) is remapped too if the directory is given without
      a trailing slash: it takes the place of the path beneath with the same rest. */
  lemma SiblingsCollide(host: string, inner: string, rest: string)
    requires IsClean(inner) && AllPlain(Split(rest, '/'))
    requires host != "" && !HasSuffix(host, "/")
    ensures Remapped(host, inner, host + rest) == Under(inner, rest) == Remapped(host, inner, host + "/" + rest)
    ensures Remapped(host + "/", inner, host + rest) == host + rest
  {
    JoinPlain(inner, rest, false);
    JoinPlain(inner, rest, true);
    SpellingsOfBeneath(host, inner, rest);
    PlainRestHasNoSlashFirst(rest);
    SpellingsOfSibling(host, inner, rest);
  }

  lemma SpellingsOfSibling(host: string, inner: string, rest: string)
    requires !HasSuffix(host, "/") && rest != "" && rest[0] != '/'
    ensures Remapped(host, inner, host + rest) == JoinPath([inner, rest])
    ensures Remapped(host + "/", inner, host + rest) == host + rest
  {
    assert TrimPrefix(host + rest, host) == rest;
    assert (host + rest)[|host|] == rest[0] && (host + "/")[|host|] == '/';
  }

  lemma PlainRestHasNoSlashFirst(rest: string)
    requires AllPlain(Split(rest, '/'))
    ensures rest != "" && rest[0] != '/'
  {
    assert PlainName(Split(rest, '/')[0]);
  }

  lemma UnderIsNotSpliced(inner: string, host: string, rest: string)
    requires IsClean(inner) && host != "" && !HasSuffix(host, "/")
    ensures Under(inner, rest) != host + rest
  {
    var front := if inner == "/" then "/" else if inner == "." then "" else inner + "/";
    assert Under(inner, rest) == front + rest;
    if |front| == |host| {
      assert (front + rest)[|host| - 1] == '/' && (host + rest)[|host| - 1] == host[|host| - 1];
      assert host[|host| - 1..] == [host[|host| - 1]];
    } else {
      assert |front + rest| != |host + rest|;
    }
  }

  /** A path that does not start with the host directory's text is left alone. */
  lemma OthersAreLeftAlone(host: string, inner: string, p: string)
    requires |p| < |host| || exists i :: 0 <= i < |host| && p[i] != host[i]
    ensures Remapped(host, inner, p) == p
  {
  }

  // ----- When the two spellings of the host directory agree

  /** What stands before the first '/'. */
  function FirstComponent(p: string): string {
    Split(p, '/')[0]
  }

  /** A clean absolute path consists of the host directory's text, spliced with the
      first component of what follows, and of plain components. */
  lemma SplicedStack(spliced: string, more: seq<string>, p: string) returns (stack: seq<string>)
    requires IsClean(p) && IsAbs(p) && p != "/"
    requires spliced != "" && Split(p, '/') == Split(spliced, '/') + more
    ensures AllPlain(more) && Normal(true, stack) && Normal(true, stack + more)
    ensures spliced == Render(true, stack) && p == Render(true, stack + more)
  {
    var all := CleanPathComponents(p);
    var parts := Split(spliced, '/');
    SuffixOfPlain(parts, more, all);
    stack := parts[1..];
    assert parts[0] == (parts + more)[0] == "" && parts == [""] + stack;
    assert all == ([""] + all)[1..] == (parts + more)[1..] == stack + more;
    assert AllPlain(stack) by {
      forall i | 0 <= i < |stack| ensures PlainName(stack[i]) { assert stack[i] == all[i]; }
    }
    RenderedComponents(stack, spliced);
    RenderedComponents(stack + more, p);
    assert [""] + (stack + more) == parts + more;
  }

  lemma RenderedComponents(stack: seq<string>, p: string)
    requires Split(p, '/') == [""] + stack && p != ""
    ensures p == Render(true, stack)
  {
    assert p == Join([""] + stack, '/');
    assert ([""] + stack)[1..] == stack;
  }

  /** The components of p: those of the host directory's text and its splice, and
      those behind the splice. */
  lemma SplitSpliced(host: string, rest: string) returns (more: seq<string>)
    ensures Split(rest, '/') == [FirstComponent(rest)] + more
    ensures Split(host + rest, '/') == Split(host + FirstComponent(rest), '/') + more
  {
    var first := FirstComponent(rest);
    more := Split(rest, '/')[1..];
    assert Split(rest, '/') == [first] + more;
    FirstPieceIff(rest, first, '/');
    if rest == first {
      SplitNoSep(rest, '/');
    } else {
      var tail := rest[|first| + 1..];
      assert rest == first + "/" + tail;
      SplitConcat(first, tail, '/');
      SplitNoSep(first, '/');
      assert host + rest == (host + first) + "/" + tail;
      SplitConcat(host + first, tail, '/');
    }
  }

  /** Joining any text to a directory puts its first component on the directory's
      stack, and behind it the rest if that is plain. */
  lemma JoinSpliced(inner: string, rest: string, more: seq<string>) returns (stack: seq<string>)
    requires inner != "" && AllPlain(more) && Split(rest, '/') == [FirstComponent(rest)] + more
    ensures Normal(IsAbs(inner), stack) && Normal(IsAbs(inner), stack + more)
    ensures JoinPath([inner, FirstComponent(rest)]) == Render(IsAbs(inner), stack)
    ensures JoinPath([inner, rest]) == Render(IsAbs(inner), stack + more)
  {
    stack := CleanJoined(inner, FirstComponent(rest));
    var whole := CleanJoined(inner, rest);
    SplitFirst(rest);
    PushedBehindFirst(IsAbs(inner), Split(inner, '/'), FirstComponent(rest), more);
    PushAllOfNormal(stack, IsAbs(inner), more);
  }

  lemma PushedBehindFirst(rooted: bool, dirs: seq<string>, first: string, more: seq<string>)
    ensures PushAll([], rooted, dirs + ([first] + more)) == PushAll(PushAll([], rooted, dirs + [first]), rooted, more)
  {
    PushAllConcat([], rooted, dirs + [first], more);
    assert dirs + [first] + more == dirs + ([first] + more);
  }

  lemma SplitFirst(rest: string)
    ensures Split(FirstComponent(rest), '/') == [FirstComponent(rest)]
  {
    FirstPieceIff(rest, FirstComponent(rest), '/');
    SplitNoSep(FirstComponent(rest), '/');
  }

  lemma CleanJoined(inner: string, rest: string) returns (stack: seq<string>)
    requires inner != ""
    ensures stack == PushAll([], IsAbs(inner), Split(inner, '/') + Split(rest, '/'))
    ensures Normal(IsAbs(inner), stack) && JoinPath([inner, rest]) == Render(IsAbs(inner), stack)
  {
    stack := PushAll([], IsAbs(inner), Split(inner, '/') + Split(rest, '/'));
    JoinTwo(inner, rest, '/');
    SplitConcat(inner, rest, '/');
    SplitPieces(inner + "/" + rest, '/');
    PushAllNormal([], IsAbs(inner), Split(inner + "/" + rest, '/'));
    assert IsAbs(inner + "/" + rest) == IsAbs(inner);
  }

  /** For a path that starts with the text of the host directory but is not beneath
      it, only the splice with the first component decides. */
  lemma SplicedRemapIsIdentityIff(host: string, inner: string, rest: string)
    requires inner != "" && host != "" && host + rest != "/"
    requires IsClean(host + rest) && IsAbs(host + rest)
    ensures JoinPath([inner, rest]) == host + rest <==>
      JoinPath([inner, FirstComponent(rest)]) == host + FirstComponent(rest)
  {
    var rooted := IsAbs(inner);
    var more := SplitSpliced(host, rest);
    var a := SplicedStack(host + FirstComponent(rest), more, host + rest);
    var b := JoinSpliced(inner, rest, more);
    RenderFirst(true, a);
    RenderFirst(true, a + more);
    RenderFirst(rooted, b);
    RenderFirst(rooted, b + more);
    if rooted {
      SameEndIff(a, b, more);
    }
  }

  lemma SameEndIff(a: seq<string>, b: seq<string>, more: seq<string>)
    requires Normal(true, a) && Normal(true, b) && Normal(true, a + more) && Normal(true, b + more)
    ensures Render(true, a + more) == Render(true, b + more) <==> Render(true, a) == Render(true, b)
  {
    if Render(true, a + more) == Render(true, b + more) {
      RenderInjective(true, a + more, b + more);
      assert a == (a + more)[..|a + more| - |more|];
      assert b == (b + more)[..|b + more| - |more|];
    }
    if Render(true, a) == Render(true, b) {
      RenderInjective(true, a, b);
    }
  }

  lemma SpellingsOfSpliced(host: string, inner: string, p: string)
    requires host != "" && !HasSuffix(host, "/") && HasPrefix(p, host) && !HasPrefix(p, host + "/")
    ensures Remapped(host, inner, p) == JoinPath([inner, p[|host|..]])
    ensures Remapped(host + "/", inner, p) == p
  {
  }

  lemma SpellingsOfBelow(host: string, inner: string, p: string)
    requires host != "" && !HasSuffix(host, "/") && HasPrefix(p, host + "/")
    ensures Remapped(host, inner, p) == Remapped(host + "/", inner, p)
  {
    assert host <= host + "/" <= p;
    assert TrimSuffix(host + "/", "/") == host;
  }

  /** Exactly when the two spellings of the host directory agree, for every clean
      absolute path that starts with its text: the path is beneath it, or joining
      the first component that follows to the inner directory happens to give the
      same as splicing it to the host directory. */
  lemma SpellingsAgreeIff(host: string, inner: string, p: string)
    requires inner != "" && host != "" && !HasSuffix(host, "/")
    requires HasPrefix(p, host) && IsClean(p) && IsAbs(p)
    ensures var first := FirstComponent(p[|host|..]);
      Remapped(host, inner, p) == Remapped(host + "/", inner, p) <==>
        HasPrefix(p, host + "/") || JoinPath([inner, first]) == host + first
  {
    var rest := p[|host|..];
    assert p == host + rest;
    if HasPrefix(p, host + "/") {
      SpellingsOfBelow(host, inner, p);
    } else {
      SpellingsOfSpliced(host, inner, p);
      assert p == "/" ==> host == "/";
      SplicedRemapIsIdentityIff(host, inner, rest);
    }
  }

  /** So unless the name goes on with nothing but one or two dots, they agree exactly
      on what is beneath. */
  lemma SpellingsAgreeIffBeneath(host: string, inner: string, p: string)
    requires inner != "" && host != "" && !HasSuffix(host, "/")
    requires HasPrefix(p, host) && IsClean(p) && IsAbs(p) && p != host
    requires FirstComponent(p[|host|..]) != "." && FirstComponent(p[|host|..]) != ".."
    ensures Remapped(host, inner, p) == Remapped(host + "/", inner, p) <==> HasPrefix(p, host + "/")
  {
    var rest := p[|host|..];
    var first := FirstComponent(rest);
    SpellingsAgreeIff(host, inner, p);
    if !HasPrefix(p, host + "/") {
      FirstIsPlain(host, p);
      PlainSpliceDiffers(host, inner, first);
    }
  }

  lemma FirstIsPlain(host: string, p: string)
    requires HasPrefix(p, host) && p != host && !HasPrefix(p, host + "/")
    ensures var first := FirstComponent(p[|host|..]); first != "" && '/' !in first
  {
    var rest := p[|host|..];
    FirstPieceIff(rest, FirstComponent(rest), '/');
    assert p == host + rest;
    PrefixBehind(host, rest);
  }

  lemma PrefixBehind(host: string, rest: string)
    ensures HasPrefix(host + rest, host + "/") <==> HasPrefix(rest, "/")
  {
    assert (host + rest)[|host|..] == rest && (host + "/")[|host|..] == "/";
    assert HasPrefix(rest, "/") ==> host + rest == (host + "/") + rest[1..];
  }

  lemma PlainSpliceDiffers(host: string, inner: string, first: string)
    requires inner != "" && host != "" && !HasSuffix(host, "/") && PlainName(first)
    ensures JoinPath([inner, first]) != host + first
  {
    CleanIsClean(inner);
    SplitNoSep(first, '/');
    var stack := JoinAnyName(inner, first);
    SplitPieces(inner, '/');
    PushAllNormal([], IsAbs(inner), Split(inner, '/'));
    RenderUnder(IsAbs(inner), stack, first);
    UnderIsNotSpliced(Clean(inner), host, first);
  }

  /** The host directory itself is remapped by one spelling only, so they agree on it
      exactly if it is remapped to itself. */
  lemma SpellingsAgreeOnHostIff(host: string, inner: string)
    requires inner != "" && host != "" && !HasSuffix(host, "/") && IsClean(host) && IsAbs(host)
    ensures Remapped(host, inner, host) == Remapped(host + "/", inner, host) <==> Clean(inner) == host
  {
    SpellingsAgreeIff(host, inner, host);
    assert host[|host|..] == "";
    assert !HasPrefix(host, host + "/");
    JoinTwo(inner, "", '/');
    SplitConcat(inner, "", '/');
    PushAllConcat([], IsAbs(inner), Split(inner, '/'), [""]);
    var stack := PushAll([], IsAbs(inner), Split(inner, '/'));
    assert PushAll(stack, IsAbs(inner), [""]) == PushAll(stack, IsAbs(inner), []);
    assert host + "" == host;
  }
}
