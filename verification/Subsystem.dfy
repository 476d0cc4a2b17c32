/** cli/docker.go, defaultContainerEnvs: the agent's environment, in which the list
    of subsystems is tidied up and always names envbox. */
module Subsystem {
  import opened GoText
  import opened FiniteSets

  const TOKEN_ENV := "CODER_AGENT_TOKEN="
  const SUBSYSTEM_ENV := "CODER_AGENT_SUBSYSTEM="
  const ENVBOX := "envbox"

  // ----- The order of sort.Strings

  /** Byte order, which for UTF-8 texts is the order of the code points. */
  predicate Before(a: string, b: string) {
    b != "" && (a == "" || a[0] < b[0] || (a[0] == b[0] && Before(a[1..], b[1..])))
  }

  /** The texts agree up to k, and there a ends or has the smaller character. */
  predicate DiffersAt(a: string, b: string, k: nat) {
    && k <= |a| && k < |b| && a[..k] == b[..k]
    && (k == |a| || a[k] < b[k])
  }

  lemma {:induction false} BeforeIff(a: string, b: string)
    ensures Before(a, b) <==> exists k: nat :: DiffersAt(a, b, k)
  {
    if b == "" {
    } else if a == "" || a[0] < b[0] {
      assert DiffersAt(a, b, 0);
    } else if a[0] == b[0] {
      BeforeIff(a[1..], b[1..]);
      if k: nat :| DiffersAt(a[1..], b[1..], k) {
        assert a[..k + 1] == [a[0]] + a[1..][..k] && b[..k + 1] == [b[0]] + b[1..][..k];
        assert DiffersAt(a, b, k + 1);
      }
      if k: nat :| DiffersAt(a, b, k) {
        assert k > 0;
        assert a[1..][..k - 1] == a[..k][1..] && b[1..][..k - 1] == b[..k][1..];
        assert DiffersAt(a[1..], b[1..], k - 1);
      }
    } else {
      forall k: nat ensures !DiffersAt(a, b, k) {
        assert k > 0 && k <= |a| && k <= |b| ==> a[..k][0] == a[0] && b[..k][0] == b[0];
      }
    }
  }

  lemma {:induction false} BeforeIsTransitive(a: string, b: string, c: string)
    requires Before(a, b) && Before(b, c)
    ensures Before(a, c)
  {
    if a != "" && a[0] == b[0] == c[0] {
      BeforeIsTransitive(a[1..], b[1..], c[1..]);
    }
  }

  lemma {:induction false} BeforeIsTotal(a: string, b: string)
    ensures !(Before(a, b) && Before(b, a))
    ensures a == b || Before(a, b) || Before(b, a)
    ensures !Before(a, a)
  {
    if a != "" {
      BeforeIsTotal(a[1..], if b == "" then "" else b[1..]);
      if b != "" && a[0] == b[0] && a[1..] == b[1..] {
        assert a == [a[0]] + a[1..] == b;
      }
    }
  }

  predicate StrictlySorted(s: seq<string>) {
    forall i, j :: 0 <= i < j < |s| ==> Before(s[i], s[j])
  }

  /** Every member of the list comes before x. */
  predicate AllBefore(s: seq<string>, x: string) {
    forall i :: 0 <= i < |s| ==> Before(s[i], x)
  }

  function Insert(s: seq<string>, x: string): seq<string> {
    if s != [] && Before(x, s[|s| - 1]) then Insert(s[..|s| - 1], x) + [s[|s| - 1]] else s + [x]
  }

  lemma {:induction false} InsertSorts(s: seq<string>, x: string)
    requires StrictlySorted(s) && x !in s
    ensures StrictlySorted(Insert(s, x)) && Elements(Insert(s, x)) == Elements(s) + {x}
    ensures forall y :: AllBefore(s, y) && Before(x, y) ==> AllBefore(Insert(s, x), y)
  {
    if s != [] {
      var front, last := s[..|s| - 1], s[|s| - 1];
      assert s == front + [last];
      if Before(x, last) {
        InsertSorts(front, x);
        assert AllBefore(front, last);
        forall y | AllBefore(s, y) && Before(x, y) ensures AllBefore(Insert(s, x), y) {
          assert AllBefore(front, y);
          assert Before(s[|s| - 1], y);
        }
      } else {
        BeforeIsTotal(x, last);
        assert x != s[|s| - 1];
        forall i | 0 <= i < |s| ensures Before(s[i], x) {
          if i < |s| - 1 { BeforeIsTransitive(s[i], last, x); }
        }
      }
    }
  }

  /** sort.Strings. With distinct strings the order leaves nothing open, see
      SortedListIsUnique. */
  function Sort(s: seq<string>): seq<string> {
    if s == [] then [] else Insert(Sort(s[..|s| - 1]), s[|s| - 1])
  }

  lemma {:induction false} SortSorts(s: seq<string>)
    requires NoDuplicates(s)
    ensures StrictlySorted(Sort(s)) && Elements(Sort(s)) == Elements(s)
  {
    if s != [] {
      var front, last := s[..|s| - 1], s[|s| - 1];
      SortSorts(front);
      assert s == front + [last];
      assert last in Sort(front) ==> last in Elements(front);
      InsertSorts(Sort(front), last);
    }
  }

  /** A set has only one strictly sorted list. */
  lemma {:induction false} SortedListIsUnique(a: seq<string>, b: seq<string>)
    requires StrictlySorted(a) && StrictlySorted(b) && Elements(a) == Elements(b)
    ensures a == b
  {
    if a != [] && b != [] {
      var x, y := a[|a| - 1], b[|b| - 1];
      LastIsGreatest(a, b);
      LastIsGreatest(b, a);
      BeforeIsTotal(x, y);
      DropLast(a);
      DropLast(b);
      SortedListIsUnique(a[..|a| - 1], b[..|b| - 1]);
      assert a == a[..|a| - 1] + [x] && b == b[..|b| - 1] + [y];
    } else {
      NoElementsIff(a);
      NoElementsIff(b);
    }
  }

  lemma NoElementsIff(s: seq<string>)
    ensures Elements(s) == {} <==> s == []
  {
    assert s != [] ==> s[0] in Elements(s);
  }

  lemma LastIsGreatest(a: seq<string>, b: seq<string>)
    requires StrictlySorted(a) && a != [] && b != [] && Elements(b) <= Elements(a)
    ensures b[|b| - 1] == a[|a| - 1] || Before(b[|b| - 1], a[|a| - 1])
  {
    assert b[|b| - 1] in Elements(a);
  }

  lemma DropLast(s: seq<string>)
    requires StrictlySorted(s) && s != []
    ensures StrictlySorted(s[..|s| - 1]) && Elements(s[..|s| - 1]) == Elements(s) - {s[|s| - 1]}
  {
    var front, last := s[..|s| - 1], s[|s| - 1];
    assert s == front + [last];
    forall i | 0 <= i < |front| ensures front[i] != last {
      BeforeIsTotal(front[i], last);
      assert Before(s[i], s[|s| - 1]);
    }
  }

  // ----- The list of subsystems

  /** The trimmed non-empty pieces. */
  ghost function Kept(pieces: seq<string>): set<string> {
    set i | 0 <= i < |pieces| && TrimSpace(pieces[i]) != "" :: TrimSpace(pieces[i])
  }

  /** The entries of a comma-separated list. */
  ghost function Entries(existing: string): set<string> {
    Kept(Split(existing, ','))
  }

  /** The value is the strictly sorted comma-separated list of the existing
      entries and envbox. */
  ghost predicate IsSubsystem(value: string, existing: string) {
    && StrictlySorted(Split(value, ','))
    && Elements(Split(value, ',')) == Entries(existing) + {ENVBOX}
  }

  /** A name that can stand in the list. */
  predicate IsEntry(e: string) {
    e != "" && Trimmed(e) && ',' !in e
  }

  lemma EntriesAreTidy(existing: string)
    ensures forall e :: e in Entries(existing) ==> IsEntry(e)
  {
    var pieces := Split(existing, ',');
    SplitPieces(existing, ',');
    forall e | e in Entries(existing) ensures IsEntry(e) {
      var i :| 0 <= i < |pieces| && TrimSpace(pieces[i]) == e && e != "";
      TrimSpaceIsTrimmed(pieces[i]);
    }
  }

  predicate AllTidy(names: seq<string>) {
    forall i :: 0 <= i < |names| ==> IsEntry(names[i])
  }

  /** Joining tidy names and splitting the list again gives the names. */
  lemma SplitTidyNames(names: seq<string>)
    requires names != [] && AllTidy(names)
    ensures Split(Join(names, ','), ',') == names
  {
    SplitJoin(names, ',');
  }

  lemma TidyNamesAreKept(names: seq<string>)
    requires AllTidy(names)
    ensures Kept(names) == Elements(names)
  {
    forall i | 0 <= i < |names| ensures TrimSpace(names[i]) == names[i] {
      TrimmedIsFixed(names[i]);
    }
    forall e | e in Elements(names) ensures e in Kept(names) {
      var i :| 0 <= i < |names| && names[i] == e;
    }
  }

  /** No entry of the value is empty or untrimmed, and reading the value gives
      back what was put in. */
  lemma SubsystemIsTidy(value: string, existing: string)
    requires IsSubsystem(value, existing)
    ensures value != "" && AllTidy(Split(value, ','))
    ensures Entries(value) == Entries(existing) + {ENVBOX}
  {
    TidyElements(Split(value, ','), existing);
    TidyNamesAreKept(Split(value, ','));
    assert value == "" ==> !IsEntry(Split(value, ',')[0]);
  }

  lemma TidyElements(names: seq<string>, existing: string)
    requires Elements(names) == Entries(existing) + {ENVBOX}
    ensures names != [] && AllTidy(names)
  {
    EntriesAreTidy(existing);
    assert ENVBOX in Elements(names);
    forall i | 0 <= i < |names| ensures IsEntry(names[i]) {
      assert names[i] in Elements(names);
    }
  }

  /** The existing entries alone determine the value, not their order, repetitions
      or white space. */
  lemma SubsystemIsUnique(v: string, w: string, existing: string, other: string)
    requires IsSubsystem(v, existing) && IsSubsystem(w, other)
    ensures v == w <==> Entries(existing) + {ENVBOX} == Entries(other) + {ENVBOX}
  {
    if Entries(existing) + {ENVBOX} == Entries(other) + {ENVBOX} {
      SortedListIsUnique(Split(v, ','), Split(w, ','));
      assert v == Join(Split(v, ','), ',');
    }
  }

  /** Recomputing the value from itself changes nothing. */
  lemma SubsystemIsStable(value: string, existing: string, again: string)
    requires IsSubsystem(value, existing) && IsSubsystem(again, value)
    ensures again == value
  {
    SubsystemIsTidy(value, existing);
    assert Entries(existing) + {ENVBOX} + {ENVBOX} == Entries(existing) + {ENVBOX};
    SubsystemIsUnique(value, again, existing, value);
  }

  lemma KeepOne(pieces: seq<string>, n: nat)
    requires n < |pieces|
    ensures Kept(pieces[..n + 1]) ==
      Kept(pieces[..n]) + if TrimSpace(pieces[n]) == "" then {} else {TrimSpace(pieces[n])}
  {
    var more, less := pieces[..n + 1], pieces[..n];
    assert more == less + [pieces[n]];
    forall e | e in Kept(more) ensures e in Kept(less) || e == TrimSpace(pieces[n]) {
      var i :| 0 <= i < |more| && TrimSpace(more[i]) == e && e != "";
      assert i < n ==> less[i] == more[i];
    }
    forall e | e in Kept(less) ensures e in Kept(more) {
      var i :| 0 <= i < |less| && TrimSpace(less[i]) == e && e != "";
      assert more[i] == less[i];
    }
    assert more[n] == pieces[n];
  }

  /** The trimmed non-empty pieces, each once, in order of appearance. */
  method TidyUp(pieces: seq<string>) returns (tidy: seq<string>)
    ensures NoDuplicates(tidy) && Elements(tidy) == Kept(pieces)
  {
    tidy := [];
    var seen: set<string> := {};
    for n := 0 to |pieces|
      invariant NoDuplicates(tidy) && Elements(tidy) == seen == Kept(pieces[..n])
    {
      var s := TrimSpace(pieces[n]);
      KeepOne(pieces, n);
      if s == "" || s in seen {
        continue;
      }
      seen := seen + {s};
      assert s in tidy ==> s in Elements(tidy);
      tidy := tidy + [s];
    }
    assert pieces[..|pieces|] == pieces;
  }

  method AgentSubsystem(existing: string) returns (value: string)
    ensures IsSubsystem(value, existing)
  {
    value := ENVBOX;
    TrimmedIsFixed(ENVBOX);
    if existing != "" {
      var split := Split(existing, ',') + [ENVBOX];
      var tidy := TidyUp(split);
      SortSorts(tidy);
      tidy := Sort(tidy);
      KeepOne(split, |split| - 1);
      assert split[..|split| - 1] == Split(existing, ',') && split[..|split|] == split;
      value := Join(tidy, ',');
      TidyElements(tidy, existing);
      SplitTidyNames(tidy);
    } else {
      assert Split(ENVBOX, ',') == [ENVBOX] by { SplitNoSep(ENVBOX, ','); }
      assert Entries("") == {} by { assert TrimSpace("") == ""; }
    }
  }

  // ----- The environment

  /** The value of the first CODER_AGENT_SUBSYSTEM entry, or nothing. */
  function Existing(env: seq<string>): string {
    if env == [] then ""
    else if HasPrefix(env[0], SUBSYSTEM_ENV) then TrimPrefix(env[0], SUBSYSTEM_ENV)
    else Existing(env[1..])
  }

  predicate NoneSet(env: seq<string>) {
    forall i :: 0 <= i < |env| ==> !HasPrefix(env[i], SUBSYSTEM_ENV)
  }

  /** It is the first one, and nothing if there is none. */
  lemma {:induction false} FirstWins(before: seq<string>, value: string, after: seq<string>)
    requires NoneSet(before)
    ensures Existing(before) == ""
    ensures Existing(before + [SUBSYSTEM_ENV + value] + after) == value
  {
    var env := before + [SUBSYSTEM_ENV + value] + after;
    if before != [] {
      assert env[1..] == before[1..] + [SUBSYSTEM_ENV + value] + after;
      FirstWins(before[1..], value, after);
    }
  }

  /** The two variables the inner container always gets. */
  ghost predicate IsDefaultEnv(r: seq<string>, env: seq<string>, agentToken: string) {
    && |r| == 2 && r[0] == TOKEN_ENV + agentToken
    && HasPrefix(r[1], SUBSYSTEM_ENV) && IsSubsystem(TrimPrefix(r[1], SUBSYSTEM_ENV), Existing(env))
  }

  method DefaultContainerEnvs(env: seq<string>, agentToken: string) returns (r: seq<string>)
    ensures IsDefaultEnv(r, env, agentToken)
  {
    var existing := "";
    for n := 0 to |env|
      invariant existing == "" && Existing(env) == Existing(env[n..])
    {
      assert env[n..][1..] == env[n + 1..];
      if HasPrefix(env[n], SUBSYSTEM_ENV) {
        existing := TrimPrefix(env[n], SUBSYSTEM_ENV);
        break;
      }
    }
    assert existing == Existing(env);
    var value := AgentSubsystem(existing);
    r := [TOKEN_ENV + agentToken, SUBSYSTEM_ENV + value];
    assert TrimPrefix(r[1], SUBSYSTEM_ENV) == value;
  }

  /** An envbox inside an envbox passes the same subsystems on, whatever else is in
      its environment and whatever its token. */
  lemma NestedEnvboxAgrees(env: seq<string>, token: string, outer: seq<string>,
                           more: seq<string>, inner: seq<string>, innerToken: string)
    requires IsDefaultEnv(outer, env, token)
    requires IsDefaultEnv(inner, outer + more, innerToken)
    ensures inner[1] == outer[1]
  {
    var v, w := TrimPrefix(outer[1], SUBSYSTEM_ENV), TrimPrefix(inner[1], SUBSYSTEM_ENV);
    OwnEntryIsFirst(outer, more, token);
    SubsystemIsStable(v, Existing(env), w);
    assert outer[1] == SUBSYSTEM_ENV + v && inner[1] == SUBSYSTEM_ENV + w;
  }

  lemma OwnEntryIsFirst(outer: seq<string>, more: seq<string>, token: string)
    requires |outer| == 2 && outer[0] == TOKEN_ENV + token && HasPrefix(outer[1], SUBSYSTEM_ENV)
    ensures Existing(outer + more) == TrimPrefix(outer[1], SUBSYSTEM_ENV)
  {
    var nested := outer + more;
    assert nested[0][12] == 'T' && SUBSYSTEM_ENV[12] == 'S';
    assert nested[1..][0] == outer[1];
  }
}
