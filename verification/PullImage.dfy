/** dockerutil/image.go, PullImage: one pull, then a bounded loop of retries with
    at most one prune. */
module PullImage {
  import opened GoText

  /** An error, as far as the code looks into its text. */
  datatype PullError = PullError(badCertificate: bool, noSpace: bool)

  /** What happened, in order. */
  datatype Event =
    | Pulled(failure: Option<PullError>)
    | Waited(again: bool)   // the answer of r.Wait(ctx)
    | Pruned

  const MAX_RETRIES := 10

  function Pulls(log: seq<Event>): nat {
    if log == [] then 0
    else Pulls(log[..|log| - 1]) + if log[|log| - 1].Pulled? then 1 else 0
  }

  function Prunes(log: seq<Event>): nat {
    if log == [] then 0
    else Prunes(log[..|log| - 1]) + if log[|log| - 1].Pruned? then 1 else 0
  }

  /** The outcome of the last pull in the log. */
  function LastPull(log: seq<Event>): Option<PullError>
    requires Pulls(log) > 0
  {
    var last := log[|log| - 1];
    if last.Pulled? then last.failure else LastPull(log[..|log| - 1])
  }

  lemma LogSnoc(log: seq<Event>, e: Event)
    ensures Pulls(log + [e]) == Pulls(log) + (if e.Pulled? then 1 else 0)
    ensures Prunes(log + [e]) == Prunes(log) + (if e.Pruned? then 1 else 0)
    ensures e.Pulled? ==> LastPull(log + [e]) == e.failure
    ensures !e.Pulled? && Pulls(log) > 0 ==> LastPull(log + [e]) == LastPull(log)
  {
    assert (log + [e])[..|log|] == log;
  }

  /** The rules of the loop, for every pair of neighbouring events. */
  predicate MayFollow(a: Event, b: Event, first: bool) {
    match a
    case Pulled(None) => false
    case Pulled(Some(e)) =>
      if first then b.Waited? && !e.badCertificate
      else if e.noSpace then b == Pruned
      else b.Waited?
    case Waited(again) => again && b.Pulled?
    case Pruned => false
  }

  /** A log of the function: it starts with a pull and every event may follow the
      one before. */
  predicate IsLog(log: seq<Event>) {
    && log != [] && log[0].Pulled?
    && forall i :: 0 <= i < |log| - 1 ==> MayFollow(log[i], log[i + 1], i == 0)
  }

  /** A prune is the last thing that happens, right after a retry that failed for
      lack of space; so no pull follows it. */
  lemma PruneIsLast(log: seq<Event>, i: nat)
    requires IsLog(log) && i < |log| && log[i] == Pruned
    ensures i == |log| - 1 && i >= 2
    ensures log[i - 1].Pulled? && log[i - 1].failure.Some? && log[i - 1].failure.value.noSpace
  {
    assert i < |log| - 1 ==> MayFollow(log[i], log[i + 1], i == 0);
    assert MayFollow(log[i - 1], log[i], i - 1 == 0);
  }

  /** A retry that fails for lack of space is the last pull. */
  lemma NoSpaceStops(log: seq<Event>, i: nat)
    requires IsLog(log) && 0 < i < |log| && log[i].Pulled? && log[i].failure.Some? && log[i].failure.value.noSpace
    ensures |log| <= i + 2
    ensures i + 1 < |log| ==> log[i + 1] == Pruned
  {
    assert i + 1 < |log| ==> MayFollow(log[i], log[i + 1], i == 0);
    assert i + 2 < |log| ==> MayFollow(log[i + 1], log[i + 2], i + 1 == 0);
  }

  /** A success, and a certificate error on the first attempt, end the log. */
  lemma SuccessOrBadCertificateStops(log: seq<Event>, i: nat)
    requires IsLog(log) && i < |log| && log[i].Pulled?
    requires log[i].failure.None? || (i == 0 && log[i].failure.value.badCertificate)
    ensures i == |log| - 1
  {
    assert i < |log| - 1 ==> MayFollow(log[i], log[i + 1], i == 0);
  }

  /** The k-th pull gets the daemon's k-th answer, and so does the k-th wait. */
  predicate Answered(results: nat -> Option<PullError>, waits: nat -> bool, before: seq<Event>, e: Event) {
    match e
    case Pulled(failure) => failure == results(Pulls(before))
    case Waited(again) => Pulls(before) > 0 && again == waits(Pulls(before) - 1)
    case Pruned => true
  }

  /** A log, possibly unfinished, of the function under these answers. */
  predicate IsPartOfRun(results: nat -> Option<PullError>, waits: nat -> bool, log: seq<Event>) {
    log != [] && Pulls(log) <= 1 + MAX_RETRIES &&
    var before, e := log[..|log| - 1], log[|log| - 1];
    && Answered(results, waits, before, e)
    && if before == [] then e.Pulled?
       else IsPartOfRun(results, waits, before) && MayFollow(before[|before| - 1], e, |before| == 1)
  }

  /** Step by step, such a log obeys the rules of the loop. */
  lemma {:induction false} RunsFollowTheRules(results: nat -> Option<PullError>, waits: nat -> bool, log: seq<Event>)
    requires IsPartOfRun(results, waits, log)
    ensures IsLog(log) && Pulls(log) >= 1
    ensures forall i :: 0 <= i < |log| ==> Answered(results, waits, log[..i], log[i])
  {
    var before := log[..|log| - 1];
    if before != [] {
      RunsFollowTheRules(results, waits, before);
    }
    forall i | 0 <= i < |log| ensures Answered(results, waits, log[..i], log[i]) {
      if i < |before| {
        assert log[..i] == before[..i];
        assert Answered(results, waits, before[..i], before[i]);
      }
    }
  }

  /** Why the function may stop: a success, a bad certificate at once, the retrier's
      refusal, ten retries, or lack of space. */
  predicate IsFinished(log: seq<Event>)
    requires log != []
  {
    match log[|log| - 1]
    case Pulled(failure) => failure.None? || (|log| == 1 && failure.value.badCertificate)
    case Waited(again) => !again || Pulls(log) == 1 + MAX_RETRIES
    case Pruned => true
  }

  predicate IsRun(results: nat -> Option<PullError>, waits: nat -> bool, log: seq<Event>) {
    IsPartOfRun(results, waits, log) && IsFinished(log)
  }

  lemma AddEvent(results: nat -> Option<PullError>, waits: nat -> bool, log: seq<Event>, e: Event)
    requires IsPartOfRun(results, waits, log) && Pulls(log) > 0
    requires MayFollow(log[|log| - 1], e, |log| == 1) && Answered(results, waits, log, e)
    requires e.Pulled? ==> Pulls(log) <= MAX_RETRIES
    ensures IsPartOfRun(results, waits, log + [e])
    ensures Pulls(log + [e]) == Pulls(log) + (if e.Pulled? then 1 else 0)
    ensures LastPull(log + [e]) == if e.Pulled? then e.failure else LastPull(log)
  {
    LogSnoc(log, e);
    assert (log + [e])[..|log|] == log;
  }

  /** The state of the loop before its n-th wait. */
  predicate Running(results: nat -> Option<PullError>, waits: nat -> bool,
                    log: seq<Event>, n: nat, err: Option<PullError>) {
    && IsPartOfRun(results, waits, log) && Pulls(log) == n + 1 && LastPull(log) == err
    && n <= MAX_RETRIES && log[|log| - 1] == Pulled(err) && err.Some?
    && if |log| == 1 then !err.value.badCertificate else !err.value.noSpace
  }

  /** The run is over, and its last pull ended in err. */
  predicate Ended(results: nat -> Option<PullError>, waits: nat -> bool, log: seq<Event>, err: Option<PullError>) {
    IsRun(results, waits, log) && Pulls(log) > 0 && LastPull(log) == err
  }

  lemma FirstPull(results: nat -> Option<PullError>, waits: nat -> bool)
    ensures var err := results(0); var log := [Pulled(err)];
            if err.None? || err.value.badCertificate then Ended(results, waits, log, err)
            else Running(results, waits, log, 0, err)
  {
    var log := [Pulled(results(0))];
    LogSnoc([], log[0]);
    assert [] + log == log && log[..0] == [];
  }

  lemma NoMoreRetries(results: nat -> Option<PullError>, waits: nat -> bool,
                      log: seq<Event>, n: nat, err: Option<PullError>)
    requires Running(results, waits, log, n, err) && !(waits(n) && n < MAX_RETRIES)
    ensures Ended(results, waits, log + [Waited(waits(n))], err)
  {
    AddEvent(results, waits, log, Waited(waits(n)));
  }

  lemma OneRetry(results: nat -> Option<PullError>, waits: nat -> bool,
                 log: seq<Event>, n: nat, err: Option<PullError>)
    requires Running(results, waits, log, n, err) && waits(n) && n < MAX_RETRIES
    ensures var again := results(n + 1); var longer := log + [Waited(true)] + [Pulled(again)];
            if again.None? then Ended(results, waits, longer, again)
            else if again.value.noSpace then Ended(results, waits, longer + [Pruned], again)
            else Running(results, waits, longer, n + 1, again)
  {
    var again := results(n + 1);
    AddEvent(results, waits, log, Waited(true));
    AddEvent(results, waits, log + [Waited(true)], Pulled(again));
    if again.Some? && again.value.noSpace {
      AddEvent(results, waits, log + [Waited(true)] + [Pulled(again)], Pruned);
    }
  }

  /** Whatever the daemon answers (results) and the retrier allows (waits): the log
      is the one run under these answers, and nil is returned exactly when the last
      pull succeeded. */
  method PullImage(results: nat -> Option<PullError>, waits: nat -> bool)
    returns (err: Option<PullError>, log: seq<Event>)
    ensures IsRun(results, waits, log)
    ensures Pulls(log) > 0 && err == LastPull(log)
  {
    err := results(0);
    log := [Pulled(err)];
    FirstPull(results, waits);
    if err.Some? && err.value.badCertificate {
      return;
    }
    if err.None? {
      return;
    }
    var pruned := false;
    var n := 0;
    while true
      invariant Running(results, waits, log, n, err) && !pruned
      decreases MAX_RETRIES - n
    {
      var again := waits(n);
      if !(again && n < MAX_RETRIES) {
        NoMoreRetries(results, waits, log, n, err);
        log := log + [Waited(again)];
        break;
      }
      OneRetry(results, waits, log, n, err);
      err := results(n + 1);
      log := log + [Waited(again)] + [Pulled(err)];
      if err.Some? {
        if err.value.noSpace && !pruned {
          pruned := true;
          log := log + [Pruned];
        }
        if err.value.noSpace && pruned {
          return;
        }
      } else {
        return;
      }
      n := n + 1;
    }
  }

  /** There is at most one prune. */
  lemma {:induction false} AtMostOnePrune(log: seq<Event>)
    requires IsLog(log)
    ensures Prunes(log) == if log[|log| - 1] == Pruned then 1 else 0
  {
    var front := log[..|log| - 1];
    if front != [] {
      assert MayFollow(log[|log| - 2], log[|log| - 1], |log| - 2 == 0);
      AtMostOnePrune(front);
    }
  }

  /** A refusal of the retrier is the last event, and every pull but the first comes
      right after the retrier's consent. */
  lemma PullsNeedConsent(log: seq<Event>, i: nat)
    requires IsLog(log) && i < |log|
    ensures log[i] == Waited(false) ==> i == |log| - 1
    ensures log[i].Pulled? && i > 0 ==> log[i - 1] == Waited(true)
  {
    assert i < |log| - 1 ==> MayFollow(log[i], log[i + 1], i == 0);
    assert i > 0 ==> MayFollow(log[i - 1], log[i], i - 1 == 0);
  }

  /** A run whose retry fails for lack of space ends with a prune. */
  lemma NoSpacePrunes(results: nat -> Option<PullError>, waits: nat -> bool, log: seq<Event>, i: nat)
    requires IsRun(results, waits, log) && 0 < i < |log|
    requires log[i].Pulled? && log[i].failure.Some? && log[i].failure.value.noSpace
    ensures |log| == i + 2 && log[i + 1] == Pruned
  {
    RunsFollowTheRules(results, waits, log);
    NoSpaceStops(log, i);
  }

  /** A failure after which pull k is retried: only the first may not be a bad
      certificate, and only the later ones may not be lack of space. */
  predicate IsOrdinary(k: nat, failure: Option<PullError>) {
    failure.Some? && if k == 0 then !failure.value.badCertificate else !failure.value.noSpace
  }

  predicate IsSteady(results: nat -> Option<PullError>, waits: nat -> bool) {
    forall k :: 0 <= k <= 10 ==> IsOrdinary(k, results(k)) && waits(k)
  }

  lemma SteadyEvents(results: nat -> Option<PullError>, waits: nat -> bool, log: seq<Event>, i: nat)
    requires IsPartOfRun(results, waits, log) && IsSteady(results, waits) && i < |log|
    ensures log[i].Pulled? ==> IsOrdinary(i, log[i].failure)
    ensures log[i].Waited? ==> log[i].again
  {
    NextEvent(results, waits, log, i);
    LogSnoc(log[..i], log[i]);
    assert log[..i] + [log[i]] == log[..i + 1];
    PullsGrow(log, i + 1, log[..i + 1]);
    if i > 0 {
      LogSnoc([], log[0]);
      assert [] + [log[0]] == log[..i][..1];
      PullsGrow(log[..i], 1, log[..i][..1]);
      NextEvent(results, waits, log, 0);
    } else {
      assert log[..i] == [];
    }
  }

  /** Ordinary failures and a willing retrier give exactly eleven pulls. */
  lemma SteadyFailures(results: nat -> Option<PullError>, waits: nat -> bool, log: seq<Event>)
    requires IsRun(results, waits, log) && IsSteady(results, waits)
    ensures Pulls(log) == 11 && log[|log| - 1] == Waited(true)
  {
    RunsFollowTheRules(results, waits, log);
    var last := |log| - 1;
    SteadyEvents(results, waits, log, last);
    if log[last].Pruned? {
      PruneIsLast(log, last);
      SteadyEvents(results, waits, log, last - 1);
    }
  }

  /** The answers determine the run: the rules above leave nothing open. */
  lemma OnlyOneRun(results: nat -> Option<PullError>, waits: nat -> bool, a: seq<Event>, b: seq<Event>)
    requires IsRun(results, waits, a) && IsRun(results, waits, b)
    ensures a == b
  {
    if |a| <= |b| {
      SamePrefix(results, waits, a, b, |a|);
      FinishedRunsEnd(results, waits, a, b);
    } else {
      SamePrefix(results, waits, b, a, |b|);
      FinishedRunsEnd(results, waits, b, a);
    }
  }

  lemma {:induction false} SamePrefix(results: nat -> Option<PullError>, waits: nat -> bool,
                                      a: seq<Event>, b: seq<Event>, n: nat)
    requires IsPartOfRun(results, waits, a) && IsPartOfRun(results, waits, b)
    requires n <= |a| && n <= |b|
    ensures a[..n] == b[..n]
  {
    if n > 0 {
      SamePrefix(results, waits, a, b, n - 1);
      SameAt(results, waits, a, b, a[..n - 1], n - 1);
      assert a[..n] == a[..n - 1] + [a[n - 1]] && b[..n] == b[..n - 1] + [b[n - 1]];
    }
  }

  lemma SameAt(results: nat -> Option<PullError>, waits: nat -> bool,
               a: seq<Event>, b: seq<Event>, before: seq<Event>, i: nat)
    requires IsPartOfRun(results, waits, a) && IsPartOfRun(results, waits, b)
    requires i < |a| && i < |b| && a[..i] == before == b[..i]
    ensures a[i] == b[i]
  {
    NextEvent(results, waits, a, i);
    NextEvent(results, waits, b, i);
    if i > 0 {
      SameNext(results, waits, before, a[i], b[i]);
    }
  }

  lemma NextEvent(results: nat -> Option<PullError>, waits: nat -> bool, log: seq<Event>, i: nat)
    requires IsPartOfRun(results, waits, log) && i < |log|
    ensures Answered(results, waits, log[..i], log[i])
    ensures if i == 0 then log[i].Pulled? else MayFollow(log[..i][i - 1], log[i], |log[..i]| == 1)
  {
    RunsFollowTheRules(results, waits, log);
    if i > 0 {
      assert MayFollow(log[i - 1], log[(i - 1) + 1], i - 1 == 0);
    }
  }

  lemma SameNext(results: nat -> Option<PullError>, waits: nat -> bool, log: seq<Event>, x: Event, y: Event)
    requires log != [] && MayFollow(log[|log| - 1], x, |log| == 1) && MayFollow(log[|log| - 1], y, |log| == 1)
    requires Answered(results, waits, log, x) && Answered(results, waits, log, y)
    ensures x == y
  {
  }

  /** A finished run cannot be continued. */
  lemma FinishedRunsEnd(results: nat -> Option<PullError>, waits: nat -> bool, a: seq<Event>, b: seq<Event>)
    requires IsRun(results, waits, a) && IsPartOfRun(results, waits, b) && a <= b
    ensures a == b
  {
    var n := |a|;
    assert a == b[..n];
    if n < |b| {
      var longer := a + [b[n]];
      NextEvent(results, waits, b, n);
      PullsGrow(b, n + 1, longer);
      NothingFollowsTheEnd(a, b[n]);
    }
  }

  lemma NothingFollowsTheEnd(log: seq<Event>, e: Event)
    requires log != [] && IsFinished(log) && MayFollow(log[|log| - 1], e, |log| == 1)
    ensures Pulls(log + [e]) > 1 + MAX_RETRIES
  {
    LogSnoc(log, e);
  }

  lemma {:induction false} PullsGrow(log: seq<Event>, n: nat, prefix: seq<Event>)
    requires n <= |log| && prefix == log[..n]
    ensures Pulls(prefix) <= Pulls(log)
  {
    if n < |log| {
      assert log[..|log| - 1][..n] == log[..n];
      PullsGrow(log[..|log| - 1], n, prefix);
    } else {
      assert prefix == log;
    }
  }
}
