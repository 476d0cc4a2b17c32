/** Chains of a partial step function on strings: when following it terminates. */
module Chains {
  import opened GoText
  import opened FiniteSets

  type StepFn = string -> Option<string>

  /** The element reached after n steps, if the chain is that long. */
  ghost function ChainAt(step: StepFn, x: string, n: nat): Option<string>
    decreases n
  {
    if n == 0 then Some(x)
    else
      var before := ChainAt(step, x, n - 1);
      if before.Some? then step(before.value) else None
  }

  /** The chain stops after n steps. */
  ghost predicate StopsAt(step: StepFn, x: string, n: nat) {
    ChainAt(step, x, n).Some? && step(ChainAt(step, x, n).value).None?
  }

  ghost predicate Terminates(step: StepFn, x: string) {
    exists n: nat :: StopsAt(step, x, n)
  }

  ghost predicate NeverRevisits(step: StepFn, x: string) {
    forall i: nat, j: nat :: i < j && ChainAt(step, x, j).Some? ==> ChainAt(step, x, i) != ChainAt(step, x, j)
  }

  lemma {:induction false} ChainPrefix(step: StepFn, x: string, i: nat, n: nat)
    requires i <= n && ChainAt(step, x, n).Some?
    ensures ChainAt(step, x, i).Some?
    ensures i < n ==> step(ChainAt(step, x, i).value).Some?
    decreases n
  {
    if i < n {
      ChainPrefix(step, x, i, n - 1);
    }
  }

  lemma StopIsUnique(step: StepFn, x: string, m: nat, n: nat)
    requires StopsAt(step, x, m) && StopsAt(step, x, n)
    ensures m == n
  {
    if m < n {
      ChainPrefix(step, x, m, n);
    } else if n < m {
      ChainPrefix(step, x, n, m);
    }
  }

  /** After a revisit the chain is periodic and has an element at every depth. */
  lemma {:induction false} RevisitsGoOn(step: StepFn, x: string, i: nat, j: nat, n: nat)
    requires i < j && ChainAt(step, x, j).Some? && ChainAt(step, x, i) == ChainAt(step, x, j)
    ensures ChainAt(step, x, n).Some?
    ensures n >= j ==> ChainAt(step, x, n) == ChainAt(step, x, n - (j - i))
    decreases n
  {
    if n <= j {
      ChainPrefix(step, x, n, j);
    } else {
      RevisitsGoOn(step, x, i, j, n - 1);
      RevisitsGoOn(step, x, i, j, n - (j - i));
    }
  }

  /** The elements at depths 0 to n - 1. */
  ghost function FirstOf(step: StepFn, x: string, n: nat): (r: seq<string>)
    requires n > 0 ==> ChainAt(step, x, n - 1).Some?
    ensures |r| == n
    ensures forall i :: 0 <= i < n ==> ChainAt(step, x, i) == Some(r[i])
    decreases n
  {
    if n == 0 then []
    else
      if n > 1 then
        ChainPrefix(step, x, n - 2, n - 1);
        FirstOf(step, x, n - 1) + [ChainAt(step, x, n - 1).value]
      else [x]
  }

  /** An acyclic chain is no longer than the domain of the step function. */
  lemma AcyclicChainIsShort(step: StepFn, domain: set<string>, x: string, n: nat)
    requires forall p :: step(p).Some? ==> p in domain
    requires NeverRevisits(step, x) && ChainAt(step, x, n).Some?
    ensures n <= |domain|
  {
    if n > 0 {
      ChainPrefix(step, x, n - 1, n);
      var passed := FirstOf(step, x, n);
      forall i | 0 <= i < n ensures passed[i] in domain {
        ChainPrefix(step, x, i, n);
      }
      forall i, j | 0 <= i < j < n ensures passed[i] != passed[j] {
        assert ChainAt(step, x, i) != ChainAt(step, x, j);
      }
      DistinctCard(passed);
      SubsetCard(Elements(passed), domain);
    }
  }

  lemma {:induction false} ChainStopsOrGoesOn(step: StepFn, x: string, n: nat)
    ensures Terminates(step, x) || ChainAt(step, x, n).Some?
    decreases n
  {
    if n > 0 {
      ChainStopsOrGoesOn(step, x, n - 1);
      if ChainAt(step, x, n).None? && ChainAt(step, x, n - 1).Some? {
        assert StopsAt(step, x, n - 1);
      }
    }
  }

  /** Following a step function with a finite domain terminates if and only if
      the chain never comes back to an element it has already visited. */
  lemma TerminatesIffNeverRevisits(step: StepFn, domain: set<string>, x: string)
    requires forall p :: step(p).Some? ==> p in domain
    ensures Terminates(step, x) <==> NeverRevisits(step, x)
  {
    if NeverRevisits(step, x) {
      var n := |domain| + 1;
      ChainStopsOrGoesOn(step, x, n);
      if ChainAt(step, x, n).Some? {
        AcyclicChainIsShort(step, domain, x, n);
        assert false;
      }
    } else {
      var i: nat, j: nat :| i < j && ChainAt(step, x, j).Some? && ChainAt(step, x, i) == ChainAt(step, x, j);
      forall n: nat ensures !StopsAt(step, x, n) {
        RevisitsGoOn(step, x, i, j, n + 1);
      }
    }
  }

  /** The elements of a chain that stops after n steps: each is the step from the one
      before, and if nothing is revisited they are pairwise distinct. */
  lemma StoppedChain(step: StepFn, x: string, n: nat)
    requires StopsAt(step, x, n)
    ensures var r := FirstOf(step, x, n + 1);
      && r[0] == x && step(r[n]).None?
      && (forall i :: 0 <= i < n ==> step(r[i]) == Some(r[i + 1]))
      && (NeverRevisits(step, x) ==> NoDuplicates(r))
  {
    var r := FirstOf(step, x, n + 1);
    forall i | 0 <= i < n ensures step(r[i]) == Some(r[i + 1]) {
      ChainPrefix(step, x, i, n);
      assert ChainAt(step, x, i + 1) == Some(r[i + 1]);
    }
    if NeverRevisits(step, x) {
      forall i, j | 0 <= i < j < |r| ensures r[i] != r[j] {
        assert ChainAt(step, x, i) != ChainAt(step, x, j);
      }
    }
  }
}
