/**
 Starting and closing runs of one client (jetstream/engine.go:90-113 and 215-228):
 each run and each close takes the run mutex once on entry, and close cancels what it
 found only after releasing it.
 */
module Lifecycle {
  import opened Common

  type RunId = nat

  /** `Leaving` is the deferred clean-up: the slot is cleared but the context not yet cancelled. */
  datatype RunPhase = Active | Leaving | Over

  datatype State = State(
    closed: bool, current: Option<RunId>, runs: map<RunId, RunPhase>,
    cancelled: set<RunId>, closing: set<RunId>, rejected: set<RunId>)

  const START: State := State(false, None, map[], {}, {}, {})

  /** `Close` is close's critical section; `Cancel` is the cancel call that follows it. */
  datatype Step = Enter(i: RunId) | Leave(i: RunId) | Clean(i: RunId) | Close | Cancel(i: RunId)

  predicate Enabled(s: State, step: Step) {
    match step
    case Enter(i) => i !in s.runs
    case Leave(i) => i in s.runs && s.runs[i].Active?
    case Clean(i) => i in s.runs && s.runs[i].Leaving?
    case Close => true
    case Cancel(i) => i in s.closing
  }

  function Apply(s: State, step: Step): State
    requires Enabled(s, step)
  {
    match step
    case Enter(i) =>
      if s.closed then s.(runs := s.runs[i := Over], cancelled := s.cancelled + {i})
      else if s.current.Some? then
        s.(runs := s.runs[i := Over], cancelled := s.cancelled + {i}, rejected := s.rejected + {i})
      else s.(runs := s.runs[i := Active], current := Some(i))
    case Leave(i) => s.(runs := s.runs[i := Leaving], current := None)
    case Clean(i) => s.(runs := s.runs[i := Over], cancelled := s.cancelled + {i})
    case Close =>
      s.(closed := true, closing := if s.current.Some? then s.closing + {s.current.value} else s.closing)
    case Cancel(i) => s.(closing := s.closing - {i}, cancelled := s.cancelled + {i})
  }

  ghost predicate Runs(s: State, steps: seq<Step>)
    decreases |steps|, 0
  {
    steps == [] || (Runs(s, steps[..|steps| - 1]) && Enabled(Final(s, steps[..|steps| - 1]), steps[|steps| - 1]))
  }

  ghost function Final(s: State, steps: seq<Step>): State
    requires Runs(s, steps)
    decreases |steps|, 1
  {
    if steps == [] then s else Apply(Final(s, steps[..|steps| - 1]), steps[|steps| - 1])
  }

  predicate IsActive(s: State, i: RunId) {
    i in s.runs && s.runs[i].Active?
  }

  /** The slot names the active run; a closed client's run is cancelled or about to be. */
  ghost predicate Inv(s: State) {
    && (forall i: RunId :: IsActive(s, i) <==> s.current == Some(i))
    && (s.closed && s.current.Some? ==> s.current.value in s.closing || s.current.value in s.cancelled)
    && (forall i :: i in s.rejected ==> i in s.runs && s.runs[i].Over?)
    && (!s.closed ==> s.closing == {} && forall i :: i in s.cancelled ==> i in s.runs && s.runs[i].Over?)
  }

  /** What a step can do to a client that was already closed. */
  ghost predicate StaysClosed(s: State, t: State) {
    && t.closed
    && (forall i: RunId :: IsActive(t, i) ==> IsActive(s, i))
    && s.cancelled <= t.cancelled
  }

  lemma StepInv(s: State, step: Step)
    requires Inv(s) && Enabled(s, step)
    ensures Inv(Apply(s, step))
    ensures s.closed ==> StaysClosed(s, Apply(s, step))
  {
    var t := Apply(s, step);
    forall i: RunId ensures IsActive(t, i) <==> t.current == Some(i) {
      assert IsActive(s, i) <==> s.current == Some(i);
      assert step.Leave? ==> IsActive(s, step.i);
    }
  }

  lemma {:induction false} RunInv(s: State, steps: seq<Step>)
    requires Inv(s) && Runs(s, steps)
    ensures Inv(Final(s, steps))
    ensures s.closed ==> StaysClosed(s, Final(s, steps))
    decreases |steps|
  {
    if steps != [] {
      RunInv(s, steps[..|steps| - 1]);
      StepInv(Final(s, steps[..|steps| - 1]), steps[|steps| - 1]);
    }
  }

  /** At most one run is active, and a run that found another one active never becomes active. */
  lemma OneRunAtATime(steps: seq<Step>, i: RunId, j: RunId)
    requires Runs(START, steps)
    ensures var s := Final(START, steps);
            && (IsActive(s, i) && IsActive(s, j) ==> i == j)
            && (i in s.rejected ==> !IsActive(s, i))
  {
    RunInv(START, steps);
    assert IsActive(Final(START, steps), i) <==> Final(START, steps).current == Some(i);
    assert IsActive(Final(START, steps), j) <==> Final(START, steps).current == Some(j);
  }

  /**
   A run becomes active exactly when the client is open and no other run is, and is
   rejected exactly when the client is open and another run is.
   */
  lemma Admitted(steps: seq<Step>, i: RunId)
    requires Runs(START, steps) && Enabled(Final(START, steps), Enter(i))
    ensures var s, t := Final(START, steps), Apply(Final(START, steps), Enter(i));
            && (IsActive(t, i) <==> !s.closed && forall j: RunId :: !IsActive(s, j))
            && (i in t.rejected <==> !s.closed && exists j: RunId :: IsActive(s, j))
            && (forall j: RunId :: j != i ==> (IsActive(t, j) <==> IsActive(s, j)))
  {
    RunInv(START, steps);
    var s := Final(START, steps);
    if s.current.Some? { assert IsActive(s, s.current.value); }
  }

  /** Only a close cancels a run that is still active. */
  lemma OpenUndisturbed(steps: seq<Step>, i: RunId)
    requires Runs(START, steps) && !Final(START, steps).closed && IsActive(Final(START, steps), i)
    ensures i !in Final(START, steps).cancelled
  {
    RunInv(START, steps);
  }

  lemma {:induction false} RunsSplit(s: State, a: seq<Step>, b: seq<Step>)
    requires Runs(s, a + b)
    ensures Runs(s, a) && Runs(Final(s, a), b) && Final(Final(s, a), b) == Final(s, a + b)
    decreases |b|
  {
    if b == [] {
      assert a + b == a;
    } else {
      assert (a + b)[..|a + b| - 1] == a + b[..|b| - 1];
      RunsSplit(s, a, b[..|b| - 1]);
    }
  }

  /**
   After a close no run becomes active that was not active already, and once every
   close has returned a run that is still active has been cancelled.
   */
  lemma CloseIsFinal(a: seq<Step>, b: seq<Step>, i: RunId)
    requires Runs(START, a + b) && Runs(START, a) && Final(START, a).closed
    requires IsActive(Final(START, a + b), i)
    ensures IsActive(Final(START, a), i)
    ensures Final(START, a + b).closing == {} ==> i in Final(START, a + b).cancelled
  {
    RunInv(START, a);
    RunsSplit(START, a, b);
    RunInv(Final(START, a), b);
    assert IsActive(Final(START, a + b), i) <==> Final(START, a + b).current == Some(i);
  }
}
