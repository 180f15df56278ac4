/**
 The administration console's operation journal (administration/server/store.ts,
 worker.ts and the operation routes of app.ts): a table of operations and an audit
 trail, changed only by compare-and-swap transitions from the API, one worker and
 crash recovery.
 */
module Journal {
  import opened Common

  datatype OpState = Requested | Applying | Applied | Failed | Canceled | Incomplete

  type Id = nat

  datatype Operation = Operation(
    actor: string, command: string, state: OpState, result: Option<string>, error: Option<string>)

  /** One audit row: which operation, who, the state it was put in and what was recorded. */
  datatype Row = Row(op: Id, actor: string, action: OpState, detail: Detail)

  datatype Detail = Command(body: string) | Outcome(result: Option<string>, error: Option<string>)

  /**
   The database with the operations' creation times, whether a process is serving
   it, and the operation its worker is applying.
   */
  datatype Console = Console(
    ops: map<Id, Operation>, created: map<Id, nat>, audit: seq<Row>, up: bool, inFlight: Option<Id>)

  const EMPTY: Console := Console(map[], map[], [], false, None)

  const RESUMING := "resuming_after_restart"

  /** `Failure(None)` is an exception that is not an ApiError. */
  datatype Failure = Failure(api: Option<(int, string)>)

  datatype Step =
    | Request(id: Id, actor: string, body: string, now: nat)
    | Cancel(id: Id, actor: string)
    | Retry(id: Id, actor: string)
    | TickStart(id: Id)
    | Progress(id: Id, value: Option<string>)
    | Succeed(value: Option<string>)
    | Fail(failure: Failure)
    | Crash
    | Recover(id: Id)
    | Boot

  /** 5xx and 422 answers leave the operation incomplete; everything else fails it. */
  function FailureState(f: Failure): OpState {
    if f.api.Some? && (f.api.value.0 >= 500 || f.api.value.0 == 422) then Incomplete else Failed
  }

  function FailureCode(f: Failure): string {
    if f.api.Some? then f.api.value.1 else "application_failed"
  }

  /**
   The compare-and-swap: update the row and append the audit entry, but only if
   the operation exists and is in an expected state.
   */
  function Moved(s: Console, id: Id, to: OpState, result: Option<string>, error: Option<string>,
                 actor: Option<string>, expected: set<OpState>): Console
  {
    if id !in s.ops || s.ops[id].state !in expected then s
    else
      var op := s.ops[id];
      s.(ops := s.ops[id := op.(state := to, result := result, error := error)],
         audit := s.audit + [Row(id, if actor.Some? then actor.value else op.actor, to, Outcome(result, error))])
  }

  function ResultOf(ops: map<Id, Operation>, id: Id): Option<string> {
    if id in ops then ops[id].result else None
  }

  /** First in line: no requested operation was created earlier, ties broken by id. */
  predicate Oldest(ops: map<Id, Operation>, created: map<Id, nat>, id: Id) {
    && id in ops && ops[id].state == Requested && id in created
    && forall k :: k in ops && ops[k].state == Requested && k in created ==>
         created[id] < created[k] || (created[id] == created[k] && id <= k)
  }

  /** When a step can happen; a refused API call is a step that changes nothing. */
  predicate Enabled(s: Console, step: Step) {
    match step
    case Request(_, _, _, _) => s.up
    case Cancel(_, _) => s.up
    case Retry(_, _) => s.up
    case TickStart(id) => s.up && s.inFlight.None? && Oldest(s.ops, s.created, id)
    case Progress(_, _) => s.up
    case Succeed(_) => s.up && s.inFlight.Some?
    case Fail(_) => s.up && s.inFlight.Some?
    case Crash => s.up
    case Recover(id) => !s.up && id in s.ops && s.ops[id].state == Applying
    case Boot => !s.up && forall id :: id in s.ops ==> s.ops[id].state != Applying
  }

  function Apply(s: Console, step: Step): Console
    requires Enabled(s, step)
  {
    match step
    case Request(id, actor, body, now) =>
      if id in s.ops then s
      else s.(ops := s.ops[id := Operation(actor, body, Requested, None, None)], created := s.created[id := now],
              audit := s.audit + [Row(id, actor, Requested, Command(body))])
    case Cancel(id, actor) => Moved(s, id, Canceled, ResultOf(s.ops, id), None, Some(actor), {Requested})
    case Retry(id, actor) => Moved(s, id, Requested, ResultOf(s.ops, id), None, Some(actor), {Failed, Incomplete})
    case TickStart(id) => Moved(s, id, Applying, ResultOf(s.ops, id), None, None, {Requested}).(inFlight := Some(id))
    case Progress(id, value) => Moved(s, id, Applying, value, None, None, {Applying})
    case Succeed(value) =>
      Moved(s, s.inFlight.value, Applied, value, None, None, {Applying}).(inFlight := None)
    case Fail(f) =>
      Moved(s, s.inFlight.value, FailureState(f), ResultOf(s.ops, s.inFlight.value), Some(FailureCode(f)), None,
            {Applying}).(inFlight := None)
    case Crash => s.(up := false, inFlight := None)
    case Recover(id) => Moved(s, id, Requested, ResultOf(s.ops, id), Some(RESUMING), None, {Applying})
    case Boot => s.(up := true)
  }

  ghost predicate Runs(s: Console, steps: seq<Step>)
    decreases |steps|, 0
  {
    steps == [] || (Runs(s, steps[..|steps| - 1]) && Enabled(Final(s, steps[..|steps| - 1]), steps[|steps| - 1]))
  }

  ghost function Final(s: Console, steps: seq<Step>): Console
    requires Runs(s, steps)
    decreases |steps|, 1
  {
    if steps == [] then s else Apply(Final(s, steps[..|steps| - 1]), steps[|steps| - 1])
  }

  // ---- what the journal promises ----

  /** The journal's transition graph. */
  predicate Edge(a: OpState, b: OpState) {
    match a
    case Requested => b == Applying || b == Canceled
    case Applying => b == Applying || b == Applied || b == Failed || b == Incomplete || b == Requested
    case Failed => b == Requested
    case Incomplete => b == Requested
    case Applied => false
    case Canceled => false
  }

  predicate Ended(a: OpState) {
    a == Applied || a == Canceled
  }

  /** One operation's audit actions, oldest first. */
  function Actions(audit: seq<Row>, id: Id): seq<OpState> {
    if audit == [] then []
    else Actions(audit[..|audit| - 1], id) + (if audit[|audit| - 1].op == id then [audit[|audit| - 1].action] else [])
  }

  /** The table that the audit trail alone describes. */
  function Replay(audit: seq<Row>): map<Id, Operation> {
    if audit == [] then map[]
    else
      var before := Replay(audit[..|audit| - 1]);
      var row := audit[|audit| - 1];
      match row.detail
      case Command(body) => before[row.op := Operation(row.actor, body, row.action, None, None)]
      case Outcome(result, error) =>
        if row.op !in before then before
        else before[row.op := before[row.op].(state := row.action, result := result, error := error)]
  }

  ghost predicate IsPath(actions: seq<OpState>) {
    && actions != [] && actions[0] == Requested
    && forall i :: 0 <= i < |actions| - 1 ==> Edge(actions[i], actions[i + 1])
  }

  /** The audit trail of an operation is a path that ends in its state. */
  ghost predicate Accounted(ops: map<Id, Operation>, audit: seq<Row>, id: Id) {
    var actions := Actions(audit, id);
    if id in ops then IsPath(actions) && actions[|actions| - 1] == ops[id].state else actions == []
  }

  ghost predicate Inv(s: Console) {
    && (forall id :: Accounted(s.ops, s.audit, id))
    && s.ops == Replay(s.audit) && s.ops.Keys == s.created.Keys
    && (s.up ==> forall id :: id in s.ops ==> (s.ops[id].state == Applying <==> s.inFlight == Some(id)))
    && (!s.up ==> s.inFlight.None?)
    && (s.inFlight.Some? ==> s.inFlight.value in s.ops)
  }

  /** What no step ever undoes. */
  ghost predicate Keeps(s: Console, t: Console) {
    && s.audit <= t.audit
    && forall id :: id in s.ops ==>
         && id in t.ops && t.ops[id].actor == s.ops[id].actor && t.ops[id].command == s.ops[id].command
         && (Ended(s.ops[id].state) ==> t.ops[id] == s.ops[id])
         && (id in s.created ==> id in t.created && t.created[id] == s.created[id])
  }

  lemma ActionsSnoc(audit: seq<Row>, row: Row, id: Id)
    ensures Actions(audit + [row], id) == Actions(audit, id) + (if row.op == id then [row.action] else [])
  {
    assert (audit + [row])[..|audit|] == audit;
  }

  lemma PathSnoc(actions: seq<OpState>, to: OpState)
    requires IsPath(actions) && Edge(actions[|actions| - 1], to)
    ensures IsPath(actions + [to])
  {
  }

  /** A transition along an edge keeps an operation's trail a path. */
  lemma MovedTrail(s: Console, id: Id, to: OpState, result: Option<string>, error: Option<string>,
                   actor: Option<string>, expected: set<OpState>, k: Id)
    requires Accounted(s.ops, s.audit, k) && forall a :: a in expected ==> Edge(a, to)
    ensures var t := Moved(s, id, to, result, error, actor, expected); Accounted(t.ops, t.audit, k)
  {
    hide Actions;
    var t := Moved(s, id, to, result, error, actor, expected);
    if id in s.ops && s.ops[id].state in expected {
      ActionsSnoc(s.audit, t.audit[|s.audit|], k);
      if k == id { PathSnoc(Actions(s.audit, id), to); }
    }
  }

  /** It also keeps the table the trail's replay, and undoes nothing. */
  lemma MovedInv(s: Console, id: Id, to: OpState, result: Option<string>, error: Option<string>,
                 actor: Option<string>, expected: set<OpState>)
    requires (forall k :: Accounted(s.ops, s.audit, k)) && s.ops == Replay(s.audit)
    requires forall a :: a in expected ==> Edge(a, to)
    ensures var t := Moved(s, id, to, result, error, actor, expected);
            && (forall k :: Accounted(t.ops, t.audit, k)) && t.ops == Replay(t.audit) && Keeps(s, t)
  {
    hide Accounted;
    var t := Moved(s, id, to, result, error, actor, expected);
    forall k ensures Accounted(t.ops, t.audit, k) {
      MovedTrail(s, id, to, result, error, actor, expected, k);
    }
    if id in s.ops && s.ops[id].state in expected {
      assert t.audit[..|s.audit|] == s.audit;
    }
  }

  /** Every step keeps the invariant and undoes nothing. */
  lemma StepInv(s: Console, step: Step)
    requires Inv(s) && Enabled(s, step)
    ensures Inv(Apply(s, step)) && Keeps(s, Apply(s, step))
  {
    hide Accounted, Replay;
    match step
    case Request(id, actor, body, now) => RequestInv(s, step);
    case Cancel(id, actor) => MovedInv(s, id, Canceled, ResultOf(s.ops, id), None, Some(actor), {Requested});
    case Retry(id, actor) => MovedInv(s, id, Requested, ResultOf(s.ops, id), None, Some(actor), {Failed, Incomplete});
    case Crash =>
    case Recover(id) => MovedInv(s, id, Requested, ResultOf(s.ops, id), Some(RESUMING), None, {Applying});
    case Boot =>
    case _ => WorkerInv(s, step);
  }

  lemma WorkerInv(s: Console, step: Step)
    requires Inv(s) && Enabled(s, step) && (step.TickStart? || step.Progress? || step.Succeed? || step.Fail?)
    ensures Inv(Apply(s, step)) && Keeps(s, Apply(s, step))
  {
    hide Accounted, Replay;
    match step
    case TickStart(id) => MovedInv(s, id, Applying, ResultOf(s.ops, id), None, None, {Requested});
    case Progress(id, value) => MovedInv(s, id, Applying, value, None, None, {Applying});
    case Succeed(value) => MovedInv(s, s.inFlight.value, Applied, value, None, None, {Applying});
    case Fail(f) =>
      MovedInv(s, s.inFlight.value, FailureState(f), ResultOf(s.ops, s.inFlight.value), Some(FailureCode(f)), None,
               {Applying});
  }

  lemma RequestInv(s: Console, step: Step)
    requires Inv(s) && step.Request? && Enabled(s, step)
    ensures Inv(Apply(s, step)) && Keeps(s, Apply(s, step))
  {
    var t := Apply(s, step);
    if step.id !in s.ops {
      assert t.audit[..|s.audit|] == s.audit;
      forall k ensures Accounted(t.ops, t.audit, k) {
        assert Accounted(s.ops, s.audit, k);
        ActionsSnoc(s.audit, t.audit[|s.audit|], k);
      }
    }
  }

  /** Every interleaving of API calls, worker steps, progress callbacks, crashes and recovery. */
  lemma {:induction false} RunInv(s: Console, steps: seq<Step>)
    requires Inv(s) && Runs(s, steps)
    ensures Inv(Final(s, steps)) && Keeps(s, Final(s, steps))
    decreases |steps|
  {
    hide Accounted, Replay;
    if steps != [] {
      RunInv(s, steps[..|steps| - 1]);
      StepInv(Final(s, steps[..|steps| - 1]), steps[|steps| - 1]);
    }
  }

  lemma {:induction false} RunsSplit(s: Console, a: seq<Step>, b: seq<Step>)
    requires Runs(s, a + b)
    ensures Runs(s, a) && Runs(Final(s, a), b) && Final(Final(s, a), b) == Final(s, a + b)
    decreases |b|
  {
    if b == [] {
      assert a + b == a;
    } else {
      assert (a + b)[..|a + b| - 1] == a + b[..|b| - 1];
      RunsSplit(s, a, b[..|b| - 1]);
    }
  }

  /** From an empty database: trails are paths, and the table is what the audit trail replays to. */
  lemma TrailIsAPath(steps: seq<Step>, id: Id)
    requires Runs(EMPTY, steps)
    ensures var s := Final(EMPTY, steps);
            var actions := Actions(s.audit, id);
            && (id in s.ops <==> actions != [])
            && (id in s.ops ==> IsPath(actions) && actions[|actions| - 1] == s.ops[id].state)
            && Replay(s.audit) == s.ops
  {
    RunInv(EMPTY, steps);
    assert Accounted(Final(EMPTY, steps).ops, Final(EMPTY, steps).audit, id);
  }

  lemma {:induction false} NeverStarts(s: Console, steps: seq<Step>, id: Id)
    requires Inv(s) && Runs(s, steps) && id in s.ops && Ended(s.ops[id].state)
    ensures TickStart(id) !in steps
    decreases |steps|
  {
    hide Inv, Apply;
    if steps != [] {
      NeverStarts(s, steps[..|steps| - 1], id);
      RunInv(s, steps[..|steps| - 1]);
      assert steps == steps[..|steps| - 1] + [steps[|steps| - 1]];
    }
  }

  /** Once applied or canceled, an operation never changes again and no apply of it ever starts. */
  lemma EndedForGood(a: seq<Step>, b: seq<Step>, id: Id)
    requires Runs(EMPTY, a + b) && Runs(EMPTY, a)
    requires id in Final(EMPTY, a).ops && Ended(Final(EMPTY, a).ops[id].state)
    ensures id in Final(EMPTY, a + b).ops && Final(EMPTY, a + b).ops[id] == Final(EMPTY, a).ops[id]
    ensures TickStart(id) !in b
  {
    assert Inv(EMPTY);
    hide Inv, Runs, Final;
    RunInv(EMPTY, a);
    RunsSplit(EMPTY, a, b);
    RunInv(Final(EMPTY, a), b);
    NeverStarts(Final(EMPTY, a), b, id);
  }

  /** At most one operation is applying while a process is up, and it is the worker's. */
  lemma OneApplyAtATime(steps: seq<Step>, i: Id, j: Id)
    requires Runs(EMPTY, steps)
    requires var s := Final(EMPTY, steps);
             s.up && i in s.ops && j in s.ops && s.ops[i].state == Applying && s.ops[j].state == Applying
    ensures i == j && Final(EMPTY, steps).inFlight == Some(i)
  {
    RunInv(EMPTY, steps);
  }

  // ---- the store and the worker ----

  datatype Answer = Accepted(op: Operation) | Conflict | NotFound

  /** The database tables and the methods that write them, each in one transaction. */
  class OperationStore {
    var ops: map<Id, Operation>
    var created: map<Id, nat>
    var audit: seq<Row>

    ghost function View(up: bool, inFlight: Option<Id>): Console
      reads this
    {
      Console(ops, created, audit, up, inFlight)
    }

    constructor ()
      ensures View(false, None) == EMPTY
    {
      ops, created, audit := map[], map[], [];
    }

    /** Idempotent by id: the same actor and command get the operation back, anything else a conflict. */
    method Request(actor: string, body: string, id: Id, now: nat) returns (r: Answer)
      modifies this
      ensures View(true, None) == Apply(old(View(true, None)), Step.Request(id, actor, body, now))
      ensures r.Conflict? <==> id in old(ops) && (old(ops)[id].actor != actor || old(ops)[id].command != body)
      ensures !r.Conflict? ==>
                r.Accepted? && id in ops && r.op == ops[id] && r.op.actor == actor && r.op.command == body
    {
      if id in ops {
        var previous := ops[id];
        if previous.actor != actor || previous.command != body { return Conflict; }
        return Accepted(previous);
      }
      ops, created := ops[id := Operation(actor, body, Requested, None, None)], created[id := now];
      audit := audit + [Row(id, actor, Requested, Command(body))];
      r := Accepted(ops[id]);
    }

    /** `None` when there is no such operation, `Some(false)` when its state was not expected. */
    method Transition(id: Id, to: OpState, result: Option<string>, error: Option<string>, actor: Option<string>,
                      expected: set<OpState>)
      returns (r: Option<bool>)
      modifies this`ops, this`audit
      ensures forall up, inFlight :: View(up, inFlight) ==
                Moved(old(View(up, inFlight)), id, to, result, error, actor, expected)
      ensures r.None? <==> id !in old(ops)
      ensures r.Some? ==> (r.value <==> old(ops)[id].state in expected)
    {
      if id !in ops { return None; }
      var op := ops[id];
      if op.state !in expected { return Some(false); }
      ops := ops[id := op.(state := to, result := result, error := error)];
      audit := audit + [Row(id, if actor.Some? then actor.value else op.actor, to, Outcome(result, error))];
      r := Some(true);
    }

    /** The cancel and retry routes: an answer is accepted exactly when the operation moved. */
    method Act(id: Id, cancel: bool, actor: string) returns (r: Answer)
      modifies this
      ensures View(true, None) == Apply(old(View(true, None)), if cancel then Cancel(id, actor) else Retry(id, actor))
      ensures r.NotFound? <==> id !in old(ops)
      ensures r.Accepted? <==> audit != old(audit)
      ensures r.Accepted? ==> id in ops && r.op == ops[id] && r.op.state == (if cancel then Canceled else Requested)
    {
      if id !in ops { return NotFound; }
      var op := ops[id];
      var expected := if cancel then {Requested} else {Failed, Incomplete};
      if op.state !in expected { return Conflict; }
      var moved := Transition(id, if cancel then Canceled else Requested, op.result, None, Some(actor), expected);
      assert View(true, None).ops == ops;
      if moved != Some(true) { return Conflict; }
      r := Accepted(ops[id]);
    }
  }

  /**
   How an apply that has come back is recorded: its result if it succeeded; else
   incomplete for a status of 500 or more or of exactly 422, and failed for anything
   else, with the code of the error and whatever progress had been reported.
   */
  ghost predicate Recorded(was: Operation, now: Operation, outcome: Option<string>, failure: Option<Failure>) {
    && now.actor == was.actor && now.command == was.command
    && (failure.None? ==> now.state == Applied && now.result == outcome && now.error.None?)
    && (failure.Some? ==> now.result == was.result)
    && (failure.Some? && failure.value.api.Some? ==>
          var (status, code) := failure.value.api.value;
          now.error == Some(code) && now.state == (if 500 <= status || status == 422 then Incomplete else Failed))
    && (failure.Some? && failure.value.api.None? ==> now.error == Some("application_failed") && now.state == Failed)
  }

  /** The single worker: `inFlight` stands for the busy flag and the operation the tick awaits. */
  class Worker {
    const store: OperationStore
    var inFlight: Option<Id>

    ghost function View(up: bool): Console
      reads this, store
    {
      store.View(up, inFlight)
    }

    constructor (store: OperationStore)
      ensures this.store == store && inFlight.None?
    {
      this.store := store;
      inFlight := None;
    }

    method RecoverOne(id: Id)
      requires inFlight.None? && id in store.ops && store.ops[id].state == Applying
      modifies store
      ensures View(false) == Apply(old(View(false)), Recover(id))
      ensures id in store.ops && store.ops == old(store.ops)[id := store.ops[id]] && store.ops[id].state == Requested
    {
      var _ := store.Transition(id, Requested, ResultOf(store.ops, id), Some(RESUMING), None, {Applying});
      assert View(false).ops == store.ops;
    }

    /** At startup: every operation found applying goes back to requested, as a run of recovery steps. */
    method RecoverAll() returns (ghost steps: seq<Step>)
      requires inFlight.None?
      modifies store
      ensures Runs(old(View(false)), steps) && View(false) == Final(old(View(false)), steps)
      ensures Enabled(View(false), Boot)
      ensures forall step :: step in steps ==> step.Recover?
    {
      hide Apply;
      var pending: set<Id> := set id: Id | id in store.ops && store.ops[id].state == Applying;
      steps := [];
      while pending != {}
        invariant forall id :: id in pending <==> id in store.ops && store.ops[id].state == Applying
        invariant Runs(old(View(false)), steps) && View(false) == Final(old(View(false)), steps)
        invariant forall step :: step in steps ==> step.Recover?
        decreases |pending|
      {
        var id: Id :| id in pending;
        RecoverOne(id);
        assert (steps + [Recover(id)])[..|steps|] == steps;
        steps := steps + [Recover(id)];
        pending := pending - {id};
      }
    }

    /** The query of a tick: the requested operation first in line, if there is one. */
    method FindOldest() returns (found: Option<Id>)
      requires store.ops.Keys == store.created.Keys
      ensures found.Some? ==> Oldest(store.ops, store.created, found.value)
      ensures found.None? ==> forall id :: id in store.ops ==> store.ops[id].state != Requested
    {
      var left: set<Id> := set id: Id | id in store.ops && store.ops[id].state == Requested;
      ghost var all := left;
      assert forall id :: id in store.ops && store.ops[id].state == Requested ==> id in all;
      found := None;
      while left != {}
        invariant forall id :: id in left ==> id in all
        invariant found.None? ==> left == all
        invariant found.Some? ==> found.value in all && found.value in store.created
        invariant found.Some? ==> forall k :: k in all && k !in left ==> k in store.created && !Sooner(k, found.value)
        decreases |left|
      {
        var id: Id :| id in left;
        if found.None? || Sooner(id, found.value) { found := Some(id); }
        left := left - {id};
      }
    }

    predicate Sooner(a: Id, b: Id)
      requires a in store.created && b in store.created
      reads store
    {
      store.created[a] < store.created[b] || (store.created[a] == store.created[b] && a < b)
    }

    /** Up to the await: claim the requested operation first in line, unless a tick is already at work. */
    method Start() returns (claimed: Option<(Id, string)>)
      requires store.ops.Keys == store.created.Keys
      modifies this, store
      ensures claimed.None? ==> View(true) == old(View(true))
      ensures claimed.None? <==>
                old(inFlight).Some? || forall id :: id in old(store.ops) ==> old(store.ops)[id].state != Requested
      ensures claimed.Some? ==>
                var (id, command) := claimed.value;
                && Enabled(old(View(true)), TickStart(id)) && View(true) == Apply(old(View(true)), TickStart(id))
                && command == old(store.ops)[id].command
    {
      if inFlight.Some? { return None; }
      var found := FindOldest();
      if found.None? { return None; }
      var id := found.value;
      var op := store.ops[id];
      var moved := store.Transition(id, Applying, op.result, None, None, {Requested});
      if moved != Some(true) { return None; }
      inFlight := Some(id);
      claimed := Some((id, op.command));
    }

    /** A progress callback of any tick, however late it comes. */
    method OnProgress(id: Id, value: Option<string>)
      modifies store
      ensures View(true) == Apply(old(View(true)), Progress(id, value))
    {
      var _ := store.Transition(id, Applying, value, None, None, {Applying});
    }

    /** After the await: record the outcome and free the worker. */
    method Finish(outcome: Option<string>, failure: Option<Failure>)
      requires inFlight.Some?
      modifies this, store
      ensures View(true) == Apply(old(View(true)), if failure.Some? then Fail(failure.value) else Succeed(outcome))
      ensures inFlight.None?
      ensures var id := old(inFlight).value;
              id in old(store.ops) && old(store.ops)[id].state == Applying ==>
                && id in store.ops && |store.audit| == |old(store.audit)| + 1
                && Recorded(old(store.ops)[id], store.ops[id], outcome, failure)
    {
      var id := inFlight.value;
      if failure.None? {
        var _ := store.Transition(id, Applied, outcome, None, None, {Applying});
      } else {
        var _ := store.Transition(id, FailureState(failure.value), ResultOf(store.ops, id),
                                  Some(FailureCode(failure.value)), None, {Applying});
      }
      inFlight := None;
    }
  }
}
