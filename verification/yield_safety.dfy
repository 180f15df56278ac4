/**
 The two threads of a run that share one consumer: the run goroutine, which sweeps
 the archive and tails live, and the flusher goroutine, which flushes the batcher on
 a timer (jetstream/engine.go:115-213, client_core.go:363-454 and 594-708,
 batcher.go:63-127). Sweeps hand batches to the consumer without the batcher's mutex.
 */
module YieldSafety {
  import opened Common

  datatype Thread = Runner | Flusher

  /** What a thread asks of the batcher; items stand for events and errors alike. */
  datatype Op = Add(x: nat) | Flush | Error(e: nat)

  /** Where a thread is inside a batcher method; it holds the mutex at each of these. */
  datatype Locked = Begin(op: Op) | InBatch(op: Op) | InError | Return(ok: bool)

  /** Why the run goroutine called the batcher, which decides where it goes next. */
  datatype Phase = InSweep | InTail | AtSeam | AtEnd

  datatype RunPc =
    | Sweeping
    | InEmit(rest: seq<seq<nat>>)
    | Tailing
    | Calling(phase: Phase, at: Locked)
    | Ending
    | Done

  datatype FlusherPc = Waiting | Flushing(at: Locked) | Exited

  datatype State = State(
    size: nat, owner: Option<Thread>, buf: seq<nat>, stop: bool, stopped: bool,
    run: RunPc, flusher: FlusherPc,
    accepted: seq<nat>, delivered: seq<nat>, answers: seq<bool>)

  datatype Step =
    | Block(batches: seq<seq<nat>>)
    | SweepError(e: nat)
    | SweepDone
    | TailAdd(x: nat)
    | TailError(e: nat)
    | TailTooOld
    | Stop
    | LastFlush
    | Tick
    | Quit
    | Work(t: Thread)
    | Answer(t: Thread, more: bool)
    | Release(t: Thread)

  /** A run starts in the sweep or, live only, in the tail; a dump has no flusher. */
  ghost predicate Init(s: State) {
    && s.size >= 1 && s.owner.None? && s.buf == [] && !s.stop && !s.stopped
    && (s.run.Sweeping? || s.run.Tailing?) && (s.flusher.Waiting? || s.flusher.Exited?)
    && s.accepted == [] && s.delivered == [] && s.answers == []
  }

  // ---- inside the batcher ----

  /** Emit the buffer as one batch; the closure refuses without yielding once stopped. */
  function EmitBatch(s: State, op: Op): (State, Locked) {
    if s.stopped then (s.(buf := [], stop := true), Return(false))
    else (s.(buf := [], delivered := s.delivered + s.buf), InBatch(op))
  }

  function EmitErr(s: State, e: nat): (State, Locked) {
    if s.stopped then (s.(stop := true), Return(false))
    else (s.(accepted := s.accepted + [e], delivered := s.delivered + [e]), InError)
  }

  function Begun(s: State, op: Op): (State, Locked) {
    if s.stop then (s, Return(false))
    else match op
      case Add(x) =>
        var t := s.(buf := s.buf + [x], accepted := s.accepted + [x]);
        if |t.buf| >= s.size then EmitBatch(t, op) else (t, Return(true))
      case Flush => if s.buf == [] then (s, Return(true)) else EmitBatch(s, op)
      case Error(e) => if s.buf == [] then EmitErr(s, e) else EmitBatch(s, op)
  }

  /** The consumer's answer to a yield made inside the batcher. */
  function Answered(s: State, at: Locked, more: bool): (State, Locked)
    requires at.InBatch? || at.InError?
  {
    if !more then (s.(stop := true, stopped := true), Return(false))
    else if at.InBatch? && at.op.Error? then EmitErr(s, at.op.e)
    else (s, Return(true))
  }

  function At(s: State, t: Thread): Option<Locked> {
    if t.Runner? then (if s.run.Calling? then Some(s.run.at) else None)
    else if s.flusher.Flushing? then Some(s.flusher.at) else None
  }

  function Put(p: (State, Locked), t: Thread): State
    requires if t.Runner? then p.0.run.Calling? else p.0.flusher.Flushing?
  {
    if t.Runner? then p.0.(run := p.0.run.(at := p.1)) else p.0.(flusher := p.0.flusher.(at := p.1))
  }

  /** Where the run goroutine goes after a batcher call. */
  function Next(phase: Phase, ok: bool): RunPc {
    match phase
    case InSweep => if ok then Sweeping else Ending
    case InTail => if ok then Tailing else Ending
    case AtSeam => if ok then Sweeping else Ending
    case AtEnd => Done
  }

  // ---- the steps ----

  predicate Yielding(at: Locked) {
    at.InBatch? || at.InError?
  }

  predicate InYield(s: State, t: Thread) {
    (t.Runner? && s.run.InEmit?) || (At(s, t).Some? && Yielding(At(s, t).value))
  }

  predicate Enabled(s: State, step: Step) {
    match step
    case Block(batches) => s.run.Sweeping? && batches != []
    case SweepError(_) => s.run.Sweeping? && s.owner.None?
    case SweepDone => s.run.Sweeping?
    case TailAdd(_) => s.run.Tailing? && s.owner.None?
    case TailError(_) => s.run.Tailing? && s.owner.None?
    case TailTooOld => s.run.Tailing? && s.owner.None?
    case Stop => s.run.Sweeping? || s.run.Tailing?
    case LastFlush => s.run.Ending? && s.flusher.Exited? && s.owner.None?
    case Tick => s.flusher.Waiting? && s.owner.None?
    case Quit => s.flusher.Waiting?
    case Work(t) => At(s, t).Some? && At(s, t).value.Begin?
    case Answer(t, _) => InYield(s, t)
    case Release(t) => At(s, t).Some? && At(s, t).value.Return?
  }

  function Lock(s: State, phase: Phase, op: Op): State {
    s.(owner := Some(Runner), run := Calling(phase, Begin(op)))
  }

  /** Hand the next batch of a block straight to the consumer. */
  function Hand(s: State, batches: seq<seq<nat>>): State
    requires batches != []
  {
    s.(run := InEmit(batches[1..]), accepted := s.accepted + batches[0], delivered := s.delivered + batches[0])
  }

  function Apply(s: State, step: Step): State
    requires Enabled(s, step)
  {
    match step
    case Block(batches) => if s.stopped then s.(run := Ending) else Hand(s, batches)
    case SweepError(e) => Lock(s, InSweep, Error(e))
    case SweepDone => s.(run := Tailing)
    case TailAdd(x) => Lock(s, InTail, Add(x))
    case TailError(e) => Lock(s, InTail, Error(e))
    case TailTooOld => Lock(s, AtSeam, Flush)
    case Stop => s.(run := Ending)
    case LastFlush => Lock(s, AtEnd, Flush)
    case Tick => s.(owner := Some(Flusher), flusher := Flushing(Begin(Flush)))
    case Quit => s.(flusher := Exited)
    case Work(t) => Put(Begun(s, At(s, t).value.op), t)
    case Answer(t, more) =>
      var s := s.(answers := s.answers + [more]);
      if t.Runner? && s.run.InEmit? then
        if !more then s.(stopped := true, run := Ending)
        else if s.run.rest == [] then s.(run := Sweeping)
        else Hand(s, s.run.rest)
      else Put(Answered(s, At(s, t).value, more), t)
    case Release(Runner) => s.(owner := None, run := Next(s.run.phase, s.run.at.ok))
    case Release(Flusher) => s.(owner := None, flusher := if s.flusher.at.ok then Waiting else Exited)
  }

  ghost predicate Runs(s: State, steps: seq<Step>)
    decreases |steps|, 0
  {
    steps == [] || (Runs(s, steps[..|steps| - 1]) && Enabled(Final(s, steps[..|steps| - 1]), steps[|steps| - 1]))
  }

  ghost function Final(s: State, steps: seq<Step>): State
    requires Runs(s, steps)
    decreases |steps|, 1
  {
    if steps == [] then s else Apply(Final(s, steps[..|steps| - 1]), steps[|steps| - 1])
  }

  // ---- the invariant ----

  /** The run goroutine is in an archive sweep. */
  predicate InArchive(run: RunPc) {
    run.Sweeping? || run.InEmit? || (run.Calling? && run.phase.InSweep?)
  }

  /** The mutex is held by the thread that is inside the batcher, and by no other. */
  ghost predicate Mutex(s: State) {
    && (s.owner == Some(Runner) <==> s.run.Calling?)
    && (s.owner == Some(Flusher) <==> s.flusher.Flushing?)
  }

  /** Nothing is buffered during a sweep, so the flusher finds nothing to yield. */
  ghost predicate Quiet(s: State) {
    && (InArchive(s.run) ==> s.buf == [] && !InYield(s, Flusher))
    && (s.run.Calling? && (s.run.phase.AtSeam? || s.run.phase.AtEnd?) ==>
          (s.run.at.Begin? || s.run.at.InBatch? ==> s.run.at.op.Flush?) && !s.run.at.InError?)
    && (s.run.Calling? && (s.run.phase.AtSeam? || s.run.phase.AtEnd?) && s.run.at == Return(true) ==> s.buf == [])
    && (s.flusher.Flushing? && s.flusher.at == Return(true) ==> s.buf == [])
    && (s.run.Calling? && s.run.phase.InSweep? ==>
          (s.run.at.Begin? || s.run.at.InBatch? ==> s.run.at.op.Error?))
    && (s.flusher.Flushing? && (s.flusher.at.Begin? || s.flusher.at.InBatch?) ==> s.flusher.at.op.Flush?)
    && (s.run.Done? || (s.run.Calling? && s.run.phase.AtEnd?) ==> s.flusher.Exited?)
    && (s.run.Calling? && s.run.at == Return(false) ==> s.stopped)
  }

  /** Yields happen only while every answer so far was to go on. */
  ghost predicate Polite(s: State) {
    && (s.stop ==> s.stopped)
    && (s.stopped && !s.stop ==> s.run.Ending? || s.run.Done? || (s.run.Calling? && s.run.phase.AtEnd?))
    && (s.stopped <==> false in s.answers)
    && (s.stopped ==> !InYield(s, Runner) && !InYield(s, Flusher))
    && forall i :: 0 <= i < |s.answers| - 1 ==> s.answers[i]
  }

  /** Delivery follows acceptance, in order, and loses nothing before a stop. */
  ghost predicate InOrder(s: State) {
    && s.delivered <= s.accepted
    && (!s.stopped ==> s.delivered + s.buf == s.accepted)
    && (s.run.Done? && !s.stopped ==> s.buf == [])
    && (InYield(s, Runner) || InYield(s, Flusher) ==> s.buf == [])
  }

  ghost predicate Inv(s: State) {
    |s.buf| < s.size && Mutex(s) && Quiet(s) && Polite(s) && InOrder(s)
  }

  // ---- every step keeps it ----

  /** Steps of either thread outside the batcher. */
  lemma OutsideInv(s: State, step: Step)
    requires Inv(s) && Enabled(s, step) && !step.Work? && !step.Answer? && !step.Release?
    ensures Inv(Apply(s, step))
  {
  }

  lemma WorkInv(s: State, t: Thread)
    requires Inv(s) && Enabled(s, Work(t))
    ensures Inv(Apply(s, Work(t)))
  {
  }

  lemma AnswerInv(s: State, t: Thread, more: bool)
    requires Inv(s) && Enabled(s, Answer(t, more))
    ensures Inv(Apply(s, Answer(t, more)))
  {
  }

  lemma ReleaseInv(s: State, t: Thread)
    requires Inv(s) && Enabled(s, Release(t))
    ensures Inv(Apply(s, Release(t)))
  {
  }

  lemma StepInv(s: State, step: Step)
    requires Inv(s) && Enabled(s, step)
    ensures Inv(Apply(s, step))
    ensures s.stopped ==> Apply(s, step).stopped && Apply(s, step).delivered == s.delivered
  {
    match step
    case Work(t) => WorkInv(s, t);
    case Answer(t, more) => AnswerInv(s, t, more);
    case Release(t) => ReleaseInv(s, t);
    case _ => OutsideInv(s, step);
  }

  lemma {:induction false} RunInv(s: State, steps: seq<Step>)
    requires Inv(s) && Runs(s, steps)
    ensures Inv(Final(s, steps))
    ensures s.stopped ==> Final(s, steps).stopped && Final(s, steps).delivered == s.delivered
    decreases |steps|
  {
    hide Inv, Apply;
    if steps != [] {
      RunInv(s, steps[..|steps| - 1]);
      StepInv(Final(s, steps[..|steps| - 1]), steps[|steps| - 1]);
    }
  }

  // ---- the claims ----

  /**
   In every two-thread run: never two yields at once, no yield outstanding once the
   consumer has refused, nothing buffered during a sweep, and what was delivered is
   what was accepted, in order.
   */
  lemma YieldsAreSerialized(s: State, steps: seq<Step>)
    requires Init(s) && Runs(s, steps)
    ensures var t := Final(s, steps);
            && !(InYield(t, Runner) && InYield(t, Flusher))
            && (InArchive(t.run) ==> t.buf == [])
            && (forall i :: 0 <= i < |t.answers| - 1 ==> t.answers[i])
            && t.delivered <= t.accepted
            && (!t.stopped ==> t.delivered + t.buf == t.accepted)
            && |t.buf| < t.size
  {
    RunInv(s, steps);
  }

  /** A timer flush that succeeded has handed over everything accepted so far. */
  lemma FlushedAll(s: State, steps: seq<Step>)
    requires Init(s) && Runs(s, steps) && Final(s, steps).flusher == Flushing(Return(true))
    ensures !Final(s, steps).stopped ==> Final(s, steps).delivered == Final(s, steps).accepted
  {
    RunInv(s, steps);
  }

  // ---- what was asked for is what was delivered ----

  function Flat(batches: seq<seq<nat>>): seq<nat> {
    if batches == [] then [] else batches[0] + Flat(batches[1..])
  }

  /** What a step of the run goroutine asks to be delivered. */
  function SubmittedBy(step: Step): seq<nat> {
    match step
    case Block(batches) => Flat(batches)
    case SweepError(e) => [e]
    case TailAdd(x) => [x]
    case TailError(e) => [e]
    case _ => []
  }

  function Submitted(steps: seq<Step>): seq<nat> {
    if steps == [] then [] else Submitted(steps[..|steps| - 1]) + SubmittedBy(steps[|steps| - 1])
  }

  /** What the run goroutine has asked for and is still about to hand over. */
  function Pending(run: RunPc): seq<nat> {
    match run
    case InEmit(rest) => Flat(rest)
    case Calling(_, Begin(Add(x))) => [x]
    case Calling(_, Begin(Error(e))) => [e]
    case Calling(_, InBatch(Error(e))) => [e]
    case _ => []
  }

  /** Everything asked for is accepted or about to be, in order, until the consumer refuses. */
  ghost predicate Accounted(s: State, asked: seq<nat>) {
    s.accepted <= asked && (!s.stopped ==> s.accepted + Pending(s.run) == asked)
  }

  lemma AccountedOutside(s: State, step: Step, asked: seq<nat>)
    requires Inv(s) && Enabled(s, step) && !step.Work? && !step.Answer? && Accounted(s, asked)
    ensures Accounted(Apply(s, step), asked + SubmittedBy(step))
  {
    hide InOrder, Begun, Answered;
    assert asked + [] == asked;
  }

  lemma AccountedWork(s: State, t: Thread, asked: seq<nat>)
    requires Inv(s) && Enabled(s, Work(t)) && Accounted(s, asked)
    ensures Accounted(Apply(s, Work(t)), asked)
  {
    hide InOrder, Answered;
  }

  lemma AccountedAnswer(s: State, t: Thread, more: bool, asked: seq<nat>)
    requires Inv(s) && Enabled(s, Answer(t, more)) && Accounted(s, asked)
    ensures Accounted(Apply(s, Answer(t, more)), asked)
  {
    hide InOrder, Begun;
  }

  lemma AccountedStep(s: State, step: Step, asked: seq<nat>)
    requires Inv(s) && Enabled(s, step) && Accounted(s, asked)
    ensures Accounted(Apply(s, step), asked + SubmittedBy(step))
  {
    hide Inv, Apply, Enabled;
    assert asked + [] == asked;
    match step
    case Work(t) => AccountedWork(s, t, asked);
    case Answer(t, more) => AccountedAnswer(s, t, more, asked);
    case _ => AccountedOutside(s, step, asked);
  }

  lemma {:induction false} AccountedRun(s: State, steps: seq<Step>)
    requires Inv(s) && s.accepted == [] && Pending(s.run) == [] && Runs(s, steps)
    ensures Accounted(Final(s, steps), Submitted(steps))
    decreases |steps|
  {
    hide Inv, Apply, SubmittedBy;
    if steps != [] {
      var init := steps[..|steps| - 1];
      AccountedRun(s, init);
      RunInv(s, init);
      AccountedStep(Final(s, init), steps[|steps| - 1], Submitted(init));
    }
  }

  /**
   Every event and error the sweep or the tail asked for is delivered, buffered or
   still in the run goroutine's hands, in the order asked for; a run that returned
   unstopped delivered all of them, and one that was stopped a prefix.
   */
  lemma NothingForgotten(s: State, steps: seq<Step>)
    requires Init(s) && Runs(s, steps)
    ensures var t := Final(s, steps);
            && t.delivered <= Submitted(steps)
            && (!t.stopped ==> t.delivered + t.buf + Pending(t.run) == Submitted(steps))
            && (!t.stopped && t.run.Done? ==> t.delivered == Submitted(steps))
  {
    RunInv(s, steps);
    AccountedRun(s, steps);
  }

  lemma {:induction false} RunsSplit(s: State, a: seq<Step>, b: seq<Step>)
    requires Runs(s, a + b)
    ensures Runs(s, a) && Runs(Final(s, a), b) && Final(Final(s, a), b) == Final(s, a + b)
    decreases |b|
  {
    hide Apply, Enabled;
    if b == [] {
      assert a + b == a;
    } else {
      assert (a + b)[..|a + b| - 1] == a + b[..|b| - 1];
      RunsSplit(s, a, b[..|b| - 1]);
    }
  }

  /** After the consumer answered false, no later step of either thread delivers anything. */
  lemma NoYieldAfterRefusal(s: State, a: seq<Step>, b: seq<Step>)
    requires Init(s) && Runs(s, a + b) && Runs(s, a) && false in Final(s, a).answers
    ensures Final(s, a + b).delivered == Final(s, a).delivered
    ensures !InYield(Final(s, a + b), Runner) && !InYield(Final(s, a + b), Flusher)
  {
    RunInv(s, a);
    RunsSplit(s, a, b);
    RunInv(Final(s, a), b);
  }

  /** Once the run has returned no thread can take a step, and an unstopped run delivered everything. */
  lemma NothingAfterReturn(s: State, steps: seq<Step>, step: Step)
    requires Init(s) && Runs(s, steps) && Final(s, steps).run.Done?
    ensures !Enabled(Final(s, steps), step)
    ensures !Final(s, steps).stopped ==> Final(s, steps).delivered == Final(s, steps).accepted
  {
    RunInv(s, steps);
  }
}
