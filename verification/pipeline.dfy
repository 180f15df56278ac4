/**
 The download pipeline (jetstream/downloader.go): one framer, a pool of decode
 workers and one reassembler, joined by bounded channels and a window of tokens.
 Channels are unordered here, so every FIFO schedule of the original is one of
 the schedules below, and so is every other completion order.
 */
module Pipeline {

  /** What is fixed for one Download: the pool size and, per frame in plan order, whether it has anything to emit. */
  datatype Plan = Plan(concurrency: nat, emits: seq<bool>)

  predicate ValidPlan(p: Plan) { 1 <= p.concurrency }

  /** The cap on frames live between dispatch and emission. */
  function InFlightWindow(concurrency: nat): (w: nat)
    ensures 4 <= w && 2 * concurrency <= w && (w == 4 || w == 2 * concurrency)
  {
    if 2 * concurrency > 4 then 2 * concurrency else 4
  }

  /** Where a dispatched frame is: a channel, a worker, the reorder buffer, or given up on. */
  datatype Place = Job | Held | Result | Pending | Dropped

  function At(frames: map<nat, Place>, place: Place): set<nat> {
    set i | i in frames && frames[i] == place
  }

  /**
   Frames are named by the sequence number the framer gives them. `next` and
   `flushing` belong to the reassembler, `seqNo` and `holding` (a window token not
   yet spent on a frame) to the framer; `alive` counts the workers still running.
   */
  datatype State = State(
    seqNo: nat, holding: bool, framerDone: bool,
    frames: map<nat, Place>, alive: nat, resultsClosed: bool,
    next: nat, flushing: bool, stopped: bool, finished: bool,
    tokens: nat, cancelled: bool, emitted: seq<nat>)
  {
    function Count(place: Place): nat { |At(frames, place)| }

    predicate Is(i: nat, place: Place) { i in frames && frames[i] == place }
  }

  datatype Step =
    | FramerAcquire | FramerEnqueue | FramerExhausted | FramerCancelled
    | WorkerTake(job: nat) | WorkerSend(job: nat) | WorkerAbandon(job: nat) | WorkerExit
    | CloseResults
    | Receive(job: nat) | Release(accepted: bool) | FlushEnd | Finish
    | Cancel

  /** When a step can be taken. */
  predicate Enabled(p: Plan, s: State, step: Step) {
    match step
    case FramerAcquire => !s.framerDone && !s.holding && s.seqNo < |p.emits| && s.tokens < InFlightWindow(p.concurrency)
    case FramerEnqueue => !s.framerDone && s.holding && s.Count(Job) < p.concurrency
    case FramerExhausted => !s.framerDone && !s.holding && s.seqNo == |p.emits|
    case FramerCancelled => !s.framerDone && s.cancelled
    case WorkerTake(i) => s.Is(i, Job) && s.Count(Held) < s.alive
    case WorkerSend(i) => s.Is(i, Held) && s.Count(Result) < p.concurrency
    case WorkerAbandon(i) => s.Is(i, Held) && s.cancelled && 0 < s.alive
    case WorkerExit => s.framerDone && At(s.frames, Job) == {} && s.Count(Held) < s.alive
    case CloseResults => s.alive == 0 && !s.resultsClosed
    case Receive(i) => s.Is(i, Result) && !s.flushing && !s.finished
    case Release(_) => s.flushing && s.Is(s.next, Pending) && 0 < s.tokens
    case FlushEnd => s.flushing && !s.Is(s.next, Pending)
    case Finish => s.resultsClosed && At(s.frames, Result) == {} && !s.flushing && !s.finished
    case Cancel => !s.cancelled
  }

  function Apply(p: Plan, s: State, step: Step): State
    requires Enabled(p, s, step)
  {
    match step
    case FramerAcquire => s.(tokens := s.tokens + 1, holding := true)
    case FramerEnqueue => s.(frames := s.frames[s.seqNo := Job], seqNo := s.seqNo + 1, holding := false)
    case FramerExhausted => s.(framerDone := true)
    case FramerCancelled =>
      s.(framerDone := true, holding := false, tokens := if s.holding && 0 < s.tokens then s.tokens - 1 else s.tokens)
    case WorkerTake(i) => s.(frames := s.frames[i := Held])
    case WorkerSend(i) => s.(frames := s.frames[i := Result])
    case WorkerAbandon(i) => s.(frames := s.frames[i := Dropped], alive := s.alive - 1)
    case WorkerExit => s.(alive := s.alive - 1)
    case CloseResults => s.(resultsClosed := true)
    case Receive(i) =>
      if s.stopped then s.(frames := s.frames[i := Dropped])
      else s.(frames := s.frames[i := Pending], flushing := true)
    case Release(accepted) =>
      var released := s.(frames := s.frames - {s.next}, next := s.next + 1, tokens := s.tokens - 1);
      if s.next < |p.emits| && p.emits[s.next] then
        var sent := released.(emitted := s.emitted + [s.next]);
        if accepted then sent else sent.(stopped := true, cancelled := true, flushing := false)
      else released
    case FlushEnd => s.(flushing := false)
    case Finish => s.(finished := true)
    case Cancel => s.(cancelled := true)
  }

  /** The frames of [0, n) that have something to emit, in plan order. */
  function Emitting(p: Plan, n: nat): seq<nat>
    requires n <= |p.emits|
  {
    if n == 0 then [] else Emitting(p, n - 1) + (if p.emits[n - 1] then [n - 1] else [])
  }

  /** Dispatched but unreleased frames are exactly the interval [next, seqNo). */
  ghost predicate Spanning(s: State) {
    Spans(s.frames, s.next, s.seqNo)
  }

  ghost predicate Spans(frames: map<nat, Place>, lo: nat, hi: nat) {
    forall i :: i in frames <==> lo <= i < hi
  }

  ghost predicate Inv(p: Plan, s: State) {
    && ValidPlan(p)
    && s.next <= s.seqNo <= |p.emits|
    && Spanning(s)
    && s.tokens == s.seqNo - s.next + (if s.holding then 1 else 0)
    && s.tokens <= InFlightWindow(p.concurrency)
    && (s.holding ==> s.seqNo < |p.emits| && !s.framerDone)
    && (s.framerDone && !s.cancelled ==> s.seqNo == |p.emits|)
    && s.Count(Job) <= p.concurrency && s.Count(Result) <= p.concurrency
    && s.Count(Held) <= s.alive <= p.concurrency
    && (s.alive < p.concurrency && !s.cancelled ==> s.framerDone && At(s.frames, Job) == {})
    && (s.resultsClosed ==> s.alive == 0)
    && (At(s.frames, Dropped) != {} ==> s.cancelled)
    && (s.stopped ==> s.cancelled && !s.flushing)
    && (!s.flushing && !s.stopped ==> !s.Is(s.next, Pending))
    && (s.finished ==> s.resultsClosed && At(s.frames, Result) == {} && !s.flushing)
    && s.emitted == Emitting(p, s.next)
  }

  lemma InitInv(p: Plan)
    requires ValidPlan(p)
    ensures Inv(p, Start(p))
  {
    assert forall place :: At(Start(p).frames, place) == {};
  }

  ghost predicate SameElsewhere(f: map<nat, Place>, g: map<nat, Place>, from: Place, to: Place) {
    forall place :: place != from && place != to ==> At(g, place) == At(f, place)
  }

  /** One frame went from one place to another, and nothing else changed. */
  ghost predicate Shifted(f: map<nat, Place>, g: map<nat, Place>, from: Place, to: Place) {
    && |At(g, from)| == |At(f, from)| - 1 && |At(g, to)| == |At(f, to)| + 1
    && At(g, from) <= At(f, from)
    && SameElsewhere(f, g, from, to)
  }

  lemma Moved(frames: map<nat, Place>, i: nat, from: Place, to: Place)
    requires i in frames && frames[i] == from && from != to
    ensures Shifted(frames, frames[i := to], from, to)
  {
    var after := frames[i := to];
    assert At(after, from) == At(frames, from) - {i};
    assert At(after, to) == At(frames, to) + {i};
    forall place | place != from && place != to ensures At(after, place) == At(frames, place) {
      Elsewhere(frames, i, to, place);
    }
  }

  /** Only the frame that is moved changes place. */
  lemma Elsewhere(frames: map<nat, Place>, i: nat, to: Place, place: Place)
    requires place != to && (i in frames ==> frames[i] != place)
    ensures At(frames[i := to], place) == At(frames, place)
  {
  }

  lemma Added(frames: map<nat, Place>, i: nat, to: Place)
    requires i !in frames
    ensures |At(frames[i := to], to)| == |At(frames, to)| + 1 && SameElsewhere(frames, frames[i := to], to, to)
  {
    assert At(frames[i := to], to) == At(frames, to) + {i};
  }

  lemma Removed(frames: map<nat, Place>, i: nat, from: Place)
    requires i in frames && frames[i] == from
    ensures |At(frames - {i}, from)| == |At(frames, from)| - 1 && SameElsewhere(frames, frames - {i}, from, from)
  {
    assert At(frames - {i}, from) == At(frames, from) - {i};
  }

  lemma SpanKept(frames: map<nat, Place>, lo: nat, hi: nat, i: nat, to: Place)
    requires Spans(frames, lo, hi) && i in frames
    ensures Spans(frames[i := to], lo, hi)
  {
  }

  lemma SpanGrown(frames: map<nat, Place>, lo: nat, hi: nat, to: Place)
    requires Spans(frames, lo, hi) && lo <= hi
    ensures hi !in frames && Spans(frames[hi := to], lo, hi + 1)
  {
  }

  lemma SpanShrunk(frames: map<nat, Place>, lo: nat, hi: nat)
    requires Spans(frames, lo, hi) && lo in frames
    ensures lo < hi && Spans(frames - {lo}, lo + 1, hi)
  {
  }

  /** The framer moves the interval's upper end. */
  lemma FramerSpans(p: Plan, s: State, step: Step)
    requires Spanning(s) && s.next <= s.seqNo && Enabled(p, s, step) && ByFramer(step)
    ensures Spanning(Apply(p, s, step)) && s.seqNo !in s.frames
  {
    hide At, Spans;
    SpanGrown(s.frames, s.next, s.seqNo, Job);
  }

  /** Workers leave the frames' numbers alone. */
  lemma WorkerSpans(p: Plan, s: State, step: Step)
    requires Spanning(s) && s.next <= s.seqNo && Enabled(p, s, step) && ByWorker(step)
    ensures Spanning(Apply(p, s, step)) && s.seqNo !in s.frames
  {
    hide At, Spans;
    SpanGrown(s.frames, s.next, s.seqNo, Job);
    match step
    case WorkerTake(i) => SpanKept(s.frames, s.next, s.seqNo, i, Held);
    case WorkerSend(i) => SpanKept(s.frames, s.next, s.seqNo, i, Result);
    case WorkerAbandon(i) => SpanKept(s.frames, s.next, s.seqNo, i, Dropped);
    case _ =>
  }

  /** A release moves the lower end. */
  lemma ReleaseSpans(p: Plan, s: State, step: Step)
    requires Spanning(s) && s.next <= s.seqNo && Enabled(p, s, step) && step.Release?
    ensures Spanning(Apply(p, s, step)) && s.seqNo !in s.frames && s.next < s.seqNo
  {
    hide At, Spans;
    SpanGrown(s.frames, s.next, s.seqNo, Job);
    SpanShrunk(s.frames, s.next, s.seqNo);
  }

  lemma ReassemblerSpans(p: Plan, s: State, step: Step)
    requires Spanning(s) && s.next <= s.seqNo && Enabled(p, s, step)
    requires !ByFramer(step) && !ByWorker(step) && !step.Release?
    ensures Spanning(Apply(p, s, step)) && s.seqNo !in s.frames
  {
    hide At, Spans;
    SpanGrown(s.frames, s.next, s.seqNo, Job);
    if step.Receive? { SpanKept(s.frames, s.next, s.seqNo, step.job, if s.stopped then Dropped else Pending); }
  }

  /** What the step does to the population of each place. */
  lemma Relocate(p: Plan, s: State, step: Step)
    requires Enabled(p, s, step) && s.seqNo !in s.frames
    ensures var g := Apply(p, s, step).frames;
            match step
            case FramerEnqueue => |At(g, Job)| == s.Count(Job) + 1 && SameElsewhere(s.frames, g, Job, Job)
            case WorkerTake(_) => Shifted(s.frames, g, Job, Held)
            case WorkerSend(_) => Shifted(s.frames, g, Held, Result)
            case WorkerAbandon(_) => Shifted(s.frames, g, Held, Dropped)
            case Receive(_) => Shifted(s.frames, g, Result, if s.stopped then Dropped else Pending)
            case Release(_) => |At(g, Pending)| == s.Count(Pending) - 1 && SameElsewhere(s.frames, g, Pending, Pending)
            case _ => g == s.frames
  {
    hide At, Shifted, SameElsewhere;
    match step
    case FramerEnqueue => Added(s.frames, s.seqNo, Job);
    case WorkerTake(i) => Moved(s.frames, i, Job, Held);
    case WorkerSend(i) => Moved(s.frames, i, Held, Result);
    case WorkerAbandon(i) => Moved(s.frames, i, Held, Dropped);
    case Receive(i) => Moved(s.frames, i, Result, if s.stopped then Dropped else Pending);
    case Release(_) => Removed(s.frames, s.next, Pending);
    case _ =>
  }

  /** How far the dispatched frames still have to go. */
  function Load(s: State): nat {
    5 * s.Count(Job) + 4 * s.Count(Held) + 3 * s.Count(Result) + s.Count(Pending)
  }

  predicate ByFramer(step: Step) {
    step.FramerAcquire? || step.FramerEnqueue? || step.FramerExhausted? || step.FramerCancelled?
  }

  predicate ByWorker(step: Step) {
    step.WorkerTake? || step.WorkerSend? || WorkerEnds(step)
  }

  predicate WorkerEnds(step: Step) {
    step.WorkerAbandon? || step.WorkerExit? || step.CloseResults?
  }

  lemma EnqueueInv(p: Plan, s: State, step: Step)
    requires Inv(p, s) && Enabled(p, s, step) && step.FramerEnqueue?
    ensures Inv(p, Apply(p, s, step)) && 0 <= Work(p, Apply(p, s, step)) < Work(p, s)
  {
    hide At, Emitting, Spanning;
    FramerSpans(p, s, step);
    Relocate(p, s, step);
  }

  lemma FramerInv(p: Plan, s: State, step: Step)
    requires Inv(p, s) && Enabled(p, s, step) && ByFramer(step) && !step.FramerEnqueue?
    ensures Inv(p, Apply(p, s, step)) && 0 <= Work(p, Apply(p, s, step)) < Work(p, s)
  {
    hide At, Emitting, Spanning;
    FramerSpans(p, s, step);
    Relocate(p, s, step);
  }

  lemma WorkerEndInv(p: Plan, s: State, step: Step)
    requires Inv(p, s) && Enabled(p, s, step) && WorkerEnds(step)
    ensures Inv(p, Apply(p, s, step)) && 0 <= Work(p, Apply(p, s, step)) < Work(p, s)
  {
    hide At, Emitting, Spanning;
    WorkerSpans(p, s, step);
    Relocate(p, s, step);
  }

  lemma TakeInv(p: Plan, s: State, step: Step)
    requires Inv(p, s) && Enabled(p, s, step) && step.WorkerTake?
    ensures Inv(p, Apply(p, s, step)) && 0 <= Work(p, Apply(p, s, step)) < Work(p, s)
  {
    hide At, Emitting, Spanning;
    WorkerSpans(p, s, step);
    Relocate(p, s, step);
  }

  lemma SendInv(p: Plan, s: State, step: Step)
    requires Inv(p, s) && Enabled(p, s, step) && step.WorkerSend?
    ensures Inv(p, Apply(p, s, step)) && 0 <= Work(p, Apply(p, s, step)) < Work(p, s)
  {
    hide At, Emitting, Spanning;
    WorkerSpans(p, s, step);
    Relocate(p, s, step);
  }

  /** The release takes a token, and the invariant says there is one: it never blocks. */
  lemma ReleaseInv(p: Plan, s: State, step: Step)
    requires Inv(p, s) && Enabled(p, s, step) && step.Release?
    ensures Inv(p, Apply(p, s, step)) && 0 <= Work(p, Apply(p, s, step)) < Work(p, s)
  {
    hide At, Spanning, Emitting;
    ReleaseSpans(p, s, step);
    Relocate(p, s, step);
    EmittingNext(p, s.next);
  }

  lemma EmittingNext(p: Plan, n: nat)
    requires n < |p.emits|
    ensures Emitting(p, n + 1) == if p.emits[n] then Emitting(p, n) + [n] else Emitting(p, n)
  {
  }

  lemma ReceiveInv(p: Plan, s: State, step: Step)
    requires Inv(p, s) && Enabled(p, s, step) && step.Receive?
    ensures Inv(p, Apply(p, s, step)) && 0 <= Work(p, Apply(p, s, step)) < Work(p, s)
  {
    hide At, Spanning, Emitting;
    ReassemblerSpans(p, s, step);
    Relocate(p, s, step);
  }

  lemma ReassemblerInv(p: Plan, s: State, step: Step)
    requires Inv(p, s) && Enabled(p, s, step) && (step.FlushEnd? || step.Finish? || step.Cancel?)
    ensures Inv(p, Apply(p, s, step)) && 0 <= Work(p, Apply(p, s, step)) < Work(p, s)
  {
    hide At, Spanning, Emitting;
    ReassemblerSpans(p, s, step);
    Relocate(p, s, step);
  }

  /** Every step keeps the invariant and, cancellation included, uses up some of the work left. */
  lemma StepInv(p: Plan, s: State, step: Step)
    requires Inv(p, s) && Enabled(p, s, step)
    ensures Inv(p, Apply(p, s, step)) && 0 <= Work(p, Apply(p, s, step)) < Work(p, s)
  {
    hide Inv, Work, Apply, Enabled;
    match step
    case FramerEnqueue => EnqueueInv(p, s, step);
    case WorkerTake(_) => TakeInv(p, s, step);
    case WorkerSend(_) => SendInv(p, s, step);
    case Receive(_) => ReceiveInv(p, s, step);
    case Release(_) => ReleaseInv(p, s, step);
    case _ =>
      if ByFramer(step) {
        FramerInv(p, s, step);
      } else if WorkerEnds(step) {
        WorkerEndInv(p, s, step);
      } else {
        ReassemblerInv(p, s, step);
      }
  }

  /** Work left, bounding the length of every schedule. */
  function Work(p: Plan, s: State): int {
    (if s.framerDone then 0 else 7 * (|p.emits| - s.seqNo) + (if s.holding then 0 else 1))
    + Load(s) + s.alive + Flag(s.flushing) + Flag(!s.resultsClosed) + Flag(!s.finished) + Flag(!s.cancelled)
  }

  function Flag(b: bool): nat { if b then 1 else 0 }

  /** Some stage other than an outside cancellation can always step until the reassembler is done. */
  lemma NoDeadlock(p: Plan, s: State) returns (step: Step)
    requires Inv(p, s) && !s.finished
    ensures Enabled(p, s, step) && !step.Cancel?
  {
    if s.flushing {
      step := if s.Is(s.next, Pending) then Release(true) else FlushEnd;
      assert s.next in s.frames ==> s.next < s.seqNo;
    } else if At(s.frames, Result) != {} {
      var i :| i in At(s.frames, Result);
      step := Receive(i);
    } else if s.resultsClosed {
      step := Finish;
    } else if At(s.frames, Held) != {} {
      var i :| i in At(s.frames, Held);
      step := WorkerSend(i);
    } else if s.alive == 0 {
      step := CloseResults;
    } else if At(s.frames, Job) != {} {
      var i :| i in At(s.frames, Job);
      step := WorkerTake(i);
    } else if s.framerDone {
      step := WorkerExit;
    } else {
      step := FramerStep(p, s);
    }
  }

  /** With the workers and the results drained, the framer itself can step: the window cannot be stuck. */
  lemma FramerStep(p: Plan, s: State) returns (step: Step)
    requires Inv(p, s) && !s.framerDone && !s.flushing
    requires At(s.frames, Result) == {} && At(s.frames, Held) == {} && At(s.frames, Job) == {}
    ensures Enabled(p, s, step) && !step.Cancel?
  {
    if s.holding {
      step := FramerEnqueue;
    } else if s.seqNo == |p.emits| {
      step := FramerExhausted;
    } else if s.tokens < InFlightWindow(p.concurrency) {
      step := FramerAcquire;
    } else {
      step := FramerCancelled;
      assert s.next in s.frames;
      var place := s.frames[s.next];
      assert s.next in At(s.frames, place);
      assert place == Pending || place == Dropped;
      if place == Dropped { assert At(s.frames, Dropped) != {}; }
    }
  }

  function Start(p: Plan): State {
    State(0, false, false, map[], p.concurrency, false, 0, false, false, false, 0, false, [])
  }

  /** A schedule: any sequence of enabled steps. */
  predicate Runs(p: Plan, steps: seq<Step>)
    decreases |steps|, 0
  {
    steps == [] || (Runs(p, steps[..|steps| - 1]) && Enabled(p, Final(p, steps[..|steps| - 1]), steps[|steps| - 1]))
  }

  function Final(p: Plan, steps: seq<Step>): State
    requires Runs(p, steps)
    decreases |steps|, 1
  {
    if steps == [] then Start(p) else Apply(p, Final(p, steps[..|steps| - 1]), steps[|steps| - 1])
  }

  lemma {:induction false} RunInv(p: Plan, steps: seq<Step>)
    requires ValidPlan(p) && Runs(p, steps)
    ensures Inv(p, Final(p, steps))
    ensures Work(p, Final(p, steps)) + |steps| <= Work(p, Start(p))
  {
    if steps == [] {
      InitInv(p);
    } else {
      var before, step := steps[..|steps| - 1], steps[|steps| - 1];
      RunInv(p, before);
      StepInv(p, Final(p, before), step);
    }
  }

  lemma {:induction false} EmittingPrefix(p: Plan, k: nat, n: nat)
    requires k <= n <= |p.emits|
    ensures Emitting(p, k) <= Emitting(p, n)
  {
    if k < n { EmittingPrefix(p, k, n - 1); }
  }

  lemma {:induction false} EmittingAscending(p: Plan, n: nat)
    requires n <= |p.emits|
    ensures forall i, j :: 0 <= i < j < |Emitting(p, n)| ==> Emitting(p, n)[i] < Emitting(p, n)[j]
    ensures forall k :: k in Emitting(p, n) <==> 0 <= k < n && p.emits[k]
  {
    if n > 0 {
      EmittingAscending(p, n - 1);
      var before := Emitting(p, n - 1);
      assert forall i :: 0 <= i < |before| ==> before[i] in before;
    }
  }

  /**
   Download for every schedule, cancellation and consumer stop included: what was
   emitted is a prefix of plan order with nothing repeated, the frames dispatched
   and not yet released are exactly [next, seqNo), at most the window of them, the
   schedule is finite, and until the end some stage can step.
   */
  lemma DownloadInOrder(p: Plan, steps: seq<Step>)
    requires ValidPlan(p) && Runs(p, steps)
    ensures var s := Final(p, steps);
            && s.emitted <= Emitting(p, |p.emits|)
            && (forall i, j :: 0 <= i < j < |s.emitted| ==> s.emitted[i] < s.emitted[j])
            && s.next <= s.seqNo && (forall i :: i in s.frames <==> s.next <= i < s.seqNo)
            && s.seqNo - s.next <= InFlightWindow(p.concurrency)
            && |steps| <= 7 * |p.emits| + p.concurrency + 4
            && (!s.finished ==> exists step :: Enabled(p, s, step) && !step.Cancel?)
            && (s.finished && !s.cancelled ==> s.emitted == Emitting(p, |p.emits|))
  {
    var s := Final(p, steps);
    RunInv(p, steps);
    EmittingPrefix(p, s.next, |p.emits|);
    EmittingAscending(p, s.next);
    StartWork(p);
    if !s.finished { var step := NoDeadlock(p, s); }
    if s.finished && !s.cancelled { AllReleased(p, s); }
  }

  lemma {:induction false} RunsPrefix(p: Plan, a: seq<Step>, b: seq<Step>)
    requires Runs(p, a + b)
    ensures Runs(p, a)
    decreases |b|
  {
    if b == [] {
      assert a + b == a;
    } else {
      assert (a + b)[..|a + b| - 1] == a + b[..|b| - 1];
      RunsPrefix(p, a, b[..|b| - 1]);
    }
  }

  /** Once the reassembler has stopped, nothing is emitted and the context stays cancelled. */
  lemma StoppedStep(p: Plan, s: State, step: Step)
    requires Inv(p, s) && Enabled(p, s, step) && s.stopped
    ensures var t := Apply(p, s, step); t.stopped && t.cancelled && t.emitted == s.emitted
  {
    hide At, Spanning, Emitting;
  }

  /**
   A consumer that refuses a frame is given nothing after it, whatever else happens:
   the frame it refused is the last one emitted, and the context is cancelled.
   */
  lemma {:induction false} RefusalIsFinal(p: Plan, a: seq<Step>, b: seq<Step>)
    requires ValidPlan(p) && Runs(p, a) && Runs(p, a + [Release(false)] + b)
    requires Final(p, a).next < |p.emits| && p.emits[Final(p, a).next]
    ensures var s := Final(p, a + [Release(false)] + b);
            s.emitted == Final(p, a).emitted + [Final(p, a).next] && s.stopped && s.cancelled
    decreases |b|
  {
    hide Inv, Enabled, Apply, Runs, Final;
    var cut := a + [Release(false)];
    if b == [] {
      assert cut + b == cut;
      RunSnoc(p, a, Release(false));
      RefusedNow(p, Final(p, a));
    } else {
      var init, step := b[..|b| - 1], b[|b| - 1];
      assert cut + b == (cut + init) + [step];
      RunSnoc(p, cut + init, step);
      RefusalIsFinal(p, a, init);
      RunInv(p, cut + init);
      StoppedStep(p, Final(p, cut + init), step);
    }
  }

  lemma RunSnoc(p: Plan, steps: seq<Step>, step: Step)
    requires Runs(p, steps + [step])
    ensures Runs(p, steps) && Enabled(p, Final(p, steps), step)
    ensures Final(p, steps + [step]) == Apply(p, Final(p, steps), step)
  {
    hide Enabled, Apply;
    assert (steps + [step])[..|steps|] == steps;
  }

  lemma RefusedNow(p: Plan, s: State)
    requires Enabled(p, s, Release(false)) && s.next < |p.emits| && p.emits[s.next]
    ensures var t := Apply(p, s, Release(false)); t.emitted == s.emitted + [s.next] && t.stopped && t.cancelled
  {
    hide At;
  }

  /** Some step of the run was the refusal of a frame with something to emit. */
  ghost predicate Refused(p: Plan, steps: seq<Step>)
    requires Runs(p, steps)
    decreases |steps|
  {
    steps != []
    && (Refused(p, steps[..|steps| - 1])
        || (steps[|steps| - 1] == Release(false) && Emits(p, Final(p, steps[..|steps| - 1]).next)))
  }

  predicate Emits(p: Plan, i: nat) { i < |p.emits| && p.emits[i] }

  lemma CancelStep(p: Plan, s: State, step: Step)
    requires Enabled(p, s, step)
    ensures var t := Apply(p, s, step);
            && (t.cancelled <==> s.cancelled || step.Cancel? || (step == Release(false) && Emits(p, s.next)))
            && (t.stopped <==> s.stopped || (step == Release(false) && Emits(p, s.next)))
  {
    hide At, State.Count, State.Is, InFlightWindow;
    match step
    case Receive(_) =>
    case Release(_) =>
    case _ =>
  }

  /** The download is cancelled, and the reassembler stops, for no other reason. */
  lemma {:induction false} CancelledExactly(p: Plan, steps: seq<Step>)
    requires Runs(p, steps)
    ensures Final(p, steps).cancelled <==> Cancel in steps || Refused(p, steps)
    ensures Final(p, steps).stopped <==> Refused(p, steps)
    decreases |steps|
  {
    if steps != [] {
      var init, step := steps[..|steps| - 1], steps[|steps| - 1];
      CancelledExactly(p, init);
      hide Enabled, Apply;
      CancelStep(p, Final(p, init), step);
      assert steps == init + [step];
    }
  }

  lemma StartWork(p: Plan)
    ensures Work(p, Start(p)) == 7 * |p.emits| + p.concurrency + 4
  {
    assert forall place :: At(Start(p).frames, place) == {};
  }

  /** A finished, uncancelled pipeline has released every frame of the plan. */
  lemma AllReleased(p: Plan, s: State)
    requires Inv(p, s) && s.finished && !s.cancelled
    ensures s.next == |p.emits|
  {
    assert s.next in s.frames ==> s.next in At(s.frames, s.frames[s.next]);
  }
}
