/**
 The whole download of a page (jetstream/downloader.go:184-644): the block-fetch pool
 and the decode pipeline joined at the framer, which takes a future and then waits for
 the decode window before it takes the next one. One context cancels both.
 */
module DownloadSystem {
  import opened Common
  import BlockFetch
  import Pipeline

  /**
   What the framer does next: take a future and dispatch its frame, take one and drop
   it (the entry failed earlier), or dispatch a frame it already has (a whole segment).
   */
  datatype Act = Act(consumes: bool, dispatches: bool)

  datatype Setup = Setup(script: seq<Act>, plan: Pipeline.Plan)

  /** `at` is the framer's place in the script, `inHand` that its future has been taken. */
  datatype State = State(fetch: BlockFetch.State, pipe: Pipeline.State, at: nat, inHand: bool)

  datatype Step =
    | Fetching(f: BlockFetch.Step)
    | Piping(p: Pipeline.Step)
    | TakeFuture | Acquire | Enqueue | Finish | GiveUp
    | Cancel

  function Consumes(script: seq<Act>, k: nat): nat
    requires k <= |script|
  {
    if k == 0 then 0 else Consumes(script, k - 1) + if script[k - 1].consumes then 1 else 0
  }

  function Dispatches(script: seq<Act>, k: nat): nat
    requires k <= |script|
  {
    if k == 0 then 0 else Dispatches(script, k - 1) + if script[k - 1].dispatches then 1 else 0
  }

  /** The script takes every future and dispatches every frame of the plan, and no act is idle. */
  ghost predicate IsSetup(c: Setup, s: State) {
    && Pipeline.ValidPlan(c.plan)
    && Consumes(c.script, |c.script|) == |s.fetch.entryOf| && Dispatches(c.script, |c.script|) == |c.plan.emits|
    && forall k :: 0 <= k < |c.script| ==> c.script[k].consumes || c.script[k].dispatches
  }

  ghost predicate Init(c: Setup, s: State) {
    IsSetup(c, s) && BlockFetch.Init(s.fetch) && s.pipe == Pipeline.Start(c.plan) && s.at == 0 && !s.inHand
  }

  predicate AtFuture(c: Setup, s: State) {
    s.at < |c.script| && c.script[s.at].consumes && !s.inHand
  }

  predicate AtDispatch(c: Setup, s: State) {
    s.at < |c.script| && c.script[s.at].dispatches && (c.script[s.at].consumes ==> s.inHand)
  }

  predicate OfFetchers(f: BlockFetch.Step) {
    !f.Consume? && !f.FramerEnd? && !f.Cancel?
  }

  predicate OfPipe(p: Pipeline.Step) {
    !Pipeline.ByFramer(p) && !p.Cancel?
  }

  predicate Enabled(c: Setup, s: State, step: Step) {
    match step
    case Fetching(f) => OfFetchers(f) && BlockFetch.Enabled(s.fetch, f)
    case Piping(p) => OfPipe(p) && Pipeline.Enabled(c.plan, s.pipe, p)
    case TakeFuture => AtFuture(c, s) && BlockFetch.Enabled(s.fetch, BlockFetch.Consume)
    case Acquire => AtDispatch(c, s) && Pipeline.Enabled(c.plan, s.pipe, Pipeline.FramerAcquire)
    case Enqueue => AtDispatch(c, s) && Pipeline.Enabled(c.plan, s.pipe, Pipeline.FramerEnqueue)
    case Finish =>
      && s.at == |c.script| && BlockFetch.Enabled(s.fetch, BlockFetch.FramerEnd)
      && Pipeline.Enabled(c.plan, s.pipe, Pipeline.FramerExhausted)
    case GiveUp =>
      && BlockFetch.Enabled(s.fetch, BlockFetch.FramerEnd)
      && Pipeline.Enabled(c.plan, s.pipe, Pipeline.FramerCancelled)
    case Cancel =>
      && BlockFetch.Enabled(s.fetch, BlockFetch.Cancel) && Pipeline.Enabled(c.plan, s.pipe, Pipeline.Cancel)
  }

  /** A consumer's refusal cancels the context, so the fetch pool sees it too. */
  function Told(f: BlockFetch.State, cancelled: bool): BlockFetch.State {
    if cancelled && !f.cancelled then BlockFetch.Apply(f, BlockFetch.Cancel) else f
  }

  function Apply(c: Setup, s: State, step: Step): State
    requires Enabled(c, s, step)
  {
    match step
    case Fetching(f) => s.(fetch := BlockFetch.Apply(s.fetch, f))
    case Piping(p) =>
      var pipe := Pipeline.Apply(c.plan, s.pipe, p);
      s.(pipe := pipe, fetch := Told(s.fetch, pipe.cancelled))
    case TakeFuture =>
      var t := s.(fetch := BlockFetch.Apply(s.fetch, BlockFetch.Consume));
      if c.script[s.at].dispatches then t.(inHand := true) else t.(at := s.at + 1)
    case Acquire => s.(pipe := Pipeline.Apply(c.plan, s.pipe, Pipeline.FramerAcquire))
    case Enqueue => s.(pipe := Pipeline.Apply(c.plan, s.pipe, Pipeline.FramerEnqueue), at := s.at + 1, inHand := false)
    case Finish =>
      s.(fetch := BlockFetch.Apply(s.fetch, BlockFetch.FramerEnd),
         pipe := Pipeline.Apply(c.plan, s.pipe, Pipeline.FramerExhausted))
    case GiveUp =>
      s.(fetch := BlockFetch.Apply(s.fetch, BlockFetch.FramerEnd),
         pipe := Pipeline.Apply(c.plan, s.pipe, Pipeline.FramerCancelled))
    case Cancel =>
      s.(fetch := BlockFetch.Apply(s.fetch, BlockFetch.Cancel), pipe := Pipeline.Apply(c.plan, s.pipe, Pipeline.Cancel))
  }

  ghost predicate Runs(c: Setup, s: State, steps: seq<Step>)
    decreases |steps|, 0
  {
    steps == []
    || (Runs(c, s, steps[..|steps| - 1]) && Enabled(c, Final(c, s, steps[..|steps| - 1]), steps[|steps| - 1]))
  }

  ghost function Final(c: Setup, s: State, steps: seq<Step>): State
    requires Runs(c, s, steps)
    decreases |steps|, 1
  {
    if steps == [] then s else Apply(c, Final(c, s, steps[..|steps| - 1]), steps[|steps| - 1])
  }

  predicate Done(s: State) {
    s.pipe.finished && BlockFetch.Finished(s.fetch)
  }

  // ---- the invariant ----

  /** The two halves agree on what the framer has done and on whether it may go on. */
  ghost predicate Joined(c: Setup, s: State) {
    && s.fetch.cancelled == s.pipe.cancelled && s.fetch.framerDone == s.pipe.framerDone
    && s.at <= |c.script|
    && s.fetch.consumed == Consumes(c.script, s.at) + (if s.inHand then 1 else 0)
    && s.pipe.seqNo == Dispatches(c.script, s.at)
    && (s.inHand ==> s.at < |c.script| && c.script[s.at].consumes && c.script[s.at].dispatches)
    && (s.pipe.holding ==> AtDispatch(c, s))
  }

  ghost predicate Inv(c: Setup, s: State) {
    IsSetup(c, s) && BlockFetch.Inv(s.fetch) && Pipeline.Inv(c.plan, s.pipe) && Joined(c, s)
  }

  /** Every step is progress of one half or of both. */
  function Progress(c: Setup, s: State): int {
    BlockFetch.Taken(s.fetch) - Pipeline.Work(c.plan, s.pipe)
  }

  // ---- each half as the other sees it ----

  lemma PipeKeeps(p: Pipeline.Plan, s: Pipeline.State, step: Pipeline.Step)
    requires Pipeline.Enabled(p, s, step) && OfPipe(step)
    ensures var t := Pipeline.Apply(p, s, step);
            && t.framerDone == s.framerDone && t.seqNo == s.seqNo && t.holding == s.holding
            && (s.cancelled ==> t.cancelled)
  {
    hide Pipeline.At;
    match step
    case Receive(_) =>
    case Release(_) =>
    case _ =>
  }

  lemma FetchKeeps(s: BlockFetch.State, step: BlockFetch.Step)
    requires BlockFetch.Enabled(s, step) && OfFetchers(step)
    ensures var t := BlockFetch.Apply(s, step);
            t.consumed == s.consumed && t.framerDone == s.framerDone && t.cancelled == s.cancelled
  {
    hide BlockFetch.Waiting;
  }

  lemma ToldKeeps(f: BlockFetch.State, cancelled: bool)
    requires BlockFetch.Inv(f)
    ensures var t := Told(f, cancelled);
            && BlockFetch.Inv(t) && BlockFetch.Taken(t) >= BlockFetch.Taken(f) && t.entryOf == f.entryOf
            && t.cancelled == (f.cancelled || cancelled) && t.consumed == f.consumed && t.framerDone == f.framerDone
  {
    hide BlockFetch.Counts, BlockFetch.Workers, BlockFetch.Taken;
    if cancelled && !f.cancelled { BlockFetch.StepInv(f, BlockFetch.Cancel); }
  }

  // ---- every step keeps the two halves joined ----

  lemma HalfStep(c: Setup, s: State, step: Step)
    requires Inv(c, s) && Enabled(c, s, step) && (step.Fetching? || step.Piping?)
    ensures Inv(c, Apply(c, s, step)) && Progress(c, Apply(c, s, step)) > Progress(c, s)
  {
    hide BlockFetch.Inv, BlockFetch.Taken, BlockFetch.Enabled, BlockFetch.Apply, Pipeline.Inv, Pipeline.Work,
         Pipeline.Enabled, Pipeline.Apply, Told;
    match step
    case Fetching(f) =>
      BlockFetch.StepInv(s.fetch, f);
      FetchKeeps(s.fetch, f);
    case Piping(p) =>
      Pipeline.StepInv(c.plan, s.pipe, p);
      PipeKeeps(c.plan, s.pipe, p);
      ToldKeeps(s.fetch, Pipeline.Apply(c.plan, s.pipe, p).cancelled);
  }

  lemma FramerSteps(c: Setup, s: State, step: Step)
    requires Inv(c, s) && Enabled(c, s, step) && (step.TakeFuture? || step.Acquire? || step.Enqueue?)
    ensures Inv(c, Apply(c, s, step)) && Progress(c, Apply(c, s, step)) > Progress(c, s)
  {
    hide BlockFetch.Inv, BlockFetch.Taken, BlockFetch.Waiting, Pipeline.Inv, Pipeline.Work, Pipeline.At;
    match step
    case TakeFuture => BlockFetch.StepInv(s.fetch, BlockFetch.Consume);
    case Acquire => Pipeline.StepInv(c.plan, s.pipe, Pipeline.FramerAcquire);
    case Enqueue => Pipeline.StepInv(c.plan, s.pipe, Pipeline.FramerEnqueue);
  }

  lemma JointSteps(c: Setup, s: State, step: Step)
    requires Inv(c, s) && Enabled(c, s, step) && (step.Finish? || step.GiveUp? || step.Cancel?)
    ensures Inv(c, Apply(c, s, step)) && Progress(c, Apply(c, s, step)) > Progress(c, s)
  {
    hide BlockFetch.Inv, BlockFetch.Taken, BlockFetch.Waiting, Pipeline.Inv, Pipeline.Work, Pipeline.At;
    match step
    case Finish =>
      BlockFetch.StepInv(s.fetch, BlockFetch.FramerEnd);
      Pipeline.StepInv(c.plan, s.pipe, Pipeline.FramerExhausted);
    case GiveUp =>
      BlockFetch.StepInv(s.fetch, BlockFetch.FramerEnd);
      Pipeline.StepInv(c.plan, s.pipe, Pipeline.FramerCancelled);
    case Cancel =>
      BlockFetch.StepInv(s.fetch, BlockFetch.Cancel);
      Pipeline.StepInv(c.plan, s.pipe, Pipeline.Cancel);
  }

  lemma StepInv(c: Setup, s: State, step: Step)
    requires Inv(c, s) && Enabled(c, s, step)
    ensures Inv(c, Apply(c, s, step)) && Progress(c, Apply(c, s, step)) > Progress(c, s)
  {
    hide Inv, Progress, Enabled, Apply;
    match step
    case Fetching(_) => HalfStep(c, s, step);
    case Piping(_) => HalfStep(c, s, step);
    case Finish => JointSteps(c, s, step);
    case GiveUp => JointSteps(c, s, step);
    case Cancel => JointSteps(c, s, step);
    case _ => FramerSteps(c, s, step);
  }

  lemma {:induction false} RunInv(c: Setup, s: State, steps: seq<Step>)
    requires Inv(c, s) && Runs(c, s, steps)
    ensures Inv(c, Final(c, s, steps)) && Progress(c, Final(c, s, steps)) >= Progress(c, s) + |steps|
    decreases |steps|
  {
    hide Inv, Progress, Enabled, Apply;
    if steps != [] {
      RunInv(c, s, steps[..|steps| - 1]);
      StepInv(c, Final(c, s, steps[..|steps| - 1]), steps[|steps| - 1]);
    }
  }

  lemma InitInv(c: Setup, s: State)
    requires Init(c, s)
    ensures Inv(c, s)
  {
    Pipeline.InitInv(c.plan);
  }

  // ---- progress ----

  lemma {:induction false} ScriptLeft(script: seq<Act>, k: nat)
    requires k < |script|
    ensures Consumes(script, k) + (if script[k].consumes then 1 else 0) <= Consumes(script, |script|)
    ensures Dispatches(script, k) + (if script[k].dispatches then 1 else 0) <= Dispatches(script, |script|)
    decreases |script| - k
  {
    if k + 1 < |script| { ScriptLeft(script, k + 1); }
  }

  /** The framer itself: when the pipeline waits for it, it or whoever it waits for can move. */
  lemma FramerMoves(c: Setup, s: State, p: Pipeline.Step) returns (step: Step)
    requires Inv(c, s) && Pipeline.ByFramer(p) && Pipeline.Enabled(c.plan, s.pipe, p)
    ensures Enabled(c, s, step) && !step.Cancel?
  {
    hide BlockFetch.Inv, Pipeline.Inv, Pipeline.At, BlockFetch.Waiting;
    if s.pipe.cancelled {
      step := GiveUp;
    } else if s.at == |c.script| {
      step := Finish;
    } else {
      ScriptLeft(c.script, s.at);
      if AtDispatch(c, s) {
        step := if p.FramerAcquire? then Acquire else Enqueue;
      } else {
        var f := BlockFetch.CanStep(s.fetch);
        step := if f.Consume? then TakeFuture else Fetching(f);
      }
    }
  }

  /** Until both halves are done, some actor can move, the framer's two waits included. */
  lemma CanStep(c: Setup, s: State) returns (step: Step)
    requires Inv(c, s) && !Done(s)
    ensures Enabled(c, s, step) && !step.Cancel?
  {
    if !s.pipe.finished {
      hide BlockFetch.Inv, Pipeline.Inv, Pipeline.Enabled, BlockFetch.Enabled;
      var p := Pipeline.NoDeadlock(c.plan, s.pipe);
      if Pipeline.ByFramer(p) { step := FramerMoves(c, s, p); } else { step := Piping(p); }
    } else if !s.pipe.framerDone {
      step := GiveUp;
    } else {
      var f := BlockFetch.CanStep(s.fetch);
      step := Fetching(f);
    }
  }

  /**
   For every schedule of coordinator, fetch workers, framer, decode workers and
   reassembler, cancellation and refusals included: until everyone is done some actor
   can move, every schedule is finite, results come out in plan order and blocks are
   requested once each in plan order.
   */
  lemma DownloadMakesProgress(c: Setup, s: State, steps: seq<Step>) returns (step: Step)
    requires Init(c, s) && Runs(c, s, steps)
    ensures var t := Final(c, s, steps);
            && (!Done(t) ==> Enabled(c, t, step) && !step.Cancel?)
            && |steps| <= 6 * |s.fetch.entryOf| + 7 * |c.plan.emits| + c.plan.concurrency + 7
            && t.pipe.emitted <= Pipeline.Emitting(c.plan, |c.plan.emits|)
            && (forall k :: 0 <= k < |t.fetch.requests| ==> t.fetch.requests[k] == k)
            && (Done(t) && !t.pipe.cancelled ==>
                  && t.pipe.emitted == Pipeline.Emitting(c.plan, |c.plan.emits|)
                  && |t.fetch.requests| == t.fetch.consumed == |s.fetch.entryOf|)
  {
    hide Runs, Final, Enabled, Pipeline.Enabled, BlockFetch.Enabled, Pipeline.Spans;
    InitInv(c, s);
    RunInv(c, s, steps);
    var t := Final(c, s, steps);
    step := Cancel;
    if !Done(t) { step := CanStep(c, t); }
    Pipeline.StartWork(c.plan);
    Pipeline.EmittingPrefix(c.plan, t.pipe.next, |c.plan.emits|);
    if t.pipe.finished && !t.pipe.cancelled { Pipeline.AllReleased(c.plan, t.pipe); }
  }

  // ---- each schedule is one of the pipeline's own ----

  /** What the decode pipeline sees of a step. */
  function PipeStep(step: Step): seq<Pipeline.Step> {
    match step
    case Fetching(_) => []
    case Piping(p) => [p]
    case TakeFuture => []
    case Acquire => [Pipeline.FramerAcquire]
    case Enqueue => [Pipeline.FramerEnqueue]
    case Finish => [Pipeline.FramerExhausted]
    case GiveUp => [Pipeline.FramerCancelled]
    case Cancel => [Pipeline.Cancel]
  }

  function PipeSteps(steps: seq<Step>): seq<Pipeline.Step> {
    if steps == [] then [] else PipeSteps(steps[..|steps| - 1]) + PipeStep(steps[|steps| - 1])
  }

  lemma {:induction false} PipeStepsConcat(a: seq<Step>, b: seq<Step>)
    ensures PipeSteps(a + b) == PipeSteps(a) + PipeSteps(b)
  {
    hide PipeStep;
    if b == [] {
      assert a + b == a;
    } else {
      var init, step := b[..|b| - 1], b[|b| - 1];
      assert (a + b)[..|a + b| - 1] == a + init;
      PipeStepsConcat(a, init);
      Assoc(PipeSteps(a), PipeSteps(init), PipeStep(step));
    }
  }

  lemma PipeApply(c: Setup, s: State, step: Step)
    requires Enabled(c, s, step)
    ensures if PipeStep(step) == [] then Apply(c, s, step).pipe == s.pipe
            else Pipeline.Enabled(c.plan, s.pipe, PipeStep(step)[0])
                 && Apply(c, s, step).pipe == Pipeline.Apply(c.plan, s.pipe, PipeStep(step)[0])
  {
    hide Pipeline.Enabled, Pipeline.Apply, BlockFetch.Enabled, BlockFetch.Apply;
  }

  /** The joined system refines the pipeline: what one does the other can do. */
  lemma {:induction false} RefinesPipeline(c: Setup, s: State, steps: seq<Step>)
    requires Init(c, s) && Runs(c, s, steps)
    ensures Pipeline.Runs(c.plan, PipeSteps(steps))
    ensures Final(c, s, steps).pipe == Pipeline.Final(c.plan, PipeSteps(steps))
    decreases |steps|
  {
    hide Enabled, Apply, Pipeline.Enabled, Pipeline.Apply, PipeStep;
    if steps == [] {
    } else {
      hide Init, Pipeline.Runs, Pipeline.Final;
      var init, step := steps[..|steps| - 1], steps[|steps| - 1];
      RefinesPipeline(c, s, init);
      PipeApply(c, Final(c, s, init), step);
      PipeStepShort(step);
      if PipeStep(step) == [] {
        assert PipeSteps(init) + [] == PipeSteps(init);
      } else {
        PipeSnoc(c.plan, PipeSteps(init), PipeStep(step)[0]);
      }
    }
  }

  lemma PipeStepShort(step: Step)
    ensures PipeStep(step) == [] || PipeStep(step) == [PipeStep(step)[0]]
  {
  }

  lemma PipeSnoc(p: Pipeline.Plan, steps: seq<Pipeline.Step>, step: Pipeline.Step)
    requires Pipeline.Runs(p, steps) && Pipeline.Enabled(p, Pipeline.Final(p, steps), step)
    ensures Pipeline.Runs(p, steps + [step])
    ensures Pipeline.Final(p, steps + [step]) == Pipeline.Apply(p, Pipeline.Final(p, steps), step)
  {
    hide Pipeline.Enabled, Pipeline.Apply;
    assert (steps + [step])[..|steps|] == steps;
  }

  lemma {:induction false} CancelSeen(steps: seq<Step>)
    requires forall i :: 0 <= i < |steps| && steps[i].Piping? ==> !steps[i].p.Cancel?
    ensures Pipeline.Cancel in PipeSteps(steps) <==> Cancel in steps
  {
    if steps != [] {
      var init, step := steps[..|steps| - 1], steps[|steps| - 1];
      assert Pipeline.Cancel in PipeStep(step) <==> step == Cancel;
      hide PipeStep;
      CancelSeen(init);
      assert steps == init + [step];
    }
  }

  lemma NotPiped(c: Setup, s: State, step: Step)
    requires Enabled(c, s, step)
    ensures step.Piping? ==> !step.p.Cancel?
  {
    hide Pipeline.Enabled, BlockFetch.Enabled;
  }

  lemma {:induction false} NoPipedCancel(c: Setup, s: State, steps: seq<Step>)
    requires Runs(c, s, steps)
    ensures forall i :: 0 <= i < |steps| && steps[i].Piping? ==> !steps[i].p.Cancel?
    decreases |steps|
  {
    hide Enabled, Apply;
    if steps != [] {
      var init := steps[..|steps| - 1];
      NotPiped(c, Final(c, s, init), steps[|steps| - 1]);
      NoPipedCancel(c, s, init);
      assert forall i :: 0 <= i < |init| ==> steps[i] == init[i];
    }
  }

  /**
   A consumer's refusal ends the whole download: the frame it refused is the last one
   it is given, and the fetch pool is cancelled with the decode pipeline.
   */
  lemma RefusalIsFinal(c: Setup, s: State, a: seq<Step>, b: seq<Step>)
    requires Init(c, s) && Runs(c, s, a) && Runs(c, s, a + [Piping(Pipeline.Release(false))] + b)
    requires Pipeline.Emits(c.plan, Final(c, s, a).pipe.next)
    ensures var t := Final(c, s, a + [Piping(Pipeline.Release(false))] + b);
            var was := Final(c, s, a).pipe;
            t.pipe.emitted == was.emitted + [was.next] && t.pipe.cancelled && t.fetch.cancelled
  {
    var refused := [Piping(Pipeline.Release(false))];
    var steps := a + refused + b;
    InitInv(c, s);
    RunInv(c, s, steps);
    RefinesPipeline(c, s, a);
    RefinesPipeline(c, s, steps);
    PipeStepsConcat(a + refused, b);
    PipeStepsConcat(a, refused);
    hide Runs, Final, Pipeline.Runs, Pipeline.Final, BlockFetch.Inv, Pipeline.Inv;
    assert PipeSteps(refused) == [Pipeline.Release(false)] by { assert refused[..0] == []; }
    Pipeline.RefusalIsFinal(c.plan, PipeSteps(a), PipeSteps(b));
  }

  /** Both pools are cancelled by the caller or by a refusal, and for no other reason. */
  lemma CancelledExactly(c: Setup, s: State, steps: seq<Step>)
    requires Init(c, s) && Runs(c, s, steps) && Pipeline.Runs(c.plan, PipeSteps(steps))
    ensures var t := Final(c, s, steps);
            t.fetch.cancelled == t.pipe.cancelled
            && (t.pipe.cancelled <==> Cancel in steps || Pipeline.Refused(c.plan, PipeSteps(steps)))
  {
    InitInv(c, s);
    RunInv(c, s, steps);
    RefinesPipeline(c, s, steps);
    NoPipedCancel(c, s, steps);
    CancelSeen(steps);
    hide Runs, Final, Pipeline.Runs, Pipeline.Final, BlockFetch.Inv, Pipeline.Inv;
    Pipeline.CancelledExactly(c.plan, PipeSteps(steps));
  }
}
