/**
 The parallel block-fetch pool (jetstream/downloader.go:339-509): a coordinator that
 takes a token per block and queues its job and its future, fetch workers, and the
 framer that consumes the futures in order and gives one token back for each.
 Positions number the blocks of the whole plan in plan order; `entryOf` tells which
 entry, and so which futures channel, a position belongs to.
 */
module BlockFetch {
  const MAX_POOL := 64

  /** Fetches are round trips, so the pool is wider than the decode pool, up to a cap. */
  function PoolSize(concurrency: nat): (size: nat)
    ensures size <= 2 * concurrency && size <= MAX_POOL && (size == 2 * concurrency || size == MAX_POOL)
    ensures concurrency >= 1 ==> size >= 1
  {
    if 2 * concurrency < MAX_POOL then 2 * concurrency else MAX_POOL
  }

  /** Which of its three channel operations the coordinator is at for its current block. */
  datatype Stage = NeedsToken | NeedsJob | NeedsFuture

  datatype State = State(
    size: nat, entryOf: seq<nat>,
    stage: Stage, tokens: nat, queued: nat, streamed: nat,
    taken: nat, busy: set<nat>, fetched: set<nat>, consumed: nat, requests: seq<nat>,
    cancelled: bool, coordinatorDone: bool, framerDone: bool)

  datatype Step =
    | TakeToken | QueueJob | StreamFuture | CoordinatorEnd
    | Fetch | Answer(q: nat)
    | Consume | FramerEnd
    | Cancel

  ghost predicate Init(s: State) {
    && s.size >= 1 && s.stage.NeedsToken? && s.tokens == 0 && s.queued == 0 && s.streamed == 0
    && s.taken == 0 && s.busy == {} && s.fetched == {} && s.consumed == 0 && s.requests == []
    && !s.cancelled && !s.coordinatorDone && !s.framerDone
  }

  /** Futures of one entry that the framer has not consumed: what its channel holds. */
  function Waiting(entryOf: seq<nat>, lo: nat, hi: nat, entry: nat): (n: nat)
    requires lo <= hi <= |entryOf|
    ensures n <= hi - lo
    decreases hi - lo
  {
    if lo == hi then 0
    else Waiting(entryOf, lo, hi - 1, entry) + if entryOf[hi - 1] == entry then 1 else 0
  }

  /**
   Cancellation lets coordinator and framer give up at any point; the workers drain
   the job channel either way.
   */
  predicate Enabled(s: State, step: Step) {
    match step
    case TakeToken => !s.coordinatorDone && s.stage.NeedsToken? && s.streamed < |s.entryOf| && s.tokens < 2 * s.size
    case QueueJob => !s.coordinatorDone && s.stage.NeedsJob? && s.queued < s.taken + s.size
    case StreamFuture =>
      && !s.coordinatorDone && s.stage.NeedsFuture? && s.consumed <= s.streamed < |s.entryOf|
      && Waiting(s.entryOf, s.consumed, s.streamed, s.entryOf[s.streamed]) < s.size
    case CoordinatorEnd => !s.coordinatorDone && (s.cancelled || s.streamed == |s.entryOf|)
    case Fetch => s.taken < s.queued && |s.busy| < s.size
    case Answer(q) => q in s.busy
    case Consume => !s.framerDone && s.consumed < s.streamed && s.consumed in s.fetched && s.tokens > 0
    case FramerEnd => !s.framerDone && (s.cancelled || s.consumed == |s.entryOf|)
    case Cancel => !s.cancelled
  }

  function Apply(s: State, step: Step): State
    requires Enabled(s, step)
  {
    match step
    case TakeToken => s.(tokens := s.tokens + 1, stage := NeedsJob)
    case QueueJob => s.(queued := s.queued + 1, stage := NeedsFuture)
    case StreamFuture => s.(streamed := s.streamed + 1, stage := NeedsToken)
    case CoordinatorEnd => s.(coordinatorDone := true)
    case Fetch => s.(taken := s.taken + 1, busy := s.busy + {s.taken}, requests := s.requests + [s.taken])
    case Answer(q) => s.(busy := s.busy - {q}, fetched := s.fetched + {q})
    case Consume => s.(consumed := s.consumed + 1, tokens := s.tokens - 1)
    case FramerEnd => s.(framerDone := true)
    case Cancel => s.(cancelled := true)
  }

  /** Everyone has left: the workers do once the closed job channel is drained. */
  predicate Finished(s: State) {
    s.coordinatorDone && s.framerDone && s.taken == s.queued && s.busy == {}
  }

  ghost predicate Runs(s: State, steps: seq<Step>)
    decreases |steps|, 0
  {
    steps == [] || (Runs(s, steps[..|steps| - 1]) && Enabled(Final(s, steps[..|steps| - 1]), steps[|steps| - 1]))
  }

  ghost function Final(s: State, steps: seq<Step>): State
    requires Runs(s, steps)
    decreases |steps|, 1
  {
    if steps == [] then s else Apply(Final(s, steps[..|steps| - 1]), steps[|steps| - 1])
  }

  /** The counters follow one another, and tokens count the blocks under way. */
  ghost predicate Counts(s: State) {
    && s.size >= 1
    && s.consumed <= s.streamed <= s.queued <= |s.entryOf| && s.taken <= s.queued
    && s.queued == s.streamed + (if s.stage.NeedsFuture? then 1 else 0)
    && (!s.stage.NeedsToken? ==> s.streamed < |s.entryOf|)
    && s.tokens == s.streamed - s.consumed + (if s.stage.NeedsToken? then 0 else 1)
    && s.tokens <= 2 * s.size
    && (s.coordinatorDone && !s.cancelled ==> s.streamed == |s.entryOf|)
    && (s.framerDone && !s.cancelled ==> s.consumed == |s.entryOf|)
  }

  /** A taken job is busy or fetched, never both, and only taken jobs are either. */
  ghost predicate Sorted(busy: set<nat>, fetched: set<nat>, taken: nat, consumed: nat) {
    && (forall q :: q in busy || q in fetched ==> q < taken)
    && (forall q :: 0 <= q < taken ==> (q in busy <==> q !in fetched))
    && (forall q :: 0 <= q < consumed ==> q in fetched)
    && |busy| + |fetched| == taken
  }

  /** Requests went out once each, in plan order. */
  ghost predicate Workers(s: State) {
    Sorted(s.busy, s.fetched, s.taken, s.consumed) && InOrder(s.requests, s.taken)
  }

  ghost predicate InOrder(requests: seq<nat>, taken: nat) {
    |requests| == taken && forall k :: 0 <= k < taken ==> requests[k] == k
  }

  ghost predicate Inv(s: State) {
    Counts(s) && Workers(s)
  }

  /** How many steps it took to get here. */
  function Taken(s: State): nat {
    3 * s.streamed + Rank(s.stage) + s.taken + |s.fetched| + s.consumed
    + Flag(s.coordinatorDone) + Flag(s.framerDone) + Flag(s.cancelled)
  }

  function Rank(stage: Stage): nat {
    match stage case NeedsToken => 0 case NeedsJob => 1 case NeedsFuture => 2
  }

  function Flag(b: bool): (n: nat)
    ensures n <= 1
  {
    if b then 1 else 0
  }

  lemma CountsKept(s: State, step: Step)
    requires Counts(s) && Enabled(s, step)
    ensures Counts(Apply(s, step)) && Apply(s, step).entryOf == s.entryOf && Apply(s, step).size == s.size
  {
    hide Waiting;
  }

  lemma SortedFetch(busy: set<nat>, fetched: set<nat>, taken: nat, consumed: nat)
    requires Sorted(busy, fetched, taken, consumed)
    ensures Sorted(busy + {taken}, fetched, taken + 1, consumed)
  {
    assert taken !in busy;
  }

  lemma InOrderFetch(requests: seq<nat>, taken: nat)
    requires InOrder(requests, taken)
    ensures InOrder(requests + [taken], taken + 1)
  {
  }

  lemma SortedAnswer(busy: set<nat>, fetched: set<nat>, taken: nat, consumed: nat, q: nat)
    requires Sorted(busy, fetched, taken, consumed) && q in busy
    ensures |fetched + {q}| == |fetched| + 1 && Sorted(busy - {q}, fetched + {q}, taken, consumed)
  {
    assert q !in fetched;
  }

  lemma WorkersKept(s: State, step: Step)
    requires Workers(s) && Enabled(s, step)
    ensures Workers(Apply(s, step))
  {
    hide Waiting, Sorted, InOrder;
    match step
    case Fetch =>
      SortedFetch(s.busy, s.fetched, s.taken, s.consumed);
      InOrderFetch(s.requests, s.taken);
    case Answer(q) => SortedAnswer(s.busy, s.fetched, s.taken, s.consumed, q);
    case Consume => SortedConsume(s.busy, s.fetched, s.taken, s.consumed);
    case _ =>
  }

  lemma OneMore(s: State, step: Step)
    requires Workers(s) && Enabled(s, step)
    ensures Taken(Apply(s, step)) == Taken(s) + 1
  {
    hide Waiting, Sorted, InOrder;
    match step
    case Answer(q) => SortedAnswer(s.busy, s.fetched, s.taken, s.consumed, q);
    case _ =>
  }

  lemma SortedConsume(busy: set<nat>, fetched: set<nat>, taken: nat, consumed: nat)
    requires Sorted(busy, fetched, taken, consumed) && consumed in fetched
    ensures Sorted(busy, fetched, taken, consumed + 1)
  {
  }

  lemma StepInv(s: State, step: Step)
    requires Inv(s) && Enabled(s, step)
    ensures Inv(Apply(s, step)) && Apply(s, step).entryOf == s.entryOf && Apply(s, step).size == s.size
    ensures Taken(Apply(s, step)) == Taken(s) + 1
  {
    hide Counts, Workers, Waiting, Apply, Enabled, Taken;
    CountsKept(s, step);
    WorkersKept(s, step);
    OneMore(s, step);
  }

  lemma {:induction false} RunInv(s: State, steps: seq<Step>)
    requires Inv(s) && Runs(s, steps)
    ensures Inv(Final(s, steps)) && Final(s, steps).entryOf == s.entryOf && Final(s, steps).size == s.size
    ensures Taken(Final(s, steps)) == Taken(s) + |steps|
    decreases |steps|
  {
    hide Inv, Apply, Taken;
    if steps != [] {
      RunInv(s, steps[..|steps| - 1]);
      StepInv(Final(s, steps[..|steps| - 1]), steps[|steps| - 1]);
    }
  }

  /**
   In every run, cancelled or not: requests go out once per block in plan order, a
   fetched block the framer has not consumed is one of at most 2 * size positions,
   and the run ends within six steps a block.
   */
  lemma RequestedOnceInOrder(s: State, steps: seq<Step>, q: nat)
    requires Init(s) && Runs(s, steps)
    ensures var t := Final(s, steps);
            && |t.requests| <= |s.entryOf| && (forall k :: 0 <= k < |t.requests| ==> t.requests[k] == k)
            && (q in t.fetched && q >= t.consumed ==> t.consumed <= q < t.queued <= t.consumed + 2 * s.size)
            && |steps| <= 6 * |s.entryOf| + 3
  {
    RunInv(s, steps);
  }

  /** In every state of a run but the last, some actor can move without waiting to be cancelled. */
  lemma CanStep(s: State) returns (step: Step)
    requires Inv(s) && !Finished(s)
    ensures Enabled(s, step) && !step.Cancel?
  {
    if s.busy != {} {
      var q :| q in s.busy;
      step := Answer(q);
    } else if s.taken < s.queued {
      step := Fetch;
    } else if !s.framerDone && (s.cancelled || s.consumed == |s.entryOf|) {
      step := FramerEnd;
    } else if !s.framerDone && s.consumed < s.streamed {
      step := Consume;
    } else if s.framerDone {
      step := CoordinatorEnd;
    } else {
      step := match s.stage case NeedsToken => TakeToken case NeedsJob => QueueJob case NeedsFuture => StreamFuture;
    }
  }

  /** Until everyone has left, the fetch pool is never stuck. */
  lemma NoDeadlock(s: State, steps: seq<Step>) returns (step: Step)
    requires Init(s) && Runs(s, steps) && !Finished(Final(s, steps))
    ensures Enabled(Final(s, steps), step) && !step.Cancel?
  {
    RunInv(s, steps);
    step := CanStep(Final(s, steps));
  }

  /** An uncancelled run that has ended requested and consumed every block, and all tokens are back. */
  lemma DrainedMeansAllRequested(s: State, steps: seq<Step>)
    requires Init(s) && Runs(s, steps) && Finished(Final(s, steps)) && !Final(s, steps).cancelled
    ensures var t := Final(s, steps);
            |t.requests| == t.consumed == |s.entryOf| && t.tokens == 0
  {
    RunInv(s, steps);
  }
}
