/**
 The relay's event fan-out (EventManager.Subscribe in events/events.go): a cursor
 subscriber plays back persisted events, joins the live broadcast, plays back
 again up to the first live event, and then copies live events, while writers
 keep persisting. Events are identified by their sequence numbers.
 */
module Fanout {
  import opened Common

  /** A log of persisted events: positive, strictly increasing sequence numbers. */
  ghost predicate IsLog(log: seq<int>) {
    (forall i, j :: 0 <= i < j < |log| ==> log[i] < log[j]) && forall i :: 0 <= i < |log| ==> 0 < log[i]
  }

  function Tip(log: seq<int>): int {
    if log == [] then 0 else log[|log| - 1]
  }

  /** What a subscriber asked for: the events after its cursor, in order. */
  function After(log: seq<int>, since: int): seq<int> {
    if log == [] then []
    else After(log[..|log| - 1], since) + (if log[|log| - 1] > since then [log[|log| - 1]] else [])
  }

  /**
   Where the subscriber's goroutine is. `bound` is how much of the log existed
   when a playback began: a playback may run on past it but never stops short.
   */
  datatype Phase =
    | Playing(bound: nat)
    | Joining
    | Waiting
    | Catching(first: int, bound: nat)
    | Copying
    | Closed

  /**
   `sent` events of the log have been broadcast: a writer appends and broadcasts
   under the persister's lock, but a playback may see the append first. `pos` is
   how far the subscriber has read the log, `queue` its live channel and `head` the
   place in the log of the channel's next event; `open` ends when that channel
   overflows.
   */
  datatype State = State(
    log: seq<int>, sent: nat,
    phase: Phase, pos: nat, joined: bool, open: bool, head: nat, queue: seq<int>, out: seq<int>)

  datatype Step =
    | Append(event: int) | Broadcast
    | PlayNext | PlayEnd | Join | TakeFirst | CatchNext | CatchEnd | Copy | Close

  /** The capacity of the live channel. */
  const BUFFER: nat := 16384

  predicate Enabled(s: State, step: Step) {
    match step
    case Append(e) => s.sent == |s.log| && Tip(s.log) < e
    case Broadcast => s.sent < |s.log|
    case PlayNext => s.phase.Playing? && s.pos < |s.log|
    case PlayEnd => s.phase.Playing? && s.phase.bound <= s.pos
    case Join => s.phase.Joining?
    case TakeFirst => s.phase.Waiting? && s.queue != []
    case CatchNext => s.phase.Catching? && s.pos < |s.log| && s.log[s.pos] <= s.phase.first
    case CatchEnd => s.phase.Catching? && (s.phase.bound <= s.pos || (s.pos < |s.log| && s.phase.first < s.log[s.pos]))
    case Copy => s.phase.Copying? && s.queue != []
    case Close => true
  }

  /** Playback hands on the next event of the log if it is after the cursor. */
  function Play(s: State, since: int): State
    requires s.pos < |s.log|
  {
    s.(pos := s.pos + 1, out := if s.log[s.pos] > since then s.out + [s.log[s.pos]] else s.out)
  }

  function Apply(s: State, since: int, step: Step): State
    requires Enabled(s, step)
  {
    match step
    case Append(e) => s.(log := s.log + [e])
    case Broadcast =>
      var t := s.(sent := s.sent + 1);
      if !s.joined || !s.open then t
      else if |s.queue| < BUFFER then t.(queue := s.queue + [s.log[s.sent]])
      else t.(open := false)
    case PlayNext => Play(s, since)
    case PlayEnd => s.(phase := Joining)
    case Join => s.(phase := Waiting, joined := true, head := s.sent)
    case TakeFirst => s.(phase := Catching(s.queue[0], |s.log|), queue := s.queue[1..], head := s.head + 1)
    case CatchNext => Play(s, since)
    case CatchEnd => s.(phase := Copying)
    case Copy => s.(queue := s.queue[1..], head := s.head + 1, out := s.out + [s.queue[0]], pos := s.pos + 1)
    case Close => s.(phase := Closed, joined := false)
  }

  /** The state when Subscribe is called with a cursor. */
  function Start(log: seq<int>, sent: nat): State {
    State(log, sent, Playing(|log|), 0, false, true, 0, [], [])
  }

  ghost predicate ValidStart(log: seq<int>, sent: nat) {
    IsLog(log) && sent <= |log| <= sent + 1
  }

  /** The highest cursor the crossover serves: one past the last event, unless that one is still to be broadcast. */
  function HighestCursor(log: seq<int>, sent: nat): int {
    if sent < |log| then Tip(log) else Tip(log) + 1
  }

  /** The live channel holds a contiguous run of the log from `head`. */
  ghost predicate Channel(s: State) {
    && s.head + |s.queue| <= s.sent <= |s.log|
    && (forall i :: 0 <= i < |s.queue| ==> s.queue[i] == s.log[s.head + i])
    && (s.open ==> s.head + |s.queue| == s.sent)
  }

  ghost predicate Seam(s: State, sent0: nat) {
    match s.phase
    case Playing(bound) => !s.joined && s.queue == [] && s.open && bound <= |s.log|
    case Joining => !s.joined && s.queue == [] && s.open
    case Waiting => s.joined && Channel(s) && sent0 <= s.head && s.pos <= s.head + 1
    case Catching(first, bound) =>
      s.joined && Channel(s) && sent0 < s.head <= bound <= |s.log| && s.pos <= s.head && first == s.log[s.head - 1]
    case Copying => s.joined && Channel(s) && sent0 < s.head && s.pos == s.head
    case Closed => !s.joined
  }

  ghost predicate Inv(s: State, sent0: nat) {
    && IsLog(s.log) && sent0 <= s.sent <= |s.log| <= s.sent + 1
    && s.pos <= |s.log|
    && Seam(s, sent0)
  }

  /** What has been delivered: the wanted part of the log read so far. */
  ghost predicate Delivered(s: State, since: int) {
    s.pos <= |s.log| && s.out == After(s.log[..s.pos], since)
  }

  lemma ChannelGrows(s: State, t: State, step: Step)
    requires Channel(s) && s.joined && Enabled(s, step) && (step.Append? || step.Broadcast?) && t == Apply(s, 0, step)
    ensures Channel(t) && t.head == s.head
  {
  }

  lemma ChannelTakes(s: State, t: State)
    requires Channel(s) && s.queue != [] && t.log == s.log && t.sent == s.sent && t.open == s.open
    requires t.queue == s.queue[1..] && t.head == s.head + 1
    ensures Channel(t) && s.queue[0] == s.log[s.head] && s.head < s.sent
  {
  }

  /** The log's order lets positions be compared by their events. */
  lemma Order(log: seq<int>, i: nat, j: nat)
    requires IsLog(log) && i < |log| && j < |log|
    ensures log[i] <= log[j] <==> i <= j
  {
    if i < j { assert log[i] < log[j]; }
    if j < i { assert log[j] < log[i]; }
  }

  lemma WriterSeam(s: State, since: int, sent0: nat, step: Step)
    requires Inv(s, sent0) && Enabled(s, step) && (step.Append? || step.Broadcast?)
    ensures Inv(Apply(s, since, step), sent0)
  {
    hide IsLog, Channel, After;
    if step.Append? { LogSnoc(s.log, step.event); }
    if s.joined { ChannelGrows(s, Apply(s, since, step), step); ChannelBounds(s); }
  }

  lemma ChannelBounds(s: State)
    requires Channel(s)
    ensures s.head <= s.sent
  {
  }

  lemma ReaderSeam(s: State, since: int, sent0: nat, step: Step)
    requires Inv(s, sent0) && Enabled(s, step) && (step.PlayNext? || step.PlayEnd? || step.CatchNext? || step.CatchEnd?)
    ensures Inv(Apply(s, since, step), sent0)
  {
    hide IsLog, After;
    match step {
      case CatchNext => Order(s.log, s.pos, s.head - 1);
      case CatchEnd => if s.pos < |s.log| { Order(s.log, s.pos, s.head - 1); }
      case _ =>
    }
  }

  lemma ChannelSeam(s: State, since: int, sent0: nat, step: Step)
    requires Inv(s, sent0) && Enabled(s, step) && (step.Join? || step.TakeFirst? || step.Copy? || step.Close?)
    ensures Inv(Apply(s, since, step), sent0)
  {
    hide IsLog, After;
    match step {
      case TakeFirst => ChannelTakes(s, Apply(s, since, step));
      case Copy => ChannelTakes(s, Apply(s, since, step));
      case _ =>
    }
  }

  lemma StepInv(s: State, since: int, sent0: nat, step: Step)
    requires Inv(s, sent0) && Enabled(s, step)
    ensures Inv(Apply(s, since, step), sent0)
  {
    hide Inv, Enabled, Apply;
    match step
    case Append(_) => WriterSeam(s, since, sent0, step);
    case Broadcast => WriterSeam(s, since, sent0, step);
    case Join => ChannelSeam(s, since, sent0, step);
    case TakeFirst => ChannelSeam(s, since, sent0, step);
    case Copy => ChannelSeam(s, since, sent0, step);
    case Close => ChannelSeam(s, since, sent0, step);
    case _ => ReaderSeam(s, since, sent0, step);
  }

  lemma AfterSnoc(log: seq<int>, n: nat, since: int)
    requires n < |log|
    ensures After(log[..n + 1], since) == After(log[..n], since) + (if log[n] > since then [log[n]] else [])
  {
    assert log[..n + 1][..n] == log[..n];
  }

  lemma LogSnoc(log: seq<int>, e: int)
    requires IsLog(log) && Tip(log) < e
    ensures IsLog(log + [e])
  {
  }

  /** What is copied live came after the first live event, so past every cursor that is served. */
  lemma LiveIsLater(log0: seq<int>, sent0: nat, log: seq<int>, i: nat)
    requires ValidStart(log0, sent0) && IsLog(log) && log0 <= log && sent0 < i < |log|
    ensures HighestCursor(log0, sent0) < log[i]
  {
    assert sent0 > 0 ==> log[sent0 - 1] < log[sent0];
    assert log[sent0] < log[i];
  }

  lemma StepDelivered(log0: seq<int>, sent0: nat, s: State, since: int, step: Step)
    requires ValidStart(log0, sent0) && log0 <= s.log && since <= HighestCursor(log0, sent0)
    requires Inv(s, sent0) && Enabled(s, step) && Delivered(s, since)
    ensures Delivered(Apply(s, since, step), since) && log0 <= Apply(s, since, step).log
  {
    hide IsLog, After;
    var t := Apply(s, since, step);
    match step {
      case Append(e) => assert t.log[..s.pos] == s.log[..s.pos];
      case PlayNext => AfterSnoc(s.log, s.pos, since);
      case CatchNext => AfterSnoc(s.log, s.pos, since);
      case Copy =>
        AfterSnoc(s.log, s.pos, since);
        LiveIsLater(log0, sent0, s.log, s.pos);
      case _ =>
    }
  }

  predicate Runs(log: seq<int>, sent: nat, since: int, steps: seq<Step>)
    decreases |steps|, 0
  {
    steps == []
    || (Runs(log, sent, since, steps[..|steps| - 1])
        && Enabled(Final(log, sent, since, steps[..|steps| - 1]), steps[|steps| - 1]))
  }

  function Final(log: seq<int>, sent: nat, since: int, steps: seq<Step>): State
    requires Runs(log, sent, since, steps)
    decreases |steps|, 1
  {
    if steps == [] then Start(log, sent)
    else Apply(Final(log, sent, since, steps[..|steps| - 1]), since, steps[|steps| - 1])
  }

  /** The seam between playback and live copy holds whatever the cursor. */
  lemma {:induction false} SeamInv(log: seq<int>, sent: nat, since: int, steps: seq<Step>)
    requires ValidStart(log, sent) && Runs(log, sent, since, steps)
    ensures Inv(Final(log, sent, since, steps), sent)
  {
    if steps != [] {
      SeamInv(log, sent, since, steps[..|steps| - 1]);
      hide Inv, Enabled, Apply;
      StepInv(Final(log, sent, since, steps[..|steps| - 1]), since, sent, steps[|steps| - 1]);
    }
  }

  lemma {:induction false} RunInv(log: seq<int>, sent: nat, since: int, steps: seq<Step>)
    requires ValidStart(log, sent) && since <= HighestCursor(log, sent) && Runs(log, sent, since, steps)
    ensures var s := Final(log, sent, since, steps);
            Inv(s, sent) && Delivered(s, since) && log <= s.log
  {
    if steps == [] {
      assert log[..0] == [];
    } else {
      var before, step := steps[..|steps| - 1], steps[|steps| - 1];
      RunInv(log, sent, since, before);
      var s := Final(log, sent, since, before);
      StepInv(s, since, sent, step);
      StepDelivered(log, sent, s, since, step);
    }
  }

  lemma {:induction false} AfterPrefix(log: seq<int>, n: nat, since: int)
    requires n <= |log|
    ensures After(log[..n], since) <= After(log, since)
    decreases |log| - n
  {
    if n == |log| {
      assert log[..n] == log;
    } else {
      AfterPrefix(log, n + 1, since);
      AfterSnoc(log, n, since);
    }
  }

  /**
   A cursor subscriber's channel carries the events after its cursor, in order and
   once each: at every moment a prefix of them, through both playbacks, the live
   copy, an overflow or a close, whatever the writers do meanwhile. Once it copies
   live events and nothing is in flight, it has them all.
   */
  lemma SubscribeExact(log: seq<int>, sent: nat, since: int, steps: seq<Step>)
    requires ValidStart(log, sent) && since <= HighestCursor(log, sent) && Runs(log, sent, since, steps)
    ensures var s := Final(log, sent, since, steps);
            && s.out <= After(s.log, since)
            && (s.phase.Copying? && s.open && s.queue == [] && s.sent == |s.log| ==> s.out == After(s.log, since))
  {
    var s := Final(log, sent, since, steps);
    RunInv(log, sent, since, steps);
    AfterPrefix(s.log, s.pos, since);
    assert s.pos == |s.log| ==> s.log[..s.pos] == s.log;
  }

  /** A schedule extended by one step. */
  lemma Extend(log: seq<int>, sent: nat, since: int, steps: seq<Step>, step: Step)
    requires Runs(log, sent, since, steps) && Enabled(Final(log, sent, since, steps), step)
    ensures Runs(log, sent, since, steps + [step])
    ensures Final(log, sent, since, steps + [step]) == Apply(Final(log, sent, since, steps), since, step)
  {
    assert (steps + [step])[..|steps|] == steps;
  }

  /** Reading the log with a cursor past its end delivers nothing. */
  lemma {:induction false} PlayThrough(log: seq<int>, sent: nat, since: int, n: nat) returns (steps: seq<Step>)
    requires IsLog(log) && n <= |log| && Tip(log) <= since
    ensures Runs(log, sent, since, steps)
    ensures Final(log, sent, since, steps) == Start(log, sent).(pos := n)
  {
    if n == 0 {
      steps := [];
    } else {
      steps := PlayThrough(log, sent, since, n - 1);
      assert log[n - 1] <= Tip(log);
      Extend(log, sent, since, steps, PlayNext);
      steps := steps + [PlayNext];
    }
  }

  lemma Go(log: seq<int>, sent: nat, since: int, steps: seq<Step>, s: State, step: Step)
    returns (steps': seq<Step>, s': State)
    requires Runs(log, sent, since, steps) && Final(log, sent, since, steps) == s && Enabled(s, step)
    ensures steps' == steps + [step] && s' == Apply(s, since, step)
    ensures Runs(log, sent, since, steps') && Final(log, sent, since, steps') == s'
  {
    Extend(log, sent, since, steps, step);
    steps', s' := steps + [step], Apply(s, since, step);
  }

  /**
   A cursor above the bound has a schedule that delivers an event at or before it:
   the live copy does not look at the cursor.
   */
  lemma FutureCursorDelivers(log: seq<int>, sent: nat, since: int) returns (steps: seq<Step>)
    requires ValidStart(log, sent) && since > HighestCursor(log, sent)
    ensures Runs(log, sent, since, steps)
    ensures exists e :: e in Final(log, sent, since, steps).out && e <= since
  {
    hide Runs, Final, IsLog;
    steps := PlayThrough(log, sent, since, |log|);
    var s := Start(log, sent).(pos := |log|);
    steps, s := Go(log, sent, since, steps, s, PlayEnd);
    steps, s := Go(log, sent, since, steps, s, Join);
    if sent == |log| {
      steps, s := Go(log, sent, since, steps, s, Append(Tip(log) + 1));
    }
    steps, s := Go(log, sent, since, steps, s, Broadcast);
    steps, s := Go(log, sent, since, steps, s, TakeFirst);
    if sent == |log| {
      steps, s := Go(log, sent, since, steps, s, CatchNext);
    }
    steps, s := Go(log, sent, since, steps, s, CatchEnd);
    steps := CopyOne(log, sent, since, steps, s, HighestCursor(log, sent) + 1);
  }

  /** An idle live subscriber is handed whatever is written next. */
  lemma CopyOne(log: seq<int>, sent: nat, since: int, steps: seq<Step>, s: State, e: int) returns (steps': seq<Step>)
    requires Runs(log, sent, since, steps) && Final(log, sent, since, steps) == s
    requires s.phase.Copying? && s.joined && s.open && s.queue == [] && s.sent == |s.log| && Tip(s.log) < e
    ensures Runs(log, sent, since, steps') && e in Final(log, sent, since, steps').out
  {
    hide Runs, Final;
    var t := s;
    steps', t := Go(log, sent, since, steps, t, Append(e));
    steps', t := Go(log, sent, since, steps', t, Broadcast);
    steps', t := Go(log, sent, since, steps', t, Copy);
    assert e in t.out;
  }

  lemma {:induction false} AfterAbove(log: seq<int>, since: int, e: int)
    requires e in After(log, since)
    ensures since < e
  {
    if e in After(log[..|log| - 1], since) { AfterAbove(log[..|log| - 1], since, e); }
  }

  /** Exactly the cursors up to the bound are served correctly in every schedule. */
  lemma ServedExactlyUpToBound(log: seq<int>, sent: nat, since: int)
    requires ValidStart(log, sent)
    ensures since <= HighestCursor(log, sent) <==>
            forall steps :: Runs(log, sent, since, steps) ==>
              Final(log, sent, since, steps).out <= After(Final(log, sent, since, steps).log, since)
  {
    if since <= HighestCursor(log, sent) {
      forall steps | Runs(log, sent, since, steps)
        ensures Final(log, sent, since, steps).out <= After(Final(log, sent, since, steps).log, since)
      {
        SubscribeExact(log, sent, since, steps);
      }
    } else {
      var steps := FutureCursorDelivers(log, sent, since);
      var s := Final(log, sent, since, steps);
      var e :| e in s.out && e <= since;
      if s.out <= After(s.log, since) { AfterAbove(s.log, since, e); }
    }
  }

  /**
   Joining late: an event persisted between the first playback and the join stays
   undelivered, with the subscriber able to do nothing but wait, until one more
   event is broadcast.
   */
  lemma LateEventWaits(log: seq<int>, since: int, e: int) returns (steps: seq<Step>)
    requires IsLog(log) && Tip(log) <= since < e
    ensures Runs(log, |log|, since, steps)
    ensures var s := Final(log, |log|, since, steps);
            && s.out == [] && After(s.log, since) != []
            && forall step :: Enabled(s, step) ==> step.Append? || step.Close?
  {
    hide Runs, Final, IsLog;
    steps := PlayThrough(log, |log|, since, |log|);
    var s := Start(log, |log|).(pos := |log|);
    steps, s := Go(log, |log|, since, steps, s, PlayEnd);
    steps, s := Go(log, |log|, since, steps, s, Append(e));
    steps, s := Go(log, |log|, since, steps, s, Broadcast);
    steps, s := Go(log, |log|, since, steps, s, Join);
    assert s.log[..|log|] == log;
  }

  /** Nothing is in flight: only a writer or a close can still do anything. */
  ghost predicate AtRest(s: State) {
    s.open && !s.phase.Closed? && forall step :: Enabled(s, step) ==> step.Append? || step.Close?
  }

  /** Joined, but still waiting for its first live event, with a wanted event already in the log. */
  predicate LeftWaiting(s: State, since: int) {
    s.phase.Waiting? && s.pos < |s.log| && since < Tip(s.log)
  }

  /** What stopping short of the end of the log costs. */
  lemma {:induction false} AfterShort(log: seq<int>, n: nat, since: int)
    requires IsLog(log) && n <= |log|
    ensures After(log[..n], since) == After(log, since) <==> n == |log| || Tip(log) <= since
    decreases |log| - n
  {
    if n == |log| {
      assert log[..n] == log;
    } else {
      AfterSnoc(log, n, since);
      assert n < |log| - 1 ==> log[n] < Tip(log);
      AfterPrefix(log, n + 1, since);
      AfterShort(log, n + 1, since);
    }
  }

  /** A subscriber at rest has everything after its cursor, except exactly when it is left waiting. */
  lemma RestingExactly(log: seq<int>, sent: nat, since: int, steps: seq<Step>)
    requires ValidStart(log, sent) && since <= HighestCursor(log, sent) && Runs(log, sent, since, steps)
    requires AtRest(Final(log, sent, since, steps))
    ensures var s := Final(log, sent, since, steps);
            s.out == After(s.log, since) <==> !LeftWaiting(s, since)
  {
    var s := Final(log, sent, since, steps);
    RunInv(log, sent, since, steps);
    hide After;
    assert !Enabled(s, Broadcast) && !Enabled(s, PlayNext) && !Enabled(s, PlayEnd) && !Enabled(s, Join);
    assert !Enabled(s, TakeFirst) && !Enabled(s, CatchNext) && !Enabled(s, CatchEnd) && !Enabled(s, Copy);
    AfterShort(s.log, s.pos, since);
  }

  /** An event was broadcast to a joined subscriber that had 16384 waiting. */
  ghost predicate Overflowed(log: seq<int>, sent: nat, since: int, steps: seq<Step>)
    requires Runs(log, sent, since, steps)
    decreases |steps|
  {
    steps != []
    && var init := steps[..|steps| - 1];
       var s := Final(log, sent, since, init);
       Overflowed(log, sent, since, init)
       || (steps[|steps| - 1].Broadcast? && s.joined && |s.queue| >= 16384)
  }

  lemma OpenStep(s: State, since: int, step: Step)
    requires Enabled(s, step)
    ensures Apply(s, since, step).open <==> s.open && !(step.Broadcast? && s.joined && |s.queue| >= 16384)
  {
  }

  /** A subscriber is cut off for having 16384 events waiting when one more comes, and for nothing else. */
  lemma {:induction false} CutOffExactly(log: seq<int>, sent: nat, since: int, steps: seq<Step>)
    requires Runs(log, sent, since, steps)
    ensures Final(log, sent, since, steps).open <==> !Overflowed(log, sent, since, steps)
    decreases |steps|
  {
    hide Enabled, Apply;
    if steps != [] {
      CutOffExactly(log, sent, since, steps[..|steps| - 1]);
      OpenStep(Final(log, sent, since, steps[..|steps| - 1]), since, steps[|steps| - 1]);
    }
  }

  /** Steps that need neither a new event nor a close. */
  predicate Quiet(step: Step) {
    !step.Append? && !step.Close?
  }

  /** How many of them can still follow: broadcasts, live copies, what playback has yet to read, and phases to go. */
  function Ahead(s: State): int {
    2 * (|s.log| - s.sent) + |s.queue|
    + match s.phase
      case Playing(_) => |s.log| - s.pos + 4
      case Joining => |s.log| - s.pos + 3
      case Waiting => |s.log| - s.pos + 2
      case Catching(_, _) => |s.log| - s.pos + 1
      case Copying => 0
      case Closed => 0
  }

  lemma QuietStep(s: State, since: int, sent0: nat, step: Step)
    requires Inv(s, sent0) && Enabled(s, step) && Quiet(step)
    ensures 0 <= Ahead(Apply(s, since, step)) < Ahead(s)
  {
    hide IsLog, After, Channel;
    StepInv(s, since, sent0, step);
  }

  /** Left alone by writers, a subscription comes to rest: no schedule goes on for longer than what is ahead. */
  lemma {:induction false} ComesToRest(log: seq<int>, sent: nat, since: int, a: seq<Step>, b: seq<Step>)
    requires ValidStart(log, sent) && Runs(log, sent, since, a + b)
    requires Runs(log, sent, since, a) && forall i :: 0 <= i < |b| ==> Quiet(b[i])
    ensures |b| + Ahead(Final(log, sent, since, a + b)) <= Ahead(Final(log, sent, since, a))
    ensures 0 <= Ahead(Final(log, sent, since, a + b))
    decreases |b|
  {
    SeamInv(log, sent, since, a + b);
    if b == [] {
      assert a + b == a;
    } else {
      var init, last := b[..|b| - 1], b[|b| - 1];
      assert (a + b)[..|a + b| - 1] == a + init;
      ComesToRest(log, sent, since, a, init);
      SeamInv(log, sent, since, a + init);
      hide Inv, Ahead, Apply, Enabled;
      QuietStep(Final(log, sent, since, a + init), since, sent, last);
    }
  }

  /** And rest is within reach of every state: some quiet schedule leads to where no quiet step is left. */
  lemma {:induction false} RestIsReached(log: seq<int>, sent: nat, since: int, a: seq<Step>) returns (b: seq<Step>)
    requires ValidStart(log, sent) && Runs(log, sent, since, a)
    ensures Runs(log, sent, since, a + b) && forall i :: 0 <= i < |b| ==> Quiet(b[i])
    ensures forall step :: Enabled(Final(log, sent, since, a + b), step) ==> !Quiet(step)
    decreases Ahead(Final(log, sent, since, a))
  {
    var s := Final(log, sent, since, a);
    SeamInv(log, sent, since, a);
    if step :| Enabled(s, step) && Quiet(step) {
      Extend(log, sent, since, a, step);
      QuietStep(s, since, sent, step);
      hide Runs, Final;
      var rest := RestIsReached(log, sent, since, a + [step]);
      Assoc(a, [step], rest);
      b := [step] + rest;
    } else {
      b := [];
      assert a + b == a;
    }
  }

  /** How a playback of a log that grows meanwhile looks step by step: the writers' steps, then so many events read. */
  lemma {:induction false} Grows(log: seq<int>, more: seq<int>, since: int, k: nat) returns (steps: seq<Step>)
    requires IsLog(log + more) && k <= |more|
    ensures Runs(log, |log|, since, steps)
    ensures Final(log, |log|, since, steps) == Start(log, |log|).(log := log + more[..k], sent := |log| + k)
    ensures forall i :: 0 <= i < |steps| ==> steps[i].Append? || steps[i].Broadcast?
  {
    if k == 0 {
      steps := [];
      assert log + more[..0] == log;
    } else {
      hide Runs, Final, After;
      steps := Grows(log, more, since, k - 1);
      var s := Start(log, |log|).(log := log + more[..k - 1], sent := |log| + k - 1);
      assert s.log == (log + more)[..|log| + k - 1] && (log + more)[|log| + k - 1] == more[k - 1];
      steps, s := Go(log, |log|, since, steps, s, Append(more[k - 1]));
      assert more[..k] == more[..k - 1] + [more[k - 1]];
      steps, s := Go(log, |log|, since, steps, s, Broadcast);
    }
  }

  /** One event read from the log. */
  lemma ReadOne(s: State, since: int)
    requires s.phase.Playing? && s.pos < |s.log| && s.out == After(s.log[..s.pos], since)
    ensures Enabled(s, PlayNext)
    ensures Apply(s, since, PlayNext) == s.(pos := s.pos + 1, out := After(s.log[..s.pos + 1], since))
  {
    AfterSnoc(s.log, s.pos, since);
  }

  lemma {:induction false} Reads(log: seq<int>, all: seq<int>, since: int, before: seq<Step>, n: nat)
    returns (steps: seq<Step>)
    requires Runs(log, |log|, since, before) && n <= |all|
    requires Final(log, |log|, since, before) == Start(log, |log|).(log := all, sent := |all|)
    ensures Runs(log, |log|, since, before + steps) && forall i :: 0 <= i < |steps| ==> steps[i].PlayNext?
    ensures Final(log, |log|, since, before + steps)
         == Start(log, |log|).(log := all, sent := |all|, pos := n, out := After(all[..n], since))
  {
    assert After([], since) == [];
    hide Runs, Final, After, Enabled, Apply;
    if n == 0 {
      steps := [];
      assert before + steps == before && all[..0] == [];
    } else {
      steps := Reads(log, all, since, before, n - 1);
      var s := Start(log, |log|).(log := all, sent := |all|, pos := n - 1, out := After(all[..n - 1], since));
      ReadOne(s, since);
      Assoc(before, steps, [PlayNext]);
      var done;
      done, s := Go(log, |log|, since, before + steps, s, PlayNext);
      steps := steps + [PlayNext];
    }
  }

  /** What was handed on is the output of a first playback of a subscription, with the log growing meanwhile. */
  ghost predicate IsPlayback(log: seq<int>, all: seq<int>, since: int, out: seq<int>) {
    exists steps: seq<Step> ::
      && Runs(log, |log|, since, steps)
      && (forall i :: 0 <= i < |steps| ==>
            steps[i].Append? || steps[i].Broadcast? || steps[i].PlayNext? || steps[i].PlayEnd?)
      && var s := Final(log, |log|, since, steps);
         s.phase.Joining? && s.log == all && s.out == out
  }

  /**
   A playback that handed on the log up to some point at or past where it began is
   one of the playbacks of the subscription: writers' steps, reads, and its end.
   */
  lemma PlaybackRealised(log: seq<int>, more: seq<int>, since: int, n: nat) returns (steps: seq<Step>)
    requires IsLog(log + more) && |log| <= n <= |log + more|
    ensures Runs(log, |log|, since, steps)
    ensures Final(log, |log|, since, steps)
         == Start(log, |log|).(log := log + more, sent := |log + more|, pos := n,
                               out := After((log + more)[..n], since), phase := Joining)
    ensures IsPlayback(log, log + more, since, After((log + more)[..n], since))
  {
    hide Runs, Final, IsLog, After;
    var writes := Grows(log, more, since, |more|);
    assert more[..|more|] == more;
    var plays := Reads(log, log + more, since, writes, n);
    var s := Start(log, |log|).(log := log + more, sent := |log + more|, pos := n,
                                out := After((log + more)[..n], since));
    steps, s := Go(log, |log|, since, writes + plays, s, PlayEnd);
  }
}
