/**
 The replay engine against the archive's own planner and a live endpoint that serves
 the same log: everything the engine's guarantees ask of its servers is met.
 */
module EndToEnd {
  import opened Common
  import opened EventLog
  import opened Delivery
  import opened LiveTail
  import opened Sweep
  import opened Engine
  import BlockIndex
  import Planner
  import Resume

  /** The log from a sequence number on, as frames. */
  function FramesFrom(log: seq<Event>, start: nat): seq<Frame> {
    if log == [] then []
    else
      var rest, e := FramesFrom(log[..|log| - 1], start), log[|log| - 1];
      if start <= e.seqNo then rest + [Data(e)] else rest
  }

  function LastSeq(log: seq<Event>): Seq {
    if log == [] then 0 else log[|log| - 1].seqNo
  }

  /**
   An endpoint that replays the log from the cursor. `given(i)` frames get through
   before the i-th connection breaks, and cursors below `floor(i)` are too old.
   */
  function Endpoint(log: seq<Event>, given: nat -> nat, floor: nat -> Seq): Dialer {
    (i: nat, wire: Option<Seq>) =>
      if wire.Some? && wire.value < floor(i) then Refused(CursorTooOld, false)
      else
        var frames := FramesFrom(log, if wire.Some? then wire.value else LastSeq(log) + 1);
        Connected(if given(i) <= |frames| then frames[..given(i)] else frames, LastSeq(log), false)
  }

  lemma {:induction false} FramesMembers(log: seq<Event>, start: nat, f: Frame)
    ensures f in FramesFrom(log, start) <==> f.Data? && f.event in log && start <= f.event.seqNo
  {
    if log != [] {
      var init := log[..|log| - 1];
      FramesMembers(init, start, f);
      assert log == init + [log[|log| - 1]];
    }
  }

  /** The replay has no gap: whatever belongs before a frame comes before it. */
  lemma {:induction false} FramesGapless(log: seq<Event>, start: nat, i: nat, e: Event)
    requires Ascending(log) && i < |FramesFrom(log, start)| && e in log
    requires var f := FramesFrom(log, start)[i]; f.Data? && start <= e.seqNo < f.event.seqNo
    ensures Data(e) in FramesFrom(log, start)[..i]
  {
    var init, last := log[..|log| - 1], log[|log| - 1];
    var rest := FramesFrom(init, start);
    assert log == init + [last];
    if i < |rest| {
      FramesMembers(init, start, rest[i]);
      assert FramesFrom(log, start)[..i] == rest[..i];
      FramesGapless(init, start, i, e);
    } else {
      FramesMembers(init, start, Data(e));
      assert FramesFrom(log, start)[..i] == rest;
    }
  }

  /** Any initial part of a replay conforms. */
  lemma ReplayConforms(log: seq<Event>, req: PlanRequest, start: nat, n: nat, fromTip: bool)
    requires IsLog(log) && n <= |FramesFrom(log, start)|
    ensures FramesConform(FramesFrom(log, start)[..n], start, fromTip, log, req)
  {
    hide FramesFrom, Passes;
    var all := FramesFrom(log, start);
    var frames := all[..n];
    forall i, e | 0 <= i < n && frames[i].Data? && e in log && start <= e.seqNo < frames[i].event.seqNo
      ensures Data(e) in frames[..i]
    {
      FramesGapless(log, start, i, e);
      assert frames[..i] == all[..i];
    }
    forall i | 0 <= i < n
      ensures frames[i].Data? && frames[i].event in log && start <= frames[i].event.seqNo
    {
      FramesMembers(log, start, all[i]);
    }
  }

  /** However often it breaks off or refuses, such an endpoint conforms. */
  lemma EndpointConforms(log: seq<Event>, req: PlanRequest, given: nat -> nat, floor: nat -> Seq)
    requires IsLog(log)
    ensures DialConforms(Endpoint(log, given, floor), log, req)
  {
    hide FramesFrom, FramesConform, IsLog;
    var dial := Endpoint(log, given, floor);
    forall i: nat, wire: Option<Seq> ensures SessionConforms(dial(i, wire), wire, log, req) {
      var start := if wire.Some? then wire.value else LastSeq(log) + 1;
      var all := FramesFrom(log, start);
      var n := if given(i) <= |all| then given(i) else |all|;
      ReplayConforms(log, req, start, n, wire.None?);
      assert all[..|all|] == all;
    }
  }

  /**
   Everything a run meets besides the archive's contents: how far the archive is sealed
   at each plan call, how the live connections behave, what the consumer answers, and
   after how many calls of yield its process dies, if it does.
   */
  datatype World = World(
    sealed: nat -> nat,
    given: (nat, nat) -> nat,
    floor: (nat, nat) -> Seq,
    limits: nat -> nat,
    fast: bool,
    batchSize: int,
    answer: nat -> bool,
    crash: Option<nat>)

  /** The live endpoint of the k-th cycle. */
  function Tails(m: Planner.Manifest, w: World): nat -> Dialer {
    (k: nat) => Endpoint(Planner.Log(m.blocks), i => w.given(k, i), i => w.floor(k, i))
  }

  /**
   A run that nobody stopped reached at least the tip the archive had when it started,
   was sent back to the archive only by its endpoint, and heard out the tail it ended
   with; if no cursor was too old and one connection held, it reached the end of the log.
   */
  ghost predicate Reached(m: Planner.Manifest, w: World, req: PlanRequest, h: nat) {
    && (forall i :: 0 <= i < Planner.Sealed(m, w.sealed, 0) ==> m.blocks[i].hi <= h)
    && HeardOut(m, w, req, h)
    && (Holds(m, w) ==> LastSeq(Planner.Log(m.blocks)) <= h)
  }

  ghost predicate HeardOut(m: Planner.Manifest, w: World, req: PlanRequest, h: nat) {
    exists cycles: seq<Cycle>, why: Outcome, tail: TailRun ::
      HeardIn(m, w, req, h, cycles, why, tail)
  }

  ghost predicate HeardIn(m: Planner.Manifest, w: World, req: PlanRequest, h: nat, cycles: seq<Cycle>, why: Outcome,
                          tail: TailRun)
  {
    var server := Planner.Server(m, w.sealed);
    && Monotone(cycles, req.afterSeq) && AllSentBack(cycles, server, req, Tails(m, w), w.limits)
    && (why.Stuck? <==> TrailingStalls(cycles) == MAX_REBACKFILL_STALLS) && (why.Stuck? || tail.TailRun?)
    && RunEnded(why, false, tail, server, req, NextCursor(cycles, req.afterSeq), Tails(m, w)(|cycles|),
                w.limits(|cycles|), h)
  }

  /** No cursor is too old for the first endpoint, and one of its connections lasts. */
  predicate Holds(m: Planner.Manifest, w: World) {
    && (forall i: nat :: i < w.limits(0) ==> w.floor(0, i) == 0)
    && exists i: nat :: i < w.limits(0) && |Planner.Log(m.blocks)| <= w.given(0, i)
  }

  /** A connection that lasts brings the end of the log, unless it was asked from beyond it. */
  lemma LastFrame(log: seq<Event>, start: nat)
    requires IsLog(log) && log != [] && start <= LastSeq(log)
    ensures var frames := FramesFrom(log, start);
            frames != [] && frames[|frames| - 1] == Data(log[|log| - 1]) && StreamError !in frames
  {
    forall f | f in FramesFrom(log, start) ensures f.Data? {
      FramesMembers(log, start, f);
    }
  }

  lemma {:induction false} FramesShort(log: seq<Event>, start: nat)
    ensures |FramesFrom(log, start)| <= |log|
  {
    if log != [] { FramesShort(log[..|log| - 1], start); }
  }

  lemma AskedBehind(dialed: seq<Dial>, i: nat, cutover: Seq)
    requires AskedOn(dialed, cutover, false, Mark(cutover, false)) && i < |dialed|
    ensures dialed[i].wire.Some? && dialed[i].wire.value <= TailMark(dialed, Mark(cutover, false)).last
  {
    var start := Mark(cutover, false);
    TailGrows(dialed, i, start);
    TailHeard(dialed[..i], start, 0, 0);
  }

  lemma {:induction false} TailGrows(dialed: seq<Dial>, i: nat, m: Mark)
    requires i <= |dialed|
    ensures TailMark(dialed[..i], m).last <= TailMark(dialed, m).last
    decreases |dialed|
  {
    if i == |dialed| {
      assert dialed[..i] == dialed;
    } else {
      assert dialed[..|dialed| - 1][..i] == dialed[..i];
      TailGrows(dialed[..|dialed| - 1], i, m);
      var s := dialed[|dialed| - 1].session;
      if s.Connected? { ListenCovers(Readable(s.frames), TailMark(dialed[..|dialed| - 1], m), 0); }
    }
  }

  /** An endpoint for which no cursor is too old is dialled until the tail is cancelled. */
  lemma NeverSentBack(log: seq<Event>, given: nat -> nat, floor: nat -> Seq, dialed: seq<Dial>, limit: nat, end: RunEnd)
    requires KeptDialing(dialed, Endpoint(log, given, floor), limit, end, false)
    requires forall i: nat :: i < limit ==> floor(i) == 0
    ensures end.Clean? && |dialed| == limit && forall i :: 0 <= i < limit ==> dialed[i].session.Connected?
  {
    hide FramesFrom;
    forall i: nat | i < |dialed| ensures dialed[i].session.Connected? && !dialed[i].session.cancelled {
      assert dialed[i].session == Endpoint(log, given, floor)(i, dialed[i].wire);
    }
  }

  /** The connection that lasts brings whatever of the log is still missing. */
  lemma LastingSession(log: seq<Event>, given: nat -> nat, floor: nat -> Seq, dialed: seq<Dial>, cutover: Seq, i: nat)
    requires IsLog(log) && i < |dialed| && dialed[i].session.Connected? && |log| <= given(i)
    requires dialed[i].session == Endpoint(log, given, floor)(i, dialed[i].wire)
    requires AskedOn(dialed, cutover, false, Mark(cutover, false))
    ensures LastSeq(log) <= TailMark(dialed, Mark(cutover, false)).last
  {
    hide FramesFrom, AskedOn, TailMark, IsLog;
    AskedBehind(dialed, i, cutover);
    var start := dialed[i].wire.value;
    if log != [] && start <= LastSeq(log) {
      LastFrame(log, start);
      FramesShort(log, start);
      var frames := dialed[i].session.frames;
      assert frames == FramesFrom(log, start);
      TailHeard(dialed, Mark(cutover, false), i, |frames| - 1);
    }
  }

  lemma HeardTheEnd(m: Planner.Manifest, w: World, req: PlanRequest, h: nat, cycles: seq<Cycle>, why: Outcome,
                    tail: TailRun)
    requires HeardIn(m, w, req, h, cycles, why, tail) && Holds(m, w) && IsLog(Planner.Log(m.blocks))
    ensures LastSeq(Planner.Log(m.blocks)) <= h
  {
    hide AskedOn, TailMark, LearntTip, Monotone, IsLog, Planner.Log, Endpoint, KeptDialing;
    var log, given, floor := Planner.Log(m.blocks), (i: nat) => w.given(0, i), (i: nat) => w.floor(0, i);
    assert Tails(m, w)(0) == Endpoint(log, given, floor);
    if cycles != [] {
      assert SentBack(cycles[0], Planner.Server(m, w.sealed), req, Tails(m, w)(0), w.limits(0));
      NeverSentBack(log, given, floor, cycles[0].dialed, w.limits(0), TooOld);
    } else {
      NeverSentBack(log, given, floor, tail.dialed, w.limits(0), tail.end);
      var i: nat :| i < w.limits(0) && |log| <= w.given(0, i);
      SessionAt(tail.dialed, Endpoint(log, given, floor), w.limits(0), tail.end, i);
      LastingSession(log, given, floor, tail.dialed, tail.cutover, i);
    }
  }

  lemma SessionAt(dialed: seq<Dial>, dial: Dialer, limit: nat, end: RunEnd, i: nat)
    requires KeptDialing(dialed, dial, limit, end, false) && i < |dialed|
    ensures dialed[i].session == dial(i, dialed[i].wire)
  {
  }

  /** No mark passes a bound that the start and every frame keep to. */
  lemma {:induction false} ListenFits(frames: seq<Frame>, m: Mark, bound: nat)
    requires m.last <= bound && forall i :: 0 <= i < |frames| && frames[i].Data? ==> frames[i].event.seqNo <= bound
    ensures Listen(frames, m).last <= bound
  {
    if frames != [] { ListenFits(frames[..|frames| - 1], m, bound); }
  }

  lemma {:induction false} ReadableAre(frames: seq<Frame>, i: nat)
    requires i < |Readable(frames)|
    ensures i < |frames| && Readable(frames)[i] == frames[i]
  {
    if i > 0 { ReadableAre(frames[1..], i - 1); }
  }

  lemma {:induction false} MarkFits(m: Planner.Manifest, req: PlanRequest, dial: Dialer, given: nat -> nat,
                                    floor: nat -> Seq, dialed: seq<Dial>, start: Mark)
    requires Planner.IsManifest(m, req) && dial == Endpoint(Planner.Log(m.blocks), given, floor)
    requires start.last <= MAX_INT64 && forall i :: 0 <= i < |dialed| ==> dialed[i].session == dial(i, dialed[i].wire)
    ensures TailMark(dialed, start).last <= MAX_INT64
  {
    if dialed != [] {
      var init, d := dialed[..|dialed| - 1], dialed[|dialed| - 1];
      MarkFits(m, req, dial, given, floor, init, start);
      if d.session.Connected? {
        var frames := Readable(d.session.frames);
        forall i | 0 <= i < |frames| && frames[i].Data? ensures frames[i].event.seqNo <= MAX_INT64 {
          ReadableAre(d.session.frames, i);
          FrameFits(m, req, if d.wire.Some? then d.wire.value else LastSeq(Planner.Log(m.blocks)) + 1, frames[i]);
        }
        ListenFits(frames, TailMark(init, start), MAX_INT64);
      }
    }
  }

  lemma FrameFits(m: Planner.Manifest, req: PlanRequest, start: nat, f: Frame)
    requires Planner.IsManifest(m, req) && f in FramesFrom(Planner.Log(m.blocks), start)
    ensures f.Data? && f.event.seqNo <= MAX_INT64
  {
    FramesMembers(Planner.Log(m.blocks), start, f);
    Planner.LogMembers(m.blocks, f.event);
    var i :| 0 <= i < |m.blocks| && f.event in m.blocks[i].rows;
    assert Planner.WellFormed(m.blocks[i]);
  }

  /** The cursors of a run stay within the wire's signed range. */
  lemma {:induction false} CursorFits(m: Planner.Manifest, w: World, req: PlanRequest, cycles: seq<Cycle>, k: nat)
    requires Planner.IsManifest(m, req) && req.afterSeq <= MAX_INT64 && k <= |cycles|
    requires Monotone(cycles, req.afterSeq)
    requires AllSentBack(cycles, Planner.Server(m, w.sealed), req, Tails(m, w), w.limits)
    ensures NextCursor(cycles[..k], req.afterSeq) <= MAX_INT64
  {
    hide Planner.IsManifest, SentBack;
    if k > 0 {
      CursorFits(m, w, req, cycles, k - 1);
      assert cycles[k - 1].cursor == NextCursor(cycles[..k - 1], req.afterSeq);
      assert SentBack(cycles[k - 1], Planner.Server(m, w.sealed), req, Tails(m, w)(k - 1), w.limits(k - 1));
      CycleFits(m, w, req, cycles[k - 1], k - 1);
    }
  }

  lemma CycleFits(m: Planner.Manifest, w: World, req: PlanRequest, c: Cycle, k: nat)
    requires Planner.IsManifest(m, req) && c.cursor <= MAX_INT64
    requires SentBack(c, Planner.Server(m, w.sealed), req, Tails(m, w)(k), w.limits(k))
    ensures c.resume <= MAX_INT64
  {
    hide Planner.IsManifest, AskedOn, TailMark, LearntTip, Endpoint;
    TipFits(Planner.Server(m, w.sealed), req, c);
    MarkFits(m, req, Tails(m, w)(k), i => w.given(k, i), i => w.floor(k, i), c.dialed, Mark(c.cutover, false));
  }

  lemma TipFits(server: PlanServer, req: PlanRequest, c: Cycle)
    requires LearntTip(server, req, c.call, c.cursor, c.tip)
    ensures c.tip <= MAX_INT64
  {
  }

  /** The planner and the live endpoints of a world are what the engine asks for. */
  lemma WorldQualifies(m: Planner.Manifest, w: World, req: PlanRequest)
    requires Planner.IsManifest(m, req) && Planner.Growing(m, w.sealed)
    ensures var log, server := Planner.Log(m.blocks), Planner.Server(m, w.sealed);
            && IsLog(log) && HonestServer(server, log, req) && TidyServer(server, req, Planner.GridOf(m, req))
            && Steady(server, req) && forall k: nat :: DialConforms(Tails(m, w)(k), log, req)
  {
    hide Planner.IsManifest, Planner.Growing, Planner.Log, HonestServer, TidyServer, Steady, DialConforms, Endpoint;
    var log := Planner.Log(m.blocks);
    Planner.LogIsLog(m, req, |m.blocks|);
    assert m.blocks[..|m.blocks|] == m.blocks;
    Planner.PlannerIsHonest(m, req, w.sealed);
    Planner.PlannerIsTidy(m, req, w.sealed);
    Planner.PlannerIsSteady(m, req, w.sealed);
    forall k: nat ensures DialConforms(Tails(m, w)(k), log, req) {
      EndpointConforms(log, req, i => w.given(k, i), i => w.floor(k, i));
    }
  }

  /** The tip its first call is told is past everything sealed by then. */
  lemma FollowedTip(m: Planner.Manifest, w: World, req: PlanRequest, h: nat)
    requires Planner.IsManifest(m, req) && !req.hasBeforeSeq && Followed(Planner.Server(m, w.sealed), req, 0, h)
    ensures forall i :: 0 <= i < Planner.Sealed(m, w.sealed, 0) ==> m.blocks[i].hi <= h
  {
    hide Planner.IsManifest, Answer, Planner.Server;
    Planner.Answered(m, req, w.sealed, 0, req.afterSeq, None);
    Planner.TipIsHighest(m, req, Planner.Sealed(m, w.sealed, 0), None);
  }

  /** What the engine says of a run, in the world it ran in. */
  lemma RunReached(m: Planner.Manifest, w: World, req: PlanRequest, h: nat, cycles: seq<Cycle>, why: Outcome,
                   tail: TailRun, stopped: bool)
    requires Planner.IsManifest(m, req) && Planner.Growing(m, w.sealed) && IsLog(Planner.Log(m.blocks))
    requires !req.hasBeforeSeq && req.afterSeq <= MAX_INT64
    requires var server := Planner.Server(m, w.sealed);
             && Monotone(cycles, req.afterSeq) && AllSentBack(cycles, server, req, Tails(m, w), w.limits)
             && (why.Stuck? <==> TrailingStalls(cycles) == MAX_REBACKFILL_STALLS)
             && RunEnded(why, stopped, tail, server, req, NextCursor(cycles, req.afterSeq), Tails(m, w)(|cycles|),
                         w.limits(|cycles|), h)
             && Followed(server, req, 0, h)
    requires NextCursor(cycles, req.afterSeq) <= MAX_INT64 ==> !stopped && (why.Stuck? || tail.TailRun?)
    ensures Reached(m, w, req, h)
  {
    hide Planner.IsManifest, Planner.Growing, Planner.Log, Followed, RunEnded, AllSentBack, Monotone, TrailingStalls,
         Holds, Tails, Planner.Server, IsLog;
    FollowedTip(m, w, req, h);
    CursorFits(m, w, req, cycles, |cycles|);
    assert cycles[..|cycles|] == cycles;
    assert HeardIn(m, w, req, h, cycles, why, tail);
    hide HeardIn;
    if Holds(m, w) { HeardTheEnd(m, w, req, h, cycles, why, tail); }
  }

  /**
   A replay of an archive that keeps growing while it is read: for every archive,
   filter, page size, connection and consumer, what the consumer is given is exactly
   the matching events of (afterSeq, h], and a consumer that never stops gets at
   least to the tip the archive had at the start.
   */
  method ReplayArchive(m: Planner.Manifest, w: World, request: PlanRequest) returns (calls: seq<Yield>)
    requires Planner.IsManifest(m, request) && Planner.Growing(m, w.sealed) && !request.hasBeforeSeq
    ensures exists h: nat ::
              && request.afterSeq <= h
              && Exact(Events(Flatten(calls)), Planner.Log(m.blocks), request, request.afterSeq, h)
              && (Willing(w.answer) && request.afterSeq <= MAX_INT64 ==> Reached(m, w, request, h))
    ensures forall i :: 0 <= i < |calls| && calls[i].Batch? ==> calls[i].events != []
  {
    hide Planner.IsManifest, Planner.Growing, Planner.Log, Exact, Events, Flatten, HonestServer, TidyServer, Steady,
         DialConforms, Willing, Tails, RunEnded, AllSentBack, Monotone, TrailingStalls, Handing, RunItems, IsLog,
         Followed, Reached, Planner.Server, Planner.GridOf;
    ghost var log, grid := Planner.Log(m.blocks), Planner.GridOf(m, request);
    WorldQualifies(m, w, request);
    var engine := new ReplayEngine(request, w.fast, Planner.Server(m, w.sealed));
    var out, why;
    ghost var cycles, lo, h, tail;
    out, why, cycles, lo, h, tail := engine.Run(Replay, w.batchSize, w.answer, Tails(m, w), w.limits, log, grid);
    calls := out.calls;
    if Willing(w.answer) && request.afterSeq <= MAX_INT64 {
      RunReached(m, w, request, h, cycles, why, tail, out.stopped);
    }
  }

  /** A manifest suits a request whatever its start cursor. */
  lemma AnyCursor(m: Planner.Manifest, request: PlanRequest, cursor: Seq)
    requires Planner.IsManifest(m, request)
    ensures Planner.IsManifest(m, request.(afterSeq := cursor))
  {
    forall e ensures Passes(request.(afterSeq := cursor), e) <==> Passes(request, e) {
    }
  }

  /**
   Any number of crashes: every run starts at the cursor the one before it saved. What
   was delivered over all of them is the list of one uninterrupted run up to the saved
   cursor, and a last run that is left alone reaches the archive's tip.
   */
  method ReplayWithCrashes(m: Planner.Manifest, worlds: seq<World>, request: PlanRequest)
    returns (held: seq<Event>, cursor: Seq)
    requires Planner.IsManifest(m, request) && !request.hasBeforeSeq
    requires forall i :: 0 <= i < |worlds| ==> Planner.Growing(m, worlds[i].sealed)
    ensures held == Window(Planner.Log(m.blocks), request, request.afterSeq, cursor)
    ensures worlds != [] && cursor <= MAX_INT64 ==>
              var last := worlds[|worlds| - 1];
              last.crash.None? && Willing(last.answer) ==>
                exists h: nat, from: Seq ::
                  && Reached(m, last, request.(afterSeq := from), h)
                  && held == Window(Planner.Log(m.blocks), request, request.afterSeq, h)
  {
    hide Planner.IsManifest, Planner.Growing, Planner.Log, Exact, Events, Flatten, Willing, Reached, Window;
    ghost var log := Planner.Log(m.blocks);
    held, cursor := [], request.afterSeq;
    ghost var h: nat, began: Seq := cursor, cursor;
    NothingHeld(log, request);
    for i := 0 to |worlds|
      invariant request.afterSeq <= cursor && Exact(held, log, request, request.afterSeq, cursor)
      invariant Exact(held, log, request, request.afterSeq, h)
      invariant 0 < i && worlds[i - 1].crash.None? && Willing(worlds[i - 1].answer) && cursor <= MAX_INT64 ==>
                  Reached(m, worlds[i - 1], request.(afterSeq := began), h)
    {
      var w, from := worlds[i], request.(afterSeq := cursor);
      AnyCursor(m, request, cursor);
      var calls := ReplayArchive(m, w, from);
      ghost var reach: nat :| cursor <= reach && Exact(Events(Flatten(calls)), log, from, cursor, reach)
                              && (Willing(w.answer) && cursor <= MAX_INT64 ==> Reached(m, w, from, reach));
      var k := if w.crash.Some? && w.crash.value < |calls| then w.crash.value else |calls|;
      var saved := Resume.SaveCursor(calls, k, log, from, reach);
      Appended(held, Events(Flatten(calls[..k])), log, request, cursor, saved);
      if k == |calls| {
        assert calls[..k] == calls;
        Appended(held, Events(Flatten(calls)), log, request, cursor, reach);
        h := reach;
      } else {
        h := saved;
      }
      began := cursor;
      held, cursor := held + Events(Flatten(calls[..k])), saved;
    }
    Planner.LogIsLog(m, request, |m.blocks|);
    assert m.blocks[..|m.blocks|] == m.blocks;
    ExactIffWindow(held, log, request, request.afterSeq, cursor);
    ExactIffWindow(held, log, request, request.afterSeq, h);
  }

  /**
   The same for an archive as it is sealed, with the planner's own index as its block
   filter. All that is asked is what the rows are: ordered by their numbers, of known
   kinds, and commits under a collection.
   */
  method ReplaySealedArchive(blocks: seq<Planner.BlockInfo>, ghost segments: map<nat, seq<Planner.BlockInfo>>,
                             indexes: map<nat, BlockIndex.Index>, threshold: real, cap: nat, worlds: seq<World>,
                             request: PlanRequest)
    returns (held: seq<Event>, cursor: Seq)
    requires BlockIndex.IsArchive(blocks, segments, indexes) && 0.0 < threshold
    requires forall i, e :: 0 <= i < |blocks| && e in blocks[i].rows ==> BlockIndex.Proper(e)
    requires "" !in request.dids && !request.hasBeforeSeq
    requires var m := Planner.Manifest(blocks, BlockIndex.FilterOf(indexes, request), threshold, cap);
             forall i :: 0 <= i < |worlds| ==> Planner.Growing(m, worlds[i].sealed)
    ensures held == Window(Planner.Log(blocks), request, request.afterSeq, cursor)
    ensures worlds != [] && cursor <= MAX_INT64 ==>
              var m := Planner.Manifest(blocks, BlockIndex.FilterOf(indexes, request), threshold, cap);
              var last := worlds[|worlds| - 1];
              last.crash.None? && Willing(last.answer) ==>
                exists h: nat, from: Seq ::
                  && Reached(m, last, request.(afterSeq := from), h)
                  && held == Window(Planner.Log(blocks), request, request.afterSeq, h)
  {
    hide BlockIndex.IsArchive, BlockIndex.FilterOf, BlockIndex.Proper, Planner.IsManifest, Planner.Growing, Planner.Log,
         Window, Willing, Reached;
    BlockIndex.SealedArchiveQualifies(blocks, segments, indexes, threshold, cap, request);
    var m := Planner.Manifest(blocks, BlockIndex.FilterOf(indexes, request), threshold, cap);
    held, cursor := ReplayWithCrashes(m, worlds, request);
  }

  lemma NothingHeld(log: seq<Event>, request: PlanRequest)
    ensures Exact([], log, request, request.afterSeq, request.afterSeq)
  {
  }

  lemma Appended(held: seq<Event>, part: seq<Event>, log: seq<Event>, request: PlanRequest, mid: Seq, hi: nat)
    requires request.afterSeq <= mid <= hi && Exact(held, log, request, request.afterSeq, mid)
    requires Exact(part, log, request.(afterSeq := mid), mid, hi)
    ensures Exact(held + part, log, request, request.afterSeq, hi)
  {
    hide Exact;
    Resume.SameFilters(part, log, request, mid, hi);
    ExactConcat(held, part, log, request, request.afterSeq, mid, hi);
  }
}
