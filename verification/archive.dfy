/**
 The sealed archive: plan replies, the rows of their blocks, and the delivery of one
 page on either path (jetstream/planner.go, jetstream/downloader.go,
 jetstream/client_core.go).
 */
module Archive {
  import opened Common
  import opened EventLog
  import opened RowMatcher
  import opened Delivery
  import Framing

  /**
   One downloaded block in plan order: its stored rows that decode, the error its
   malformed rows raise, and whether the flush timer fires before the i-th row.
   */
  datatype Block = Block(rows: seq<Event>, err: Option<string>, ticks: nat -> bool)

  /** The wire reply of planSnapshot, with the blocks its segments download to. */
  datatype PlanOutput = PlanOutput(
    plannedThroughSeq: Int64, sealedTipSeq: Int64, segments: seq<Framing.SegmentOut>, blocks: seq<Block>,
    cancelAfter: Option<nat>)

  datatype PlanReply = Unavailable | PlanCancelled | Reply(out: PlanOutput)

  datatype ArchivePlan = ArchivePlan(through: Seq, tip: Seq, blocks: seq<Block>, cancelAfter: Option<nat>)

  /** The reply, if its bounds make sense and every segment can be downloaded. */
  function PlanFromOutput(out: PlanOutput): (plan: Option<ArchivePlan>)
    ensures plan.Some? <==>
            && 0 <= out.plannedThroughSeq <= out.sealedTipSeq
            && forall i :: 0 <= i < |out.segments| ==> Framing.Acceptable(out.segments[i])
    ensures plan.Some? ==> plan.value.through <= plan.value.tip
    ensures plan.Some? ==>
            && plan.value.through == out.plannedThroughSeq && plan.value.tip == out.sealedTipSeq
            && plan.value.blocks == out.blocks && plan.value.cancelAfter == out.cancelAfter
  {
    if out.plannedThroughSeq < 0 || out.sealedTipSeq < 0 || out.plannedThroughSeq > out.sealedTipSeq then None
    else if exists i :: 0 <= i < |out.segments| && !Framing.Acceptable(out.segments[i]) then None
    else Some(ArchivePlan(out.plannedThroughSeq, out.sealedTipSeq, out.blocks, out.cancelAfter))
  }

  /** One planSnapshot call: cursors past the signed range are refused before the wire. */
  function PlanArchive(reply: PlanReply, afterSeq: Seq, beforeSeq: Option<Seq>): (plan: Option<ArchivePlan>)
    ensures plan.Some? ==> reply.Reply? && plan == PlanFromOutput(reply.out)
  {
    if afterSeq > MAX_INT64 || (beforeSeq.Some? && beforeSeq.value > MAX_INT64) || !reply.Reply?
    then None
    else PlanFromOutput(reply.out)
  }

  function Rows(blocks: seq<Block>): seq<Event> {
    if blocks == [] then [] else Rows(blocks[..|blocks| - 1]) + blocks[|blocks| - 1].rows
  }

  /** The rows the selector keeps. */
  function Kept(rows: seq<Event>, req: PlanRequest, floor: Seq): seq<Event> {
    if rows == [] then []
    else
      var rest, e := Kept(rows[..|rows| - 1], req, floor), rows[|rows| - 1];
      if Wanted(req, floor, e) then rest + [e] else rest
  }

  /** What a page delivers: each block's kept rows, then its error. */
  function PageItems(blocks: seq<Block>, req: PlanRequest, floor: Seq): seq<Item> {
    if blocks == [] then []
    else
      var last := blocks[|blocks| - 1];
      PageItems(blocks[..|blocks| - 1], req, floor) + EvItems(Kept(last.rows, req, floor)) + ErrItems(last.err)
  }

  /** The results of a page that is cancelled before one of its blocks are those of the blocks before it. */
  predicate CutShort(plan: ArchivePlan) {
    plan.cancelAfter.Some? && plan.cancelAfter.value < |plan.blocks|
  }

  function PageTaken(plan: ArchivePlan, req: PlanRequest, floor: Seq): seq<Item> {
    PageItems(if CutShort(plan) then plan.blocks[..plan.cancelAfter.value] else plan.blocks, req, floor)
  }

  lemma {:induction false} KeptConcat(a: seq<Event>, b: seq<Event>, req: PlanRequest, floor: Seq)
    ensures Kept(a + b, req, floor) == Kept(a, req, floor) + Kept(b, req, floor)
  {
    if b == [] {
      assert a + b == a;
    } else {
      KeptConcat(a, b[..|b| - 1], req, floor);
      assert (a + b)[..|a + b| - 1] == a + b[..|b| - 1];
    }
  }

  lemma {:induction false} KeptMember(rows: seq<Event>, req: PlanRequest, floor: Seq, e: Event)
    ensures e in Kept(rows, req, floor) <==> e in rows && Wanted(req, floor, e)
  {
    if rows != [] {
      KeptMember(rows[..|rows| - 1], req, floor, e);
      assert rows == rows[..|rows| - 1] + [rows[|rows| - 1]];
    }
  }

  lemma {:induction false} KeptAscending(rows: seq<Event>, req: PlanRequest, floor: Seq)
    requires Ascending(rows)
    ensures Ascending(Kept(rows, req, floor))
  {
    if rows != [] {
      var init, e := rows[..|rows| - 1], rows[|rows| - 1];
      KeptAscending(init, req, floor);
      var rest := Kept(init, req, floor);
      forall k | 0 <= k < |rest| ensures rest[k].seqNo < e.seqNo {
        KeptMember(init, req, floor, rest[k]);
      }
    }
  }

  /** The events of a page are its kept rows, errors or not. */
  lemma {:induction false} PageEvents(blocks: seq<Block>, req: PlanRequest, floor: Seq)
    ensures Events(PageItems(blocks, req, floor)) == Kept(Rows(blocks), req, floor)
  {
    if blocks != [] {
      var init, last := blocks[..|blocks| - 1], blocks[|blocks| - 1];
      PageEvents(init, req, floor);
      var kept := Kept(last.rows, req, floor);
      KeptConcat(Rows(init), last.rows, req, floor);
      EventsConcat(PageItems(init, req, floor), EvItems(kept));
      EventsOfEvItems(kept);
      var front := PageItems(init, req, floor) + EvItems(kept);
      assert PageItems(blocks, req, floor) == front + ErrItems(last.err);
      if last.err.Some? { EventsSnoc(front, Er(last.err.value)); } else { assert front + [] == front; }
    }
  }

  /**
   The planner's one-sided promise for the range (after, through]: nothing that
   matches is missing. False positives are allowed.
   */
  ghost predicate OneSided(plan: ArchivePlan, log: seq<Event>, req: PlanRequest, after: nat) {
    && (forall e :: e in Rows(plan.blocks) ==> e in log)
    && (forall e :: Within(e, log, req, after, plan.through) ==> e in Rows(plan.blocks))
  }

  /**
   Pages end on work-unit boundaries: ascending rows, and apart from the unit that
   straddles the sweep's own start, no row outside (after, through].
   */
  ghost predicate Tidy(plan: ArchivePlan, req: PlanRequest, start: nat, after: nat) {
    && Ascending(Rows(plan.blocks))
    && (forall e :: e in Rows(plan.blocks) ==>
          || e.seqNo <= start
          || after < e.seqNo <= plan.through
          || (req.hasBeforeSeq && req.beforeSeq < e.seqNo))
  }

  /** A tidy, one-sided page delivers exactly the matching events of its range. */
  lemma PageExact(plan: ArchivePlan, log: seq<Event>, req: PlanRequest, floor: Seq, start: nat, after: nat)
    requires IsLog(log) && OneSided(plan, log, req, after) && Tidy(plan, req, start, after)
    requires floor == start && start <= after
    requires req.hasBeforeSeq ==> plan.through <= req.beforeSeq
    ensures Exact(Kept(Rows(plan.blocks), req, floor), log, req, after, plan.through)
  {
    var rows := Rows(plan.blocks);
    KeptAscending(rows, req, floor);
    forall e ensures e in Kept(rows, req, floor) <==> Within(e, log, req, after, plan.through) {
      KeptMember(rows, req, floor, e);
    }
  }

  /** With arbitrary page boundaries the page still leaves no gap. */
  lemma PageCovers(plan: ArchivePlan, log: seq<Event>, req: PlanRequest, floor: Seq, after: nat)
    requires OneSided(plan, log, req, after) && floor <= after
    requires req.hasBeforeSeq ==> plan.through <= req.beforeSeq
    ensures Covers(Kept(Rows(plan.blocks), req, floor), log, req, after, plan.through)
  {
    forall e | Within(e, log, req, after, plan.through) ensures e in Kept(Rows(plan.blocks), req, floor) {
      KeptMember(Rows(plan.blocks), req, floor, e);
    }
  }

  /** The row selector, run before the expensive decode. */
  method SelectRows(rows: seq<Event>, m: Matcher, ghost req: PlanRequest) returns (kept: seq<Event>)
    requires m.Represents(req)
    ensures kept == Kept(rows, req, m.afterSeq)
  {
    kept := [];
    for i := 0 to |rows|
      invariant kept == Kept(rows[..i], req, m.afterSeq)
    {
      var wanted := m.Wants(rows[i], req);
      assert rows[..i + 1][..i] == rows[..i];
      if wanted { kept := kept + [rows[i]]; }
    }
    assert rows[..|rows|] == rows;
  }

  function BlockItems(block: Block, req: PlanRequest, floor: Seq): seq<Item> {
    EvItems(Kept(block.rows, req, floor)) + ErrItems(block.err)
  }

  /** Accepting more items into the ledger, in order. */
  ghost predicate Took(b: Batcher, was: seq<Item>, had: seq<Event>, items: seq<Item>)
    reads b
  {
    b.accepted == was + items && b.taken == had + Events(items)
  }

  lemma TookNothing(was: seq<Item>, had: seq<Event>, kept: seq<Event>)
    ensures was + [] == was && had + Events([]) == had && EvItems(kept[..0]) == []
  {
  }

  lemma TookEvent(was: seq<Item>, had: seq<Event>, items: seq<Item>, e: Event)
    ensures (was + items) + [Ev(e)] == was + (items + [Ev(e)])
    ensures (had + Events(items)) + [e] == had + Events(items + [Ev(e)])
  {
    EventsSnoc(items, Ev(e));
  }

  lemma TookError(was: seq<Item>, had: seq<Event>, items: seq<Item>, msg: string)
    ensures (was + items) + [Er(msg)] == was + (items + [Er(msg)])
    ensures had + Events(items) == had + Events(items + [Er(msg)])
  {
    EventsSnoc(items, Er(msg));
  }

  lemma {:induction false} EvItemsPrefix(es: seq<Event>, i: nat)
    requires i <= |es|
    ensures EvItems(es[..i]) <= EvItems(es)
  {
    assert es == es[..i] + es[i..];
    EvItemsConcat(es[..i], es[i..]);
  }

  /** The per-event path: every kept row through the batcher, timer flushes in between. */
  method AddRows(kept: seq<Event>, ticks: nat -> bool, b: Batcher) returns (ok: bool, ghost items: seq<Item>)
    requires b.Open()
    modifies b, b.out
    ensures b.Open() && Took(b, old(b.accepted), old(b.taken), items)
    ensures items <= EvItems(kept) && (ok ==> items == EvItems(kept)) && (!ok ==> b.stop)
    ensures old(b.stop) ==> b.stop && items == []
  {
    hide Batcher.Open, Batcher.Valid, EvItems, Events;
    ghost var was, had := b.accepted, b.taken;
    items := [];
    TookNothing(was, had, kept);
    for i := 0 to |kept|
      invariant b.Open() && Took(b, was, had, items)
      invariant items == EvItems(kept[..i]) && (old(b.stop) ==> b.stop && items == [])
    {
      if ticks(i) { var _ := b.Flush(); }
      EvItemsPrefix(kept, i);
      ghost var open := !b.stop;
      ok := b.Add(kept[i]);
      if open {
        TookEvent(was, had, items, kept[i]);
        assert kept[..i + 1] == kept[..i] + [kept[i]];
        EvItemsSnoc(kept[..i], kept[i]);
        items := items + [Ev(kept[i])];
        EvItemsPrefix(kept, i + 1);
      }
      if !ok { return; }
    }
    assert kept[..|kept|] == kept;
    ok := true;
  }

  /** Between blocks: the fast path leaves nothing in the batcher. */
  ghost predicate Ready(b: Batcher, fast: bool)
    reads b, b.out
  {
    b.Open() && (fast ==> b.buf == [] && !b.stop)
  }

  /** The same, except that the consumer may have stopped. */
  ghost predicate Settled(b: Batcher, fast: bool)
    reads b, b.out
  {
    b.Valid() && (fast ==> b.buf == []) && (!fast ==> b.Open())
  }

  /**
   Delivers one block's rows and then its error, on either path. Both paths accept
   the same items; what differs is only how they are grouped into batches.
   */
  method EmitResult(block: Block, m: Matcher, b: Batcher, fast: bool, ghost req: PlanRequest)
    returns (ok: bool, ghost items: seq<Item>)
    requires m.Represents(req) && Ready(b, fast)
    modifies b, b.out
    ensures Settled(b, fast)
    ensures ok ==> Ready(b, fast) && items == BlockItems(block, req, m.afterSeq)
    ensures (!ok ==> b.out.stopped) && (old(b.stop) ==> b.stop && items == [])
    ensures Took(b, old(b.accepted), old(b.taken), items)
    ensures items <= BlockItems(block, req, m.afterSeq)
  {
    hide Kept, EvItems, Events, Matcher.Represents;
    ghost var was, had := b.accepted, b.taken;
    var kept := SelectRows(block.rows, m, req);
    if fast {
      ghost var got;
      if block.ticks(0) { var _ := b.Flush(); }
      ok, got := b.EmitBlock(kept);
      EventsOfEvItems(got);
      items := EvItems(got);
      assert got == kept[..|got|];
      EvItemsPrefix(kept, |got|);
      if !ok { return; }
    } else {
      ok, items := AddRows(kept, block.ticks, b);
      if !ok { return; }
    }
    assert items == EvItems(kept) && items + [] == items;
    match block.err {
      case None =>
      case Some(msg) =>
        TookError(was, had, items, msg);
        ghost var before := b.accepted;
        ok := b.EmitError(msg);
        if b.accepted == before + [Er(msg)] { items := items + [Er(msg)]; }
    }
  }

  lemma PageItemsStep(blocks: seq<Block>, i: nat, req: PlanRequest, floor: Seq)
    requires i < |blocks|
    ensures PageItems(blocks[..i + 1], req, floor)
         == PageItems(blocks[..i], req, floor) + BlockItems(blocks[i], req, floor)
  {
    assert blocks[..i + 1][..i] == blocks[..i];
  }

  lemma {:induction false} PageItemsPrefix(blocks: seq<Block>, i: nat, req: PlanRequest, floor: Seq)
    requires i <= |blocks|
    ensures PageItems(blocks[..i], req, floor) <= PageItems(blocks, req, floor)
    decreases |blocks| - i
  {
    if i == |blocks| {
      assert blocks[..i] == blocks;
    } else {
      PageItemsPrefix(blocks, i + 1, req, floor);
      PageItemsStep(blocks, i, req, floor);
    }
  }

  lemma TookMore(was: seq<Item>, had: seq<Event>, items: seq<Item>, more: seq<Item>)
    ensures (was + items) + more == was + (items + more)
    ensures (had + Events(items)) + Events(more) == had + Events(items + more)
  {
    EventsConcat(items, more);
  }

  lemma DownloadStart(was: seq<Item>, had: seq<Event>, blocks: seq<Block>, req: PlanRequest, floor: Seq)
    ensures was + [] == was && had + Events([]) == had && [] == PageItems(blocks[..0], req, floor)
  {
  }

  lemma DownloadStep(was: seq<Item>, had: seq<Event>, items: seq<Item>, more: seq<Item>,
                     blocks: seq<Block>, i: nat, req: PlanRequest, floor: Seq)
    requires i < |blocks| && items == PageItems(blocks[..i], req, floor)
    requires more <= BlockItems(blocks[i], req, floor)
    ensures (was + items) + more == was + (items + more)
    ensures (had + Events(items)) + Events(more) == had + Events(items + more)
    ensures items + more <= PageItems(blocks, req, floor)
    ensures more == BlockItems(blocks[i], req, floor) ==> items + more == PageItems(blocks[..i + 1], req, floor)
  {
    hide PageItems, BlockItems, Events;
    TookMore(was, had, items, more);
    PageItemsStep(blocks, i, req, floor);
    PageItemsPrefix(blocks, i + 1, req, floor);
    PrefixConcat(items, more, BlockItems(blocks[i], req, floor), PageItems(blocks, req, floor));
  }

  /** Before the block a page is cut at, what was taken is part of what it will come to. */
  lemma DownloadCut(plan: ArchivePlan, items: seq<Item>, more: seq<Item>, i: nat, req: PlanRequest, floor: Seq)
    requires i < |plan.blocks| && items == PageItems(plan.blocks[..i], req, floor)
    requires more <= BlockItems(plan.blocks[i], req, floor) && (CutShort(plan) ==> i < plan.cancelAfter.value)
    ensures items + more <= PageTaken(plan, req, floor)
  {
    hide PageItems, BlockItems;
    var blocks := if CutShort(plan) then plan.blocks[..plan.cancelAfter.value] else plan.blocks;
    assert blocks[..i] == plan.blocks[..i];
    PageItemsStep(blocks, i, req, floor);
    PageItemsPrefix(blocks, i + 1, req, floor);
    PrefixConcat(items, more, BlockItems(plan.blocks[i], req, floor), PageItems(blocks, req, floor));
  }

  lemma PrefixConcat<T>(a: seq<T>, b: seq<T>, c: seq<T>, all: seq<T>)
    requires b <= c && a + c <= all
    ensures a + b <= all
  {
  }

  /**
   One page: the blocks in plan order until a cancellation or a consumer stop.
   `stopped` is what the sweep asks afterwards.
   */
  method Download(plan: ArchivePlan, m: Matcher, b: Batcher, fast: bool, ghost req: PlanRequest)
    returns (cancelled: bool, stopped: bool, ghost items: seq<Item>)
    requires m.Represents(req) && Ready(b, fast)
    modifies b, b.out
    ensures Settled(b, fast)
    ensures stopped <==> b.out.stopped
    ensures !stopped ==> Ready(b, fast)
    ensures cancelled ==> CutShort(plan)
    ensures !stopped ==> (cancelled <==> CutShort(plan))
    ensures old(b.stop) ==> stopped && items == []
    ensures Took(b, old(b.accepted), old(b.taken), items)
    ensures items <= PageTaken(plan, req, m.afterSeq) <= PageItems(plan.blocks, req, m.afterSeq)
    ensures !stopped ==> items == PageTaken(plan, req, m.afterSeq)
    ensures !cancelled && !stopped ==> items == PageItems(plan.blocks, req, m.afterSeq)
  {
    hide Batcher.Open, Batcher.Valid, Matcher.Represents, PageItems, BlockItems, Events;
    ghost var was, had, floor := b.accepted, b.taken, m.afterSeq;
    if CutShort(plan) { PageItemsPrefix(plan.blocks, plan.cancelAfter.value, req, floor); }
    items, stopped, cancelled := [], false, false;
    DownloadStart(was, had, plan.blocks, req, floor);
    var i := 0;
    while i < |plan.blocks| && !cancelled
      invariant 0 <= i <= |plan.blocks|
      invariant Ready(b, fast) && Took(b, was, had, items)
      invariant items == PageItems(plan.blocks[..i], req, floor)
      invariant !cancelled && (CutShort(plan) ==> i <= plan.cancelAfter.value)
      invariant old(b.stop) ==> b.stop && items == []
      decreases |plan.blocks| - i
    {
      PageItemsPrefix(plan.blocks, i, req, floor);
      if plan.cancelAfter == Some(i) { cancelled := true; break; }
      ghost var more;
      var ok: bool;
      ok, more := EmitResult(plan.blocks[i], m, b, fast, req);
      DownloadStep(was, had, items, more, plan.blocks, i, req, floor);
      DownloadCut(plan, items, more, i, req, floor);
      items := items + more;
      if !ok { return false, true, items; }
      i := i + 1;
    }
    assert i == |plan.blocks| ==> plan.blocks[..i] == plan.blocks;
    PageItemsPrefix(plan.blocks, i, req, floor);
    stopped := b.stop;
    OpenStop(b);
  }

  lemma ReadyFacts(b: Batcher, fast: bool)
    requires Ready(b, fast)
    ensures Settled(b, fast)
  {
  }

  lemma OpenStop(b: Batcher)
    ensures b.Open() ==> b.Valid() && (b.stop <==> b.out.stopped)
  {
  }

  /** One page for one consumer on one of the two paths, with the final flush of a run. */
  method DeliverPage(plan: ArchivePlan, m: Matcher, batchSize: int, answer: nat -> bool, fast: bool,
                     ghost req: PlanRequest)
    returns (calls: seq<Yield>)
    requires m.Represents(req) && plan.cancelAfter.None? && Willing(answer)
    ensures Flatten(calls) == PageItems(plan.blocks, req, m.afterSeq)
    ensures forall k :: 0 <= k < |calls| && calls[k].Batch? ==>
              1 <= |calls[k].events| <= (if batchSize < 1 then 1 else batchSize)
  {
    hide PageItems, Flatten;
    var out := new Consumer(batchSize, answer);
    var b := new Batcher(out);
    var cancelled, stopped, items := Download(plan, m, b, fast, req);
    WillingNeverStops(out);
    var _ := b.Flush();
    assert [] + items == items && out.seen + EvItems([]) == out.seen;
    calls := out.calls;
  }

  /**
   The fast path refines the per-event path: for a consumer that never stops, the
   yields flatten to the same items in the same positions, whatever the timer does.
   */
  method PathsAgree(plan: ArchivePlan, m: Matcher, batchSize: int, answer: nat -> bool, ghost req: PlanRequest)
    returns (blockwise: seq<Yield>, eventwise: seq<Yield>)
    requires m.Represents(req) && plan.cancelAfter.None? && Willing(answer)
    ensures Flatten(blockwise) == Flatten(eventwise) == PageItems(plan.blocks, req, m.afterSeq)
  {
    blockwise := DeliverPage(plan, m, batchSize, answer, true, req);
    eventwise := DeliverPage(plan, m, batchSize, answer, false, req);
  }
}
