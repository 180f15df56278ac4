/**
 The paging loop over the sealed archive (sweepSealedArchive in
 jetstream/client_core.go).
 */
module Sweep {
  import opened Common
  import opened EventLog
  import opened Archive

  datatype Stats = Stats(pages: nat, sealedTip: Seq, plannedThrough: Seq, residualGap: nat)

  function StatsAt(pages: nat, tip: Seq, through: Seq): Stats {
    Stats(pages, tip, through, if tip > through then tip - through else 0)
  }

  /** One planSnapshot page as it was asked for and answered. */
  datatype Page = Page(after: Seq, before: Option<Seq>, plan: ArchivePlan)

  /** The n-th planSnapshot call, with the cursor and upper bound it carries. */
  type PlanServer = (nat, Seq, Option<Seq>) -> PlanReply

  /** The page a call is answered with, if the reply is usable. */
  function Answer(server: PlanServer, n: nat, after: Seq, before: Option<Seq>): Option<Page> {
    var plan := PlanArchive(server(n, after, before), after, before);
    if plan.None? then None else Some(Page(after, before, plan.value))
  }

  /** The upper bound of a sweep's first call: the caller's, if there is one. */
  function Opening(req: PlanRequest): Option<Seq> {
    if req.hasBeforeSeq then Some(req.beforeSeq) else None
  }

  datatype SweepEnd = Done | Stopped | Cancelled | Failed

  /**
   The pages follow one another without a hole: each starts where the one before
   it ended, strictly further on, and every page but the first is pinned to `tip`.
   */
  ghost predicate Tiles(pages: seq<Page>, req: PlanRequest, start: Seq, tip: Seq) {
    && (pages != [] ==> pages[0].after == start && pages[0].plan.tip == tip
                        && pages[0].before == Opening(req))
    && (forall i :: 0 < i < |pages| ==>
          && pages[i].after == pages[i - 1].plan.through
          && pages[i - 1].after < pages[i].after < tip
          && pages[i].before == Some(tip))
  }

  /** The next cursor after the pages. */
  function Reached(pages: seq<Page>, start: Seq): Seq {
    if pages == [] then start else pages[|pages| - 1].plan.through
  }

  /** The server honours the upper bound it was sent, and its plans lose nothing. */
  ghost predicate Honest(page: Page, log: seq<Event>, req: PlanRequest) {
    && (page.before.Some? ==> page.plan.tip <= page.before.value)
    && OneSided(page.plan, log, req, page.after)
  }

  ghost predicate AllHonest(pages: seq<Page>, log: seq<Event>, req: PlanRequest) {
    forall i :: 0 <= i < |pages| ==> Honest(pages[i], log, req)
  }

  ghost predicate AllTidy(pages: seq<Page>, req: PlanRequest, start: Seq) {
    forall i :: 0 <= i < |pages| ==> Tidy(pages[i].plan, req, start, pages[i].after)
  }

  /** Every plan this server can answer with is honest. */
  ghost predicate HonestServer(server: PlanServer, log: seq<Event>, req: PlanRequest) {
    forall n: nat, after: Seq, before: Option<Seq> ::
      var page := Answer(server, n, after, before);
      page.Some? ==> Honest(page.value, log, req)
  }

  /**
   Where work units end. A page asked for from a `cut` holds nothing at or below it,
   and one asked for up to a `pin` holds nothing above it.
   */
  datatype Grid = Grid(cut: Seq -> bool, pin: Seq -> bool)

  /**
   A page ends on a cut and the archive on a pin, unless at the upper bound that was
   asked for; apart from rows past the caller's own bound, a page holds nothing
   beyond its end.
   */
  ghost predicate OnBoundaries(page: Page, req: PlanRequest, grid: Grid) {
    var rows := Rows(page.plan.blocks);
    && Ascending(rows)
    && (grid.cut(page.plan.through) || page.before == Some(page.plan.through))
    && (grid.pin(page.plan.tip) || page.before == Some(page.plan.tip))
    && (forall e :: e in rows ==>
          && (grid.cut(page.after) ==> page.after < e.seqNo)
          && (e.seqNo <= page.plan.through || (req.hasBeforeSeq && req.beforeSeq < e.seqNo)))
  }

  /** The upper bounds a sweep sends: the caller's, or a pin it was told of as the tip. */
  ghost predicate Pinnable(before: Option<Seq>, req: PlanRequest, grid: Grid) {
    before == Opening(req) || (before.Some? && grid.pin(before.value))
  }

  /** Whole work units: the pages this server gives a sweep keep to the grid. */
  ghost predicate TidyServer(server: PlanServer, req: PlanRequest, grid: Grid) {
    forall n: nat, after: Seq, before: Option<Seq> :: Pinnable(before, req, grid) ==>
      var page := Answer(server, n, after, before);
      page.Some? ==> OnBoundaries(page.value, req, grid)
  }

  /** A usable reply that advances or reaches its goal, and is downloaded without cancellation. */
  ghost predicate Usable(page: Option<Page>, after: Seq, goal: Option<Seq>) {
    && page.Some? && page.value.plan.cancelAfter.None?
    && (after < page.value.plan.through
        || (if goal.Some? then goal.value else page.value.plan.tip) <= page.value.plan.through)
  }

  /** A cursor a sweep can start from: within the signed range and below the caller's bound. */
  predicate Askable(req: PlanRequest, after: Seq) {
    after <= MAX_INT64 && (req.hasBeforeSeq ==> after < req.beforeSeq <= MAX_INT64)
  }

  /** The m-th call, opening a sweep from `start`, was told this tip. */
  predicate LearntTip(server: PlanServer, req: PlanRequest, m: nat, start: Seq, tip: Seq) {
    var page := Answer(server, m, start, Opening(req));
    page.Some? && page.value.plan.tip == tip
  }

  /** No failures on the way: a sweep's first call and the calls pinned to the tip it learnt are all usable. */
  ghost predicate Steady(server: PlanServer, req: PlanRequest) {
    && (forall n: nat, after: Seq :: Askable(req, after) ==>
          Usable(Answer(server, n, after, Opening(req)), after, None))
    && (forall m: nat, start: Seq, tip: Seq, n: nat, after: Seq ::
          m < n && start < after < tip && LearntTip(server, req, m, start, tip) ==>
            Usable(Answer(server, n, after, Some(tip)), after, Some(tip)))
  }

  function Max(a: int, b: int): int { if a < b then b else a }

  /** Strict progress below the pinned tip bounds the number of pages. */
  lemma {:induction false} TilesBound(pages: seq<Page>, req: PlanRequest, start: Seq, tip: Seq)
    requires Tiles(pages, req, start, tip) && |pages| > 1
    ensures |pages| <= pages[|pages| - 1].after - start + 1
    ensures |pages| <= tip - start
  {
    if |pages| > 2 {
      TilesBound(pages[..|pages| - 1], req, start, tip);
    }
  }

  /** An honest page never plans past the pinned tip or the snapshot's upper bound. */
  lemma {:induction false} HonestBounds(pages: seq<Page>, log: seq<Event>, req: PlanRequest, start: Seq, tip: Seq,
                                        i: nat)
    requires Tiles(pages, req, start, tip) && AllHonest(pages, log, req) && i < |pages|
    requires forall k :: 0 <= k < |pages| ==> pages[k].plan.through <= pages[k].plan.tip
    ensures pages[i].plan.through <= tip
    ensures req.hasBeforeSeq ==> tip <= req.beforeSeq
  {
    assert Honest(pages[0], log, req) && Honest(pages[i], log, req);
  }

  /** What the pages so far have delivered, up to `cursor`. */
  ghost predicate SweptTo(pages: seq<Page>, got: seq<Event>, log: seq<Event>, req: PlanRequest,
                          start: Seq, cursor: nat) {
    && start <= cursor
    && (AllHonest(pages, log, req) && AllTidy(pages, req, start) ==> Exact(got, log, req, start, cursor))
  }

  ghost predicate NoGap(pages: seq<Page>, got: seq<Event>, log: seq<Event>, req: PlanRequest,
                        start: Seq, cursor: nat) {
    AllHonest(pages, log, req) ==> Covers(got, log, req, start, cursor)
  }

  lemma AllPrefix(pages: seq<Page>, page: Page, log: seq<Event>, req: PlanRequest, start: Seq)
    ensures AllHonest(pages + [page], log, req) <==> AllHonest(pages, log, req) && Honest(page, log, req)
    ensures AllTidy(pages + [page], req, start)
       <==> AllTidy(pages, req, start) && Tidy(page.plan, req, start, page.after)
  {
    var all := pages + [page];
    assert forall i :: 0 <= i < |pages| ==> all[i] == pages[i];
    assert all[|pages|] == page;
  }

  /** One more page, delivered in full or cut short by a stop. */
  lemma SweepPage(pages: seq<Page>, page: Page, got: seq<Event>, more: seq<Event>, log: seq<Event>,
                  req: PlanRequest, start: Seq) returns (h: nat)
    requires IsLog(log) && page.after == Max(start, Reached(pages, start))
    requires SweptTo(pages, got, log, req, start, page.after)
    requires more <= Kept(Rows(page.plan.blocks), req, start)
    requires Honest(page, log, req) && req.hasBeforeSeq ==> page.plan.through <= req.beforeSeq
    ensures SweptTo(pages + [page], got + more, log, req, start, h)
    ensures more == Kept(Rows(page.plan.blocks), req, start) ==> h == Max(page.after, page.plan.through)
  {
    hide Exact, Kept, Rows, IsLog, AllHonest, AllTidy, Tidy, OneSided, Horizon;
    var kept, lo, hi := Kept(Rows(page.plan.blocks), req, start), page.after, page.plan.through;
    AllPrefix(pages, page, log, req, start);
    h := Max(lo, hi);
    if AllHonest(pages + [page], log, req) && AllTidy(pages + [page], req, start) {
      PageExact(page.plan, log, req, start, start, lo);
      if more != kept {
        ExactPrefix(kept, |more|, log, req, lo, hi);
        assert kept[..|more|] == more;
        h := Horizon(more, lo);
      } else if hi < lo {
        ExactNothing(kept, log, req, lo, hi);
        ExactNothing(kept, log, req, lo, lo);
      }
      ExactConcat(got, more, log, req, start, lo, h);
    }
  }

  /** Even with arbitrary page boundaries, complete pages leave no gap. */
  lemma SweepPageCovers(pages: seq<Page>, page: Page, got: seq<Event>, log: seq<Event>, req: PlanRequest, start: Seq)
    requires IsLog(log) && start <= page.after
    requires NoGap(pages, got, log, req, start, page.after)
    requires Honest(page, log, req) && req.hasBeforeSeq ==> page.plan.through <= req.beforeSeq
    ensures NoGap(pages + [page], got + Kept(Rows(page.plan.blocks), req, start), log, req, start, page.plan.through)
  {
    AllPrefix(pages, page, log, req, start);
    if AllHonest(pages + [page], log, req) {
      PageCovers(page.plan, log, req, start, page.after);
      CoversConcat(got, Kept(Rows(page.plan.blocks), req, start), log, req, start, page.after, page.plan.through);
    }
  }
}
