/**
 The replay engine (jetstream/client_core.go): sweep the sealed archive, cut over
 to the live tail, and go back to the archive when the live cursor is too old.
 */
module Engine {
  import opened Common
  import opened EventLog
  import opened RowMatcher
  import opened Delivery
  import opened LiveTail
  import opened Archive
  import opened Sweep

  const MAX_REBACKFILL_STALLS: nat := 5

  lemma PageGot(blocks: seq<Block>, items: seq<Item>, req: PlanRequest, floor: Seq)
    requires items <= PageItems(blocks, req, floor)
    ensures Events(items) <= Kept(Rows(blocks), req, floor)
    ensures items == PageItems(blocks, req, floor) ==> Events(items) == Kept(Rows(blocks), req, floor)
  {
    hide PageItems, Events, Kept, Rows;
    PageEvents(blocks, req, floor);
    EventsPrefix(PageItems(blocks, req, floor), |items|);
    assert PageItems(blocks, req, floor)[..|items|] == items;
  }

  /** The pages of a sweep, whatever the server answered. */
  ghost predicate Swept(pages: seq<Page>, req: PlanRequest, start: Seq, tip: Seq) {
    && Tiles(pages, req, start, tip)
    && (forall k :: 0 <= k < |pages| ==> pages[k].plan.through <= pages[k].plan.tip)
  }

  /** The sweep between two pages. */
  ghost predicate Paging(pages: seq<Page>, got: seq<Event>, log: seq<Event>, req: PlanRequest, start: Seq, tip: Seq) {
    && Swept(pages, req, start, tip)
    && (pages != [] ==> pages[|pages| - 1].after < Reached(pages, start) < tip)
    && SweptTo(pages, got, log, req, start, Reached(pages, start))
    && NoGap(pages, got, log, req, start, Reached(pages, start))
  }

  lemma PagingStart(log: seq<Event>, req: PlanRequest, start: Seq, tip: Seq)
    ensures Paging([], [], log, req, start, tip)
  {
    ExactNothing([], log, req, start, start);
  }

  lemma PagingSoFar(pages: seq<Page>, got: seq<Event>, log: seq<Event>, req: PlanRequest, start: Seq, tip: Seq)
    returns (h: nat)
    requires Paging(pages, got, log, req, start, tip)
    ensures Swept(pages, req, start, tip) && |pages| <= Max(1, tip - start)
    ensures SweptTo(pages, got, log, req, start, h)
  {
    h := Reached(pages, start);
    if |pages| > 1 { TilesBound(pages, req, start, tip); }
  }

  /** Past the first page the cursor is past the start. */
  lemma PagingAdvanced(pages: seq<Page>, got: seq<Event>, log: seq<Event>, req: PlanRequest, start: Seq, tip: Seq)
    requires Paging(pages, got, log, req, start, tip) && pages != []
    ensures start < Reached(pages, start) < tip
  {
    if |pages| > 1 { TilesBound(pages, req, start, tip); }
  }

  lemma SweptSnoc(pages: seq<Page>, page: Page, req: PlanRequest, start: Seq, tip: Seq)
    requires Swept(pages, req, start, tip) && NextPage(pages, page, req, start, tip)
    ensures Swept(pages + [page], req, start, tip)
  {
  }

  /** How the sweep asks for its next page. */
  ghost predicate NextPage(pages: seq<Page>, page: Page, req: PlanRequest, start: Seq, tip: Seq) {
    && page.plan.through <= page.plan.tip && page.after == Reached(pages, start)
    && (pages == [] ==> page.plan.tip == tip
                        && page.before == Opening(req))
    && (pages != [] ==> pages[|pages| - 1].after < page.after < tip && page.before == Some(tip))
  }

  lemma HonestPage(pages: seq<Page>, page: Page, log: seq<Event>, req: PlanRequest, start: Seq, tip: Seq)
    requires Swept(pages + [page], req, start, tip) && AllHonest(pages + [page], log, req)
    ensures page.plan.through <= tip && (req.hasBeforeSeq ==> tip <= req.beforeSeq)
  {
    HonestBounds(pages + [page], log, req, start, tip, |pages|);
  }

  /** One page of the sweep: where it leaves the delivery, cut short or complete. */
  lemma PageStep(pages: seq<Page>, page: Page, got: seq<Event>, items: seq<Item>, log: seq<Event>,
                 req: PlanRequest, start: Seq, tip: Seq) returns (h: nat)
    requires IsLog(log) && Paging(pages, got, log, req, start, tip) && NextPage(pages, page, req, start, tip)
    requires items <= PageItems(page.plan.blocks, req, start)
    ensures Swept(pages + [page], req, start, tip) && |pages| + 1 <= Max(1, tip - start)
    ensures SweptTo(pages + [page], got + Events(items), log, req, start, h)
    ensures items == PageItems(page.plan.blocks, req, start) ==>
              && (page.after < page.plan.through < tip ==>
                    Paging(pages + [page], got + Events(items), log, req, start, tip))
              && (tip <= page.plan.through && AllHonest(pages + [page], log, req) ==>
                    h == Max(start, tip) && Covers(got + Events(items), log, req, start, tip))
  {
    hide PageItems, Events, Kept, Rows, AllHonest, AllTidy, Honest, Tiles, Exact, Covers;
    PageGot(page.plan.blocks, items, req, start);
    SweptSnoc(pages, page, req, start, tip);
    var all := pages + [page];
    if |all| > 1 {
      TilesBound(all, req, start, tip);
      PagingAdvanced(pages, got, log, req, start, tip);
    }
    if AllHonest(all, log, req) {
      HonestPage(pages, page, log, req, start, tip);
    }
    AllPrefix(pages, page, log, req, start);
    var more := Events(items);
    if AllHonest(all, log, req) {
      h := SweepPage(pages, page, got, more, log, req, start);
      if more == Kept(Rows(page.plan.blocks), req, start) {
        SweepPageCovers(pages, page, got, log, req, start);
      }
    } else {
      h := Max(page.after, page.plan.through);
    }
  }

  /** One archive sweep, opened by the numbered call, and the live tail after it. */
  datatype Cycle = Cycle(
    cursor: Seq, call: nat, pages: seq<Page>, tip: Seq, cutover: Seq, resume: Seq, dialed: seq<Dial>)

  /** Pages of an honest and tidy server are honest and tidy. */
  ghost predicate Promised(server: PlanServer, pages: seq<Page>, log: seq<Event>, req: PlanRequest, start: Seq,
                           grid: Grid) {
    HonestServer(server, log, req) ==>
      && AllHonest(pages, log, req)
      && (TidyServer(server, req, grid) ==> AllTidy(pages, req, start))
  }

  lemma PromisedStart(server: PlanServer, log: seq<Event>, req: PlanRequest, start: Seq, grid: Grid)
    ensures Promised(server, [], log, req, start, grid)
  {
  }

  ghost predicate OnCut(server: PlanServer, cursor: Seq, log: seq<Event>, req: PlanRequest, grid: Grid) {
    HonestServer(server, log, req) && TidyServer(server, req, grid) ==> grid.cut(cursor)
  }

  ghost predicate OnPin(server: PlanServer, tip: Seq, log: seq<Event>, req: PlanRequest, grid: Grid) {
    HonestServer(server, log, req) && TidyServer(server, req, grid) ==> Pinnable(Some(tip), req, grid)
  }

  /** A page answered by the server inherits the server's promises. */
  lemma ServerPage(server: PlanServer, n: nat, pages: seq<Page>, page: Page, log: seq<Event>, req: PlanRequest,
                   start: Seq, tip: Seq, grid: Grid)
    requires Answer(server, n, page.after, page.before) == Some(page) && NextPage(pages, page, req, start, tip)
    requires Promised(server, pages, log, req, start, grid)
    requires pages != [] ==> OnCut(server, page.after, log, req, grid) && OnPin(server, tip, log, req, grid)
    ensures Promised(server, pages + [page], log, req, start, grid) && OnPin(server, tip, log, req, grid)
    ensures page.plan.through < tip ==> OnCut(server, page.plan.through, log, req, grid)
  {
    AllPrefix(pages, page, log, req, start);
    if HonestServer(server, log, req) {
      assert Honest(page, log, req);
      if TidyServer(server, req, grid) {
        assert Pinnable(page.before, req, grid);
        assert OnBoundaries(page, req, grid);
      }
    }
  }

  /** The pages are the server's answers to the sweep's calls, one after another. */
  ghost predicate Answered(server: PlanServer, first: nat, pages: seq<Page>) {
    forall k :: 0 <= k < |pages| ==> Answer(server, first + k, pages[k].after, pages[k].before) == Some(pages[k])
  }

  lemma AnsweredSnoc(server: PlanServer, first: nat, pages: seq<Page>, page: Page)
    requires Answered(server, first, pages)
    requires Answer(server, first + |pages|, page.after, page.before) == Some(page)
    ensures Answered(server, first, pages + [page])
  {
    hide Answer;
  }

  /** What the pages of a sweep hand to the consumer. */
  function SweepItems(pages: seq<Page>, req: PlanRequest, floor: Seq): seq<Item> {
    if pages == [] then []
    else SweepItems(pages[..|pages| - 1], req, floor) + PageTaken(pages[|pages| - 1].plan, req, floor)
  }

  lemma NoPages(req: PlanRequest, floor: Seq)
    ensures SweepItems([], req, floor) == []
  {
  }

  lemma SweepItemsSnoc(pages: seq<Page>, page: Page, req: PlanRequest, floor: Seq)
    ensures SweepItems(pages + [page], req, floor) == SweepItems(pages, req, floor) + PageTaken(page.plan, req, floor)
  {
    assert (pages + [page])[..|pages|] == pages;
  }

  /** The upper bound of the next call: the tip once it is known. */
  function NextBefore(pages: seq<Page>, req: PlanRequest, tip: Seq): Option<Seq> {
    if pages == [] then Opening(req) else Some(tip)
  }

  /**
   Why a sweep ended: at the tip, stopped by the consumer, cancelled in a call or in a
   page, or because a call was answered unusably or brought no progress.
   */
  ghost predicate SweepEndsFor(end: SweepEnd, server: PlanServer, first: nat, pages: seq<Page>, req: PlanRequest,
                               start: Seq, tip: Seq, stopped: bool)
  {
    var cursor, before, n := Reached(pages, start), NextBefore(pages, req, tip), first + |pages|;
    match end
    case Done => pages != [] && tip <= cursor
    case Stopped => stopped
    case Cancelled => server(n, cursor, before).PlanCancelled? || (pages != [] && CutShort(pages[|pages| - 1].plan))
    case Failed =>
      || (Answer(server, n, cursor, before).None? && !server(n, cursor, before).PlanCancelled?)
      || (pages != [] && cursor <= pages[|pages| - 1].after && cursor < tip)
  }

  /** The sweep between two pages, with what its server promises. */
  ghost predicate Sweeping(server: PlanServer, first: nat, pages: seq<Page>, got: seq<Event>, log: seq<Event>,
                           req: PlanRequest, start: Seq, tip: Seq, grid: Grid) {
    && Paging(pages, got, log, req, start, tip)
    && Promised(server, pages, log, req, start, grid)
    && Answered(server, first, pages)
    && (pages != [] ==> OnCut(server, Reached(pages, start), log, req, grid) && OnPin(server, tip, log, req, grid))
  }

  /** The sweep wherever it ended: its pages, what it delivered, and what its server promises. */
  ghost predicate SweepResult(server: PlanServer, first: nat, pages: seq<Page>, got: seq<Event>, log: seq<Event>,
                              req: PlanRequest, start: Seq, tip: Seq, grid: Grid, h: nat) {
    && Swept(pages, req, start, tip) && |pages| <= Max(1, tip - start)
    && SweptTo(pages, got, log, req, start, h)
    && Promised(server, pages, log, req, start, grid)
    && Answered(server, first, pages)
  }

  /** A completed sweep went all the way to the tip and missed nothing. */
  ghost predicate SweptAll(pages: seq<Page>, got: seq<Event>, log: seq<Event>, req: PlanRequest, start: Seq, tip: Seq,
                           h: nat) {
    AllHonest(pages, log, req) ==> h == Max(start, tip) && Covers(got, log, req, start, tip)
  }

  lemma SweepingStart(server: PlanServer, first: nat, log: seq<Event>, req: PlanRequest, start: Seq, tip: Seq,
                      grid: Grid)
    ensures Sweeping(server, first, [], [], log, req, start, tip, grid)
  {
    PagingStart(log, req, start, tip);
    PromisedStart(server, log, req, start, grid);
  }

  lemma SweepingSoFar(server: PlanServer, first: nat, pages: seq<Page>, got: seq<Event>, log: seq<Event>,
                      req: PlanRequest, start: Seq, tip: Seq, grid: Grid) returns (h: nat)
    requires Sweeping(server, first, pages, got, log, req, start, tip, grid)
    ensures SweepResult(server, first, pages, got, log, req, start, tip, grid, h)
    ensures pages != [] ==> start < Reached(pages, start) < tip && LearntTip(server, req, first, start, tip)
    ensures pages != [] ==> pages[|pages| - 1].after < Reached(pages, start)
  {
    h := PagingSoFar(pages, got, log, req, start, tip);
    if pages != [] { PagingAdvanced(pages, got, log, req, start, tip); }
  }

  /** One more answered page, delivered in full or cut short. */
  lemma SweepingPage(server: PlanServer, first: nat, n: nat, pages: seq<Page>, page: Page, got: seq<Event>,
                     items: seq<Item>, log: seq<Event>, req: PlanRequest, start: Seq, tip: Seq, grid: Grid)
    returns (h: nat)
    requires IsLog(log) && Sweeping(server, first, pages, got, log, req, start, tip, grid)
    requires Answer(server, n, page.after, page.before) == Some(page) && n == first + |pages|
    requires NextPage(pages, page, req, start, tip)
    requires items <= PageItems(page.plan.blocks, req, start)
    ensures SweepResult(server, first, pages + [page], got + Events(items), log, req, start, tip, grid, h)
    ensures items == PageItems(page.plan.blocks, req, start) ==>
              && (page.after < page.plan.through < tip ==>
                    Sweeping(server, first, pages + [page], got + Events(items), log, req, start, tip, grid))
              && (tip <= page.plan.through ==> SweptAll(pages + [page], got + Events(items), log, req, start, tip, h))
  {
    hide Paging, Promised, OnCut, OnPin, Swept, SweptTo, AllHonest, Covers, PageItems, Events, Answer, IsLog, Answered;
    AnsweredSnoc(server, first, pages, page);
    ServerPage(server, n, pages, page, log, req, start, tip, grid);
    h := PageStep(pages, page, got, items, log, req, start, tip);
  }

  /** How a reply is used: not at all, or as the page it plans. */
  lemma Planned(server: PlanServer, n: nat, after: Seq, before: Option<Seq>)
    ensures var planned := PlanArchive(server(n, after, before), after, before);
            && (planned.None? ==> Answer(server, n, after, before) == None)
            && (planned.Some? ==> Answer(server, n, after, before) == Some(Page(after, before, planned.value))
                                  && planned.value.through <= planned.value.tip <= MAX_INT64
                                  && server(n, after, before).Reply?)
  {
  }

  /** What a steady server guarantees about one call of a sweep. */
  lemma SteadyAt(server: PlanServer, req: PlanRequest, first: nat, start: Seq, tip: Seq, n: nat, after: Seq,
                 pinned: bool)
    requires if pinned then first < n && start < after < tip && LearntTip(server, req, first, start, tip)
             else after == start
    ensures Steady(server, req) && Askable(req, start) ==>
              if pinned then Usable(Answer(server, n, after, Some(tip)), after, Some(tip))
              else Usable(Answer(server, n, after, Opening(req)), after, None)
  {
  }

  /** Across re-backfills nothing moves backwards: cursor <= cutover <= resume = next cursor. */
  ghost predicate Monotone(cycles: seq<Cycle>, start: Seq) {
    && (cycles != [] ==> cycles[0].cursor == start)
    && (forall i :: 0 <= i < |cycles| ==>
          cycles[i].cutover == Max(cycles[i].tip, cycles[i].cursor) && cycles[i].cutover <= cycles[i].resume)
    && (forall i :: 0 < i < |cycles| ==> cycles[i].cursor == cycles[i - 1].resume)
  }

  /** How many cycles at the end failed to advance the cursor. */
  function TrailingStalls(cycles: seq<Cycle>): nat {
    if cycles == [] || cycles[|cycles| - 1].cursor < cycles[|cycles| - 1].resume then 0
    else 1 + TrailingStalls(cycles[..|cycles| - 1])
  }

  /** Fewer than five cycles in a row without progress, except that the fifth ends the run. */
  ghost predicate StallsBounded(cycles: seq<Cycle>) {
    && (forall n :: 0 <= n < |cycles| ==> TrailingStalls(cycles[..n]) < MAX_REBACKFILL_STALLS)
    && TrailingStalls(cycles) <= MAX_REBACKFILL_STALLS
  }

  lemma CyclesStart(start: Seq)
    ensures Monotone([], start) && StallsBounded([]) && TrailingStalls([]) == 0
  {
  }

  lemma CyclesSnoc(cycles: seq<Cycle>, c: Cycle, start: Seq)
    requires Monotone(cycles, start) && StallsBounded(cycles) && TrailingStalls(cycles) < MAX_REBACKFILL_STALLS
    requires c.cursor == NextCursor(cycles, start)
    requires c.cutover == Max(c.tip, c.cursor) && c.cutover <= c.resume
    ensures Monotone(cycles + [c], start) && StallsBounded(cycles + [c])
    ensures TrailingStalls(cycles + [c]) == if c.cursor < c.resume then 0 else 1 + TrailingStalls(cycles)
  {
    var all := cycles + [c];
    assert all[..|cycles|] == cycles;
    forall n | 0 <= n < |all| ensures TrailingStalls(all[..n]) < MAX_REBACKFILL_STALLS {
      if n < |cycles| { assert all[..n] == cycles[..n]; }
    }
  }

  /** What a run may rely on its server for: no lost rows, and tidy page boundaries. */
  datatype Trust = Trust(honest: bool, tidy: bool)

  /** The delivery of a run up to `cursor`. */
  ghost predicate Replayed(got: seq<Event>, log: seq<Event>, req: PlanRequest, cursor: nat, trust: Trust) {
    && req.afterSeq <= cursor
    && (trust.honest && trust.tidy ==> Exact(got, log, req, req.afterSeq, cursor))
    && (trust.honest ==> Covers(got, log, req, req.afterSeq, cursor))
  }

  lemma ExactCovers(es: seq<Event>, log: seq<Event>, req: PlanRequest, lo: nat, hi: nat)
    requires Exact(es, log, req, lo, hi)
    ensures Covers(es, log, req, lo, hi)
  {
  }

  lemma ReplayedStart(log: seq<Event>, req: PlanRequest, trust: Trust)
    ensures Replayed([], log, req, req.afterSeq, trust)
  {
    ExactNothing([], log, req, req.afterSeq, req.afterSeq);
  }

  /** A sweep that stopped early: what arrived is still exact, up to where it stopped. */
  lemma ReplayedCut(got: seq<Event>, more: seq<Event>, log: seq<Event>, req: PlanRequest, cursor: Seq, h: nat,
                    trust: Trust, pages: seq<Page>) returns (end: nat)
    requires Replayed(got, log, req, cursor, trust) && SweptTo(pages, more, log, req, cursor, h)
    requires trust.honest ==> AllHonest(pages, log, req) && (trust.tidy ==> AllTidy(pages, req, cursor))
    ensures Replayed(got + more, log, req, end, trust) && cursor <= end
  {
    end := cursor;
    if trust.honest && trust.tidy {
      ExactConcat(got, more, log, req, req.afterSeq, cursor, h);
      ExactCovers(got + more, log, req, req.afterSeq, h);
      end := h;
    } else if trust.honest {
      CoversMore(got, more, log, req, req.afterSeq, cursor);
    }
  }

  lemma CoversMore(a: seq<Event>, b: seq<Event>, log: seq<Event>, req: PlanRequest, lo: nat, hi: nat)
    requires Covers(a, log, req, lo, hi)
    ensures Covers(a + b, log, req, lo, hi)
  {
  }

  /** A completed sweep carries the delivery to the cutover. */
  lemma ReplayedSweep(got: seq<Event>, more: seq<Event>, log: seq<Event>, req: PlanRequest, cursor: Seq, tip: Seq,
                      h: nat, trust: Trust, pages: seq<Page>)
    requires Replayed(got, log, req, cursor, trust) && SweptTo(pages, more, log, req, cursor, h)
    requires trust.honest ==> AllHonest(pages, log, req) && (trust.tidy ==> AllTidy(pages, req, cursor))
    requires trust.honest ==> h == Max(cursor, tip) && Covers(more, log, req, cursor, tip)
    ensures Replayed(got + more, log, req, Max(tip, cursor), trust)
  {
    var cutover := Max(tip, cursor);
    if trust.honest {
      assert Covers(more, log, req, cursor, cutover);
      CoversConcat(got, more, log, req, req.afterSeq, cursor, cutover);
      if trust.tidy { ExactConcat(got, more, log, req, req.afterSeq, cursor, cutover); }
    }
  }

  /** The live tail carries it on from the cutover. */
  lemma ReplayedTail(got: seq<Event>, more: seq<Event>, log: seq<Event>, req: PlanRequest, cutover: nat, h: nat,
                     trust: Trust)
    requires Replayed(got, log, req, cutover, trust) && cutover <= h
    requires trust.honest ==> Exact(more, log, req, cutover, h)
    ensures Replayed(got + more, log, req, h, trust)
  {
    if trust.honest {
      ExactCovers(more, log, req, cutover, h);
      CoversConcat(got, more, log, req, req.afterSeq, cutover, h);
      if trust.tidy { ExactConcat(got, more, log, req, req.afterSeq, cutover, h); }
    }
  }

  /** Why a run ended, when it was not simply cancelled or stopped. */
  datatype Outcome = Ended | PlanFailed | LiveRejected | Stuck

  function Fatal(why: Outcome): string {
    match why
    case Ended => ""
    case PlanFailed => "fatal: planSnapshot"
    case LiveRejected => "fatal: live request rejected"
    case Stuck => "fatal: re-backfill made no progress"
  }

  /** No failure ends a run in silence: a consumer that did not stop is told. */
  ghost predicate Surfaced(why: Outcome, stopped: bool, items: seq<Item>) {
    why.Ended? || stopped || Er(Fatal(why)) in items
  }

  /** The live tail of a cycle: how it ended, the call and tip it cut over at, and its connection attempts. */
  datatype TailRun =
    | NoTail(sweep: SweepEnd, call: nat, pages: seq<Page>, tip: Seq)
    | TailRun(end: RunEnd, call: nat, pages: seq<Page>, tip: Seq, cutover: Seq, dialed: seq<Dial>)

  /**
   A tail from the cutover: it asks on from what it has heard, reconnects while that
   can help, ends for a reason, and `h` is the last number it heard.
   */
  ghost predicate TailRan(dialed: seq<Dial>, cutover: Seq, dial: Dialer, limit: nat, end: RunEnd, stopped: bool,
                          h: nat)
  {
    var start := Mark(cutover, false);
    && KeptDialing(dialed, dial, limit, end, stopped) && AskedOn(dialed, cutover, false, start)
    && (end != Clean || !stopped ==> h == TailMark(dialed, start).last)
  }

  /** What one cycle hands to the consumer: its sweep, its tail, and the error it ended with. */
  function TailRunItems(t: TailRun, req: PlanRequest, cursor: Seq, why: Outcome): seq<Item> {
    SweepItems(t.pages, req, cursor)
    + (if t.TailRun? then TailItems(t.dialed, Mark(t.cutover, false), req) else [])
    + if why.Ended? then [] else [Er(Fatal(why))]
  }

  /** What a run hands to the consumer before its last cycle. */
  function CycleItems(cycles: seq<Cycle>, req: PlanRequest): seq<Item> {
    if cycles == [] then []
    else
      var c := cycles[|cycles| - 1];
      CycleItems(cycles[..|cycles| - 1], req)
      + TailRunItems(TailRun(TooOld, c.call, c.pages, c.tip, c.cutover, c.dialed), req, c.cursor, Ended)
  }

  /** What a whole run hands over; one that is stuck ends with the error that says so. */
  function RunItems(cycles: seq<Cycle>, t: TailRun, req: PlanRequest, start: Seq, why: Outcome): seq<Item> {
    CycleItems(cycles, req)
    + if why.Stuck? then [Er(Fatal(why))] else TailRunItems(t, req, NextCursor(cycles, start), why)
  }

  lemma CycleItemsSnoc(cycles: seq<Cycle>, c: Cycle, req: PlanRequest)
    ensures CycleItems(cycles + [c], req) == CycleItems(cycles, req)
            + TailRunItems(TailRun(TooOld, c.call, c.pages, c.tip, c.cutover, c.dialed), req, c.cursor, Ended)
  {
    hide TailRunItems;
    assert (cycles + [c])[..|cycles|] == cycles;
  }

  lemma NoCycles(req: PlanRequest)
    ensures CycleItems([], req) == []
  {
  }

  /** The sweep of a cycle: the server's answers, page after page, to the tip or to the reason it ended for. */
  ghost predicate SweepRan(t: TailRun, server: PlanServer, req: PlanRequest, cursor: Seq, stopped: bool) {
    && Swept(t.pages, req, cursor, t.tip) && Answered(server, t.call, t.pages)
    && SweepEndsFor(if t.NoTail? then t.sweep else Done, server, t.call, t.pages, req, cursor, t.tip, stopped)
  }

  lemma SweepRanStop(t: TailRun, server: PlanServer, req: PlanRequest, cursor: Seq, stopped: bool, stopped': bool)
    requires SweepRan(t, server, req, cursor, stopped) && (stopped ==> stopped')
    ensures SweepRan(t, server, req, cursor, stopped')
  {
    hide Swept, Answered, Answer, Reached, NextBefore, CutShort;
  }

  /**
   How a cycle ended. A cursor that has become too old starts the next one, a request
   refused for good is a failure, and neither happens for any other reason.
   */
  ghost predicate CycleEnded(again: bool, why: Outcome, stopped: bool, t: TailRun, dial: Dialer, limit: nat, h: nat) {
    match t
    case NoTail(sweep, _, _, _) =>
      !again && !sweep.Done? && (why.Ended? || why.PlanFailed?) && (why.PlanFailed? <==> sweep.Failed?)
    case TailRun(end, _, _, _, cutover, dialed) =>
      && TailRan(dialed, cutover, dial, limit, end, stopped, h)
      && (why.Ended? || (why.LiveRejected? && end.Invalid?)) && (again ==> end.TooOld? && why.Ended?)
      && (!stopped ==> (again <==> end.TooOld?) && (why.LiveRejected? <==> end.Invalid?))
  }

  /** A stop that comes later takes nothing back. */
  lemma CycleEndedStop(why: Outcome, stopped: bool, t: TailRun, dial: Dialer, limit: nat, h: nat, stopped': bool)
    requires CycleEnded(false, why, stopped, t, dial, limit, h) && (stopped ==> stopped')
    ensures CycleEnded(false, why, stopped', t, dial, limit, h)
  {
    hide AskedOn, TailMark;
  }

  /** The sweep went to the tip its opening call was told, and the tail began at the higher of that and the cursor. */
  ghost predicate CutOver(server: PlanServer, req: PlanRequest, cursor: Seq, call: nat, tip: Seq, cutover: Seq) {
    LearntTip(server, req, call, cursor, tip) && cutover == Max(tip, cursor)
  }

  /** Every cycle of a run cut over, heard what it resumed from, and was sent back by its endpoint. */
  ghost predicate SentBack(c: Cycle, server: PlanServer, req: PlanRequest, dial: Dialer, limit: nat) {
    && CutOver(server, req, c.cursor, c.call, c.tip, c.cutover)
    && SweepRan(TailRun(TooOld, c.call, c.pages, c.tip, c.cutover, c.dialed), server, req, c.cursor, false)
    && TailRan(c.dialed, c.cutover, dial, limit, TooOld, false, c.resume)
  }

  ghost predicate AllSentBack(cycles: seq<Cycle>, server: PlanServer, req: PlanRequest, tails: nat -> Dialer,
                              limits: nat -> nat)
  {
    forall k: nat :: k < |cycles| ==> SentBack(cycles[k], server, req, tails(k), limits(k))
  }

  lemma SentBackStart(server: PlanServer, req: PlanRequest, tails: nat -> Dialer, limits: nat -> nat)
    ensures AllSentBack([], server, req, tails, limits)
  {
  }

  lemma SentBackSnoc(cycles: seq<Cycle>, c: Cycle, server: PlanServer, req: PlanRequest, tails: nat -> Dialer,
                     limits: nat -> nat, why: Outcome, stopped: bool)
    requires AllSentBack(cycles, server, req, tails, limits)
    requires var t := TailRun(TooOld, c.call, c.pages, c.tip, c.cutover, c.dialed);
             && CycleEnded(true, why, stopped, t, tails(|cycles|), limits(|cycles|), c.resume)
             && SweepRan(t, server, req, c.cursor, false)
    requires CutOver(server, req, c.cursor, c.call, c.tip, c.cutover)
    ensures AllSentBack(cycles + [c], server, req, tails, limits)
  {
    hide AskedOn, TailMark, CutOver, SweepRan;
    assert SentBack(c, server, req, tails(|cycles|), limits(|cycles|));
    hide SentBack;
  }

  /** A run's last cycle, unless it gave up on a cursor that would not advance. */
  ghost predicate RunEnded(why: Outcome, stopped: bool, t: TailRun, server: PlanServer, req: PlanRequest, cursor: Seq,
                           dial: Dialer, limit: nat, h: nat)
  {
    if why.Stuck? then h == cursor
    else
      && CycleEnded(false, why, stopped, t, dial, limit, h) && SweepRan(t, server, req, cursor, stopped)
      && (t.TailRun? ==> CutOver(server, req, cursor, t.call, t.tip, t.cutover))
  }

  /** How a dump ended: only an unusable or stalled plan is a failure. */
  ghost predicate DumpEnded(why: Outcome, stopped: bool, t: TailRun, server: PlanServer, req: PlanRequest) {
    && t.NoTail? && SweepRan(t, server, req, req.afterSeq, stopped)
    && (why.Ended? || why.PlanFailed?) && (why.PlanFailed? <==> t.sweep.Failed?)
  }

  /** The same once more may have been stopped, with the horizon where nothing was. */
  lemma TailRanStop(dialed: seq<Dial>, cutover: Seq, dial: Dialer, limit: nat, end: RunEnd, stopped: bool, resume: nat,
                    stopped': bool, h: nat)
    requires TailRan(dialed, cutover, dial, limit, end, stopped, resume) && (stopped ==> stopped')
    requires end != Clean || !stopped ==> h == resume
    ensures TailRan(dialed, cutover, dial, limit, end, stopped', h)
  {
    hide AskedOn, TailMark;
  }

  /** Where the cycle after these starts. */
  function NextCursor(cycles: seq<Cycle>, start: Seq): Seq {
    if cycles == [] then start else cycles[|cycles| - 1].resume
  }

  class ReplayEngine {
    const request: PlanRequest
    const fast: bool             // the parallel backfill path
    const server: PlanServer
    var matcher: Matcher
    var stalls: nat
    var progress: Stats
    var planCalls: nat           // planSnapshot calls made so far

    constructor (request: PlanRequest, fast: bool, server: PlanServer)
      ensures this.request == request && this.fast == fast && this.server == server
      ensures matcher.Represents(request) && matcher.afterSeq == request.afterSeq
      ensures fresh(matcher) && planCalls == 0
    {
      this.request, this.fast, this.server := request, fast, server;
      matcher := new Matcher(request);
      stalls, progress, planCalls := 0, Stats(0, 0, 0, 0), 0;
    }

    /** Downloads one answered page and carries the sweep's promises across it. */
    method SweepOnePage(b: Batcher, page: Page, start: Seq, tip: Seq, ghost log: seq<Event>, ghost grid: Grid,
                        ghost first: nat, ghost n: nat, ghost pages: seq<Page>, ghost got: seq<Event>,
                        ghost had: seq<Event>)
      returns (cancelled: bool, stopped: bool, ghost all: seq<Event>, ghost h: nat)
      requires matcher.Represents(request) && matcher.afterSeq == start
      requires Ready(b, fast) && IsLog(log) && b.taken == had + got
      requires Sweeping(server, first, pages, got, log, request, start, tip, grid)
      requires Answer(server, n, page.after, page.before) == Some(page) && n == first + |pages|
      requires NextPage(pages, page, request, start, tip)
      modifies b, b.out
      ensures Settled(b, fast)
      ensures (stopped <==> b.out.stopped) && (stopped ==> !Willing(b.out.answer))
      ensures (!stopped ==> Ready(b, fast)) && (cancelled ==> CutShort(page.plan))
      ensures !stopped ==> (cancelled <==> CutShort(page.plan))
      ensures b.taken == had + all
      ensures Handing(old(b.accepted), b.accepted, PageTaken(page.plan, request, start), stopped)
      ensures old(b.out.stopped) ==> stopped && b.accepted == old(b.accepted)
      ensures SweepResult(server, first, pages + [page], all, log, request, start, tip, grid, h)
      ensures !cancelled && !stopped ==>
                && (page.after < page.plan.through < tip ==>
                      Sweeping(server, first, pages + [page], all, log, request, start, tip, grid))
                && (tip <= page.plan.through ==> SweptAll(pages + [page], all, log, request, start, tip, h))
    {
      hide Sweeping, SweepResult, SweptAll, PageItems, PageTaken, Events, Ready, Settled, IsLog, Answer, NextPage,
           Willing, Batcher.Open, Batcher.Valid, Matcher.Represents;
      ghost var items, was := [], b.accepted;
      OpenStop(b);
      assert was + [] == was;
      ReadyOpen(b, fast);
      cancelled, stopped, items := Download(page.plan, matcher, b, fast, request);
      h := SweepingPage(server, first, n, pages, page, got, items, log, request, start, tip, grid);
      Assoc(had, got, Events(items));
      all := got + Events(items);
      ReadyOrStopped(b, fast);
    }

    /**
     Pages planSnapshot from `start`, pinned to the tip of the first page, until
     the cursor reaches that tip. Terminates for every sequence of replies.
     */
    method SweepSealedArchive(b: Batcher, start: Seq, ghost log: seq<Event>, ghost grid: Grid)
      returns (end: SweepEnd, tip: Seq, ghost pages: seq<Page>, ghost got: seq<Event>, ghost h: nat)
      requires matcher.Represents(request) && matcher.afterSeq == start
      requires Ready(b, fast) && IsLog(log)
      modifies this`progress, this`planCalls, b, b.out
      ensures Settled(b, fast)
      ensures end.Done? || end.Failed? ==> Ready(b, fast)
      ensures b.taken == old(b.taken) + got
      ensures SweepResult(server, old(planCalls), pages, got, log, request, start, tip, grid, h)
      ensures SweepEndsFor(end, server, old(planCalls), pages, request, start, tip, b.out.stopped)
      ensures Handing(old(b.accepted), b.accepted, SweepItems(pages, request, start), b.out.stopped)
      ensures Steady(server, request) && Askable(request, start) && Willing(b.out.answer) ==> end.Done?
      ensures end.Done? ==>
                && !b.out.stopped && pages != [] && tip <= Reached(pages, start)
                && SweptAll(pages, got, log, request, start, tip, h)
                && progress == StatsAt(old(progress.pages) + |pages|, tip, Reached(pages, start))
    {
      hide Sweeping, SweepResult, SweptAll, PageItems, Events, Ready, Settled, IsLog, PlanArchive, PlanFromOutput,
           Answer, Steady, Willing, Batcher.Open, Batcher.Valid, Matcher.Represents, Handing, SweepItems, PageTaken;
      ghost var had, first := b.taken, planCalls;
      HandingStart(b.accepted, b.out.stopped);
      NoPages(request, start);
      var cursor, pinned := start, false;
      tip, pages, got := 0, [], [];
      SweepingStart(server, first, log, request, start, tip, grid);
      while true
        invariant Ready(b, fast) && b.taken == had + got
        invariant cursor == Reached(pages, start) && tip <= MAX_INT64
        invariant pinned <==> pages != []
        invariant (pages == [] ==> got == []) && planCalls == first + |pages|
        invariant Handing(old(b.accepted), b.accepted, SweepItems(pages, request, start), b.out.stopped)
        invariant Sweeping(server, first, pages, got, log, request, start, tip, grid)
        invariant pages != [] ==> cursor < tip
        invariant progress.pages == old(progress.pages) + |pages|
        decreases !pinned, tip - cursor
      {
        ReadyFacts(b, fast);
        h := SweepingSoFar(server, first, pages, got, log, request, start, tip, grid);
        var before := if pinned then Some(tip) else Opening(request);
        var reply := server(planCalls, cursor, before);
        var planned := PlanArchive(reply, cursor, before);
        ghost var n := planCalls;
        Planned(server, n, cursor, before);
        SteadyAt(server, request, first, start, tip, n, cursor, pinned);
        planCalls := planCalls + 1;
        if reply.PlanCancelled? { end := Cancelled; return; }
        if planned.None? { end := Failed; return; }
        var plan := planned.value;
        if !pinned {
          tip, pinned := plan.tip, true;
          progress := StatsAt(progress.pages, tip, cursor);
          SweepingStart(server, first, log, request, start, tip, grid);
        }
        var page := Page(cursor, before, plan);
        var cancelled, stopped: bool;
        ghost var accepted, halted := b.accepted, b.out.stopped;
        cancelled, stopped, got, h := SweepOnePage(b, page, start, tip, log, grid, first, n, pages, got, had);
        SweepItemsSnoc(pages, page, request, start);
        HandingMore(old(b.accepted), accepted, SweepItems(pages, request, start), halted,
                    PageTaken(page.plan, request, start), b.accepted, b.out.stopped);
        pages := pages + [page];
        if cancelled { end := Cancelled; return; }
        if stopped { end := Stopped; return; }
        progress := StatsAt(progress.pages + 1, tip, plan.through);
        var prev := cursor;
        cursor := plan.through;
        if cursor >= tip { end := Done; return; }
        if cursor <= prev { end := Failed; return; }
      }
    }

    /** Tails live from the cutover; the cutover is also the deduplication floor. */
    method TailLiveFromCutover(b: Batcher, cutover: Seq, dial: Dialer, limit: nat, ghost log: seq<Event>)
      returns (end: RunEnd, resume: Seq, ghost got: seq<Event>, ghost h: nat, ghost dialed: seq<Dial>)
      requires matcher.Represents(request) && !request.hasBeforeSeq && matcher.afterSeq <= cutover
      requires b.Open() && IsLog(log)
      modifies b, b.out
      ensures b.Open() && b.taken == old(b.taken) + got
      ensures cutover <= resume && Sound(got, request, cutover, resume)
      ensures DialConforms(dial, log, request) ==> cutover <= h && Exact(got, log, request, cutover, h)
      ensures end != Clean || !b.stop ==> h == resume
      ensures TailRan(dialed, cutover, dial, limit, end, b.stop, resume)
      ensures Handing(old(b.accepted), b.accepted, TailItems(dialed, Mark(cutover, false), request), b.stop)
    {
      hide Handing, KeptDialing, AskedOn, TailMark, TailItems, Exact, Sound, DialConforms, Batcher.Open, Batcher.Valid,
           Matcher.Represents, IsLog;
      var consumer := new LiveConsumer(cutover, false, cutover);
      ghost var lo;
      end, got, lo, h, dialed := consumer.Run(dial, limit, matcher, b, log, request);
      resume := consumer.lastSeq;
    }

    /** What this engine's server and live endpoint may be trusted with. */
    ghost function TrustIn(tails: nat -> Dialer, log: seq<Event>, grid: Grid): Trust {
      Trust(HonestServer(server, log, request) && forall k: nat :: DialConforms(tails(k), log, request),
            TidyServer(server, request, grid))
    }

    /** The same for a dump, which has no live endpoint. */
    ghost function ArchiveTrust(log: seq<Event>, grid: Grid): Trust {
      Trust(HonestServer(server, log, request), TidyServer(server, request, grid))
    }

    lemma TrustGives(tails: nat -> Dialer, log: seq<Event>, grid: Grid, k: nat)
      ensures TrustIn(tails, log, grid).honest ==>
                HonestServer(server, log, request) && DialConforms(tails(k), log, request)
      ensures TrustIn(tails, log, grid).tidy ==> TidyServer(server, request, grid)
    {
    }

    /**
     One sweep, the cutover, the live tail, and the flush that keeps the seam in
     order. `again` means the server refused the live cursor as too old.
     */
    method RunCycle(b: Batcher, cursor: Seq, dial: Dialer, limit: nat, ghost log: seq<Event>, ghost grid: Grid,
                    ghost trust: Trust)
      returns (again: bool, why: Outcome, resume: Seq, ghost h: nat, ghost tail: TailRun)
      requires matcher.Represents(request) && matcher.afterSeq == cursor && !request.hasBeforeSeq
      requires Ready(b, fast) && IsLog(log)
      requires Replayed(b.taken, log, request, cursor, trust)
      requires trust.honest ==> HonestServer(server, log, request) && DialConforms(dial, log, request)
      requires trust.tidy ==> TidyServer(server, request, grid)
      modifies this`progress, this`planCalls, b, b.out
      ensures b.Valid() && Replayed(b.taken, log, request, h, trust)
      ensures cursor <= h && !why.Stuck? && Surfaced(why, b.stop, b.accepted)
      ensures CycleEnded(again, why, b.stop, tail, dial, limit, h)
      ensures tail.call == old(planCalls) && SweepRan(tail, server, request, cursor, b.out.stopped)
      ensures tail.TailRun? ==> CutOver(server, request, cursor, tail.call, tail.tip, tail.cutover)
      ensures Handing(old(b.accepted), b.accepted, TailRunItems(tail, request, cursor, why), b.out.stopped)
      ensures Steady(server, request) && cursor <= MAX_INT64 && Willing(b.out.answer) ==>
                tail.TailRun? && !b.stop && tail.tip <= h
      ensures again ==> Ready(b, fast) && !b.out.stopped && h == resume && tail.cutover <= resume
    {
      hide Replayed, SweptTo, Swept, AllHonest, AllTidy, Covers, Exact, Sound, HonestServer, TidyServer, DialConforms,
           Steady, Willing, Answer, Tiles, Batcher.Open, Batcher.Valid, Matcher.Represents, IsLog, TailRan, Handing,
           SweepItems, TailItems, Answered, SweepEndsFor, Reached, TailRunItems, CutOver, Fatal;
      ghost var pages, more, sh, dialed;
      ghost var got, was, call := b.taken, b.accepted, planCalls;
      var end: SweepEnd, tip: Seq;
      resume := cursor;
      end, tip, pages, more, sh := SweepSealedArchive(b, cursor, log, grid);
      tail := NoTail(end, call, pages, tip);
      if !end.Done? {
        h := ReplayedCut(got, more, log, request, cursor, sh, trust, pages);
        again, why := false, Ended;
        ghost var halted := b.out.stopped;
        if end.Failed? {
          why := PlanFailed;
          Report(b, why, was, SweepItems(pages, request, cursor));
        }
        SweepRanStop(tail, server, request, cursor, halted, b.out.stopped);
        NoTailItems(tail, request, cursor, why);
        return;
      }
      FirstPage(pages, request, server, call, cursor, tip);
      ReplayedSweep(got, more, log, request, cursor, tip, sh, trust, pages);
      var cutover := if tip > cursor then tip else cursor;
      got := b.taken;
      ghost var swept := b.accepted;
      var tailEnd: RunEnd;
      tailEnd, resume, more, h, dialed := TailLiveFromCutover(b, cutover, dial, limit, log);
      tail := TailRun(tailEnd, call, pages, tip, cutover, dialed);
      if !trust.honest { h := resume; }
      ReplayedTail(got, more, log, request, cutover, h, trust);
      again, why := tailEnd.TooOld?, Ended;
      ghost var stopped := b.stop;
      OpenStop(b);
      ghost var front, back := SweepItems(pages, request, cursor), TailItems(dialed, Mark(cutover, false), request);
      HandingMore(was, swept, front, false, back, b.accepted, b.out.stopped);
      WithTailItems(tail, request, cursor, Ended);
      if tailEnd.Invalid? && !b.stop {
        why := LiveRejected;
        Report(b, why, was, front + back);
        WithTailItems(tail, request, cursor, why);
      }
      ghost var halted := b.out.stopped;
      if again {
        again := b.Flush();
      }
      TailRanStop(dialed, cutover, dial, limit, tailEnd, stopped, resume, b.stop, h);
      HandingStop(was, b.accepted, TailRunItems(tail, request, cursor, why), halted, b.out.stopped);
      SweepRanStop(tail, server, request, cursor, false, b.out.stopped);
      OpenStop(b);
      NeverStops(b);
    }

    /**
     Backfill, cut over, and re-backfill while the server refuses the live cursor
     as too old. Terminates for every server.
     */
    method RunBackfillThenLive(out: Consumer, tails: nat -> Dialer, limits: nat -> nat,
                               ghost log: seq<Event>, ghost grid: Grid)
      returns (why: Outcome, ghost cycles: seq<Cycle>, ghost h: nat, ghost tail: TailRun)
      requires matcher.Represents(request) && matcher.afterSeq == request.afterSeq && stalls == 0
      requires !request.hasBeforeSeq && IsLog(log)
      requires out.Valid() && !out.stopped && out.seen == []
      modifies this, matcher, out
      ensures out.Valid() && Surfaced(why, out.stopped, out.seen)
      ensures Monotone(cycles, request.afterSeq) && StallsBounded(cycles)
      ensures why.Stuck? <==> TrailingStalls(cycles) == MAX_REBACKFILL_STALLS
      ensures AllSentBack(cycles, server, request, tails, limits)
      ensures RunEnded(why, out.stopped, tail, server, request, NextCursor(cycles, request.afterSeq), tails(|cycles|),
                       limits(|cycles|), h)
      ensures Steady(server, request) && NextCursor(cycles, request.afterSeq) <= MAX_INT64 && Willing(out.answer) ==>
                !out.stopped && (why.Stuck? || tail.TailRun?)
      ensures Handing([], out.seen, RunItems(cycles, tail, request, request.afterSeq, why), out.stopped)
      ensures Replayed(Events(out.seen), log, request, h, TrustIn(tails, log, grid))
      ensures Steady(server, request) && Askable(request, request.afterSeq) && Willing(out.answer) ==>
                Followed(server, request, old(planCalls), h)
    {
      hide Replayed, Monotone, StallsBounded, TrailingStalls, HonestServer, TidyServer, DialConforms, Steady, Answer,
           Batcher.Open, Batcher.Valid, Consumer.Valid, Matcher.Represents, IsLog, Events, TrustIn, Willing, Fatal,
           TailRan, AllSentBack, Flatten, Handing, CycleItems, TailRunItems, SweepRan;
      var b := new Batcher(out);
      var cursor := request.afterSeq;
      var k := 0;
      ghost var trust := TrustIn(tails, log, grid);
      ghost var first := Answer(server, planCalls, cursor, None);
      cycles, h, tail := [], cursor, NoTail(Done, planCalls, [], 0);
      ReplayedStart(log, request, trust);
      CyclesStart(request.afterSeq);
      SentBackStart(server, request, tails, limits);
      NoEvents();
      NoCycles(request);
      HandingStart([], false);
      while true
        invariant Ready(b, fast) && b.out == out
        invariant matcher == old(matcher) && matcher.Represents(request) && matcher.afterSeq == cursor
        invariant stalls == TrailingStalls(cycles) < MAX_REBACKFILL_STALLS
        invariant Monotone(cycles, request.afterSeq) && StallsBounded(cycles)
        invariant cursor == NextCursor(cycles, request.afterSeq) && k == |cycles|
        invariant AllSentBack(cycles, server, request, tails, limits)
        invariant h == cursor && Replayed(b.taken, log, request, cursor, trust)
        invariant !out.stopped && Handing([], b.accepted, CycleItems(cycles, request), false)
        invariant k == 0 ==> planCalls == old(planCalls) && cursor == request.afterSeq
        invariant k > 0 && Steady(server, request) && request.afterSeq <= MAX_INT64 && Willing(out.answer) ==>
                    first.Some? && first.value.plan.tip <= h
        decreases MAX_SEQ - cursor, MAX_REBACKFILL_STALLS - stalls
      {
        var again: bool, resume: Seq;
        TrustGives(tails, log, grid, k);
        ghost var was := b.accepted;
        again, why, resume, h, tail := RunCycle(b, cursor, tails(k), limits(k), log, grid, trust);
        HandingMore([], was, CycleItems(cycles, request), false, TailRunItems(tail, request, cursor, why), b.accepted,
                    out.stopped);
        if !again { break; }
        ghost var cycle := Cycle(cursor, tail.call, tail.pages, tail.tip, tail.cutover, resume, tail.dialed);
        SentBackSnoc(cycles, cycle, server, request, tails, limits, why, b.stop);
        CycleItemsSnoc(cycles, cycle, request);
        CyclesSnoc(cycles, cycle, request.afterSeq);
        k, cycles := k + 1, cycles + [cycle];
        matcher.SetAfterSeq(resume);
        if resume <= cursor {
          stalls := stalls + 1;
          if stalls >= MAX_REBACKFILL_STALLS {
            why := Stuck;
            Report(b, why, [], CycleItems(cycles, request));
            break;
          }
        } else {
          stalls := 0;
        }
        cursor := resume;
      }
      ghost var stopped, halted := b.stop, out.stopped;
      FlushLast(b, why);
      HandingStop([], out.seen, RunItems(cycles, tail, request, request.afterSeq, why), halted, out.stopped);
      if !why.Stuck? {
        CycleEndedStop(why, stopped, tail, tails(k), limits(k), h, out.stopped);
        SweepRanStop(tail, server, request, cursor, halted, out.stopped);
      }
      WillingNeverStops(out);
    }

    /** The one-time dump: one sweep, then the partial batch. No live tail. */
    method RunBackfillOnly(out: Consumer, ghost log: seq<Event>, ghost grid: Grid)
      returns (why: Outcome, ghost h: nat, ghost sweep: TailRun)
      requires matcher.Represents(request) && matcher.afterSeq == request.afterSeq && IsLog(log)
      requires out.Valid() && !out.stopped && out.seen == []
      modifies this, out
      ensures out.Valid() && Surfaced(why, out.stopped, out.seen)
      ensures DumpEnded(why, out.stopped, sweep, server, request) && sweep.call == old(planCalls)
      ensures Handing([], out.seen, TailRunItems(sweep, request, request.afterSeq, why), out.stopped)
      ensures Replayed(Events(out.seen), log, request, h, ArchiveTrust(log, grid))
      ensures Steady(server, request) && Askable(request, request.afterSeq) && Willing(out.answer) ==>
                why.Ended? && Followed(server, request, old(planCalls), h)
    {
      hide Replayed, SweptTo, Swept, AllHonest, AllTidy, Covers, HonestServer, TidyServer, Steady, Willing, Answer,
           Batcher.Open, Batcher.Valid, Consumer.Valid, Matcher.Represents, IsLog, Events, Fatal, Handing, SweepItems,
           TailRunItems, Answered, SweepEndsFor, Reached;
      var b := new Batcher(out);
      ghost var trust := ArchiveTrust(log, grid);
      ReplayedStart(log, request, trust);
      NoEvents();
      var end: SweepEnd, tip: Seq;
      ghost var pages, more, sh;
      end, tip, pages, more, sh := SweepSealedArchive(b, request.afterSeq, log, grid);
      why, sweep := Ended, NoTail(end, old(planCalls), pages, tip);
      ghost var halted := out.stopped;
      if end.Done? {
        FirstPage(pages, request, server, sweep.call, request.afterSeq, tip);
        ReplayedSweep([], more, log, request, request.afterSeq, tip, sh, trust, pages);
        h := Max(tip, request.afterSeq);
      } else {
        h := ReplayedCut([], more, log, request, request.afterSeq, sh, trust, pages);
        if end.Failed? {
          why := PlanFailed;
          Report(b, why, [], SweepItems(pages, request, request.afterSeq));
        }
      }
      SettledEmpty(b, fast);
      NoTailItems(sweep, request, request.afterSeq, why);
      ghost var reported := out.stopped;
      FlushLast(b, why);
      SweepRanStop(sweep, server, request, request.afterSeq, halted, out.stopped);
      HandingStop([], out.seen, TailRunItems(sweep, request, request.afterSeq, why), reported, out.stopped);
    }

    /** The pure live tail: from a saved cursor, or from the tip when it is zero. */
    method RunLiveOnly(out: Consumer, liveCursor: Seq, dial: Dialer, limit: nat, ghost log: seq<Event>)
      returns (why: Outcome, ghost lo: nat, ghost h: nat, ghost end: RunEnd, ghost dialed: seq<Dial>)
      requires matcher.Represents(request) && !request.hasBeforeSeq && matcher.afterSeq == request.afterSeq == 0
      requires out.Valid() && !out.stopped && out.seen == [] && IsLog(log)
      modifies out
      ensures out.Valid() && Surfaced(why, out.stopped, out.seen)
      ensures Tailed(Events(out.seen), log, request, liveCursor, dial, lo, h)
      ensures lo == if liveCursor > 0 then liveCursor else TipOf(dialed)
      ensures LiveEnded(dialed, liveCursor, dial, limit, end, why, out.stopped, h)
      ensures Handing([], out.seen, LiveItems(dialed, liveCursor, request, why), out.stopped)
    {
      hide DialConforms, Exact, Sound, Willing, Batcher.Open, Batcher.Valid, Consumer.Valid, Matcher.Represents, IsLog,
           Events, Fatal, KeptDialing, TipOf, TailMark, TailItems, AskedOn, Handing;
      var b := new Batcher(out);
      NoEvents();
      var consumer := new LiveConsumer(liveCursor, liveCursor == 0, liveCursor);
      var tailEnd: RunEnd;
      ghost var got;
      tailEnd, got, lo, h, dialed := consumer.Run(dial, limit, matcher, b, log, request);
      assert [] + got == got;
      SoundFacts(got, request, liveCursor, consumer.lastSeq);
      why, end := Ended, tailEnd;
      ghost var stopped := b.stop;
      OpenStop(b);
      ghost var items := TailItems(dialed, Mark(liveCursor, false), request);
      assert items + [] == items;
      if !tailEnd.Clean? && !b.stop {
        why := LiveRejected;
        Report(b, why, [], items);
      }
      ghost var reported := out.stopped;
      FlushLast(b, why);
      KeptStop(dialed, dial, limit, end, stopped, out.stopped);
      HandingStop([], out.seen, LiveItems(dialed, liveCursor, request, why), reported, out.stopped);
    }

    /**
     One Events iteration in any of the three configurations. Whatever an earlier
     iteration left behind (a raised matcher floor, a stall count, progress) is reset
     first, so the delivery is measured from the configured request again.
     */
    method Run(mode: Mode, batchSize: int, answer: nat -> bool, tails: nat -> Dialer, limits: nat -> nat,
               ghost log: seq<Event>, ghost grid: Grid)
      returns (out: Consumer, why: Outcome, ghost cycles: seq<Cycle>, ghost lo: nat, ghost h: nat,
               ghost tail: TailRun)
      requires Coherent(mode, request) && IsLog(log)
      modifies this
      ensures fresh(out) && out.Valid() && out.answer == answer && Surfaced(why, out.stopped, out.seen)
      ensures mode.Replay? ==>
                && Monotone(cycles, request.afterSeq) && StallsBounded(cycles)
                && (why.Stuck? <==> TrailingStalls(cycles) == MAX_REBACKFILL_STALLS)
                && AllSentBack(cycles, server, request, tails, limits)
                && RunEnded(why, out.stopped, tail, server, request, NextCursor(cycles, request.afterSeq),
                            tails(|cycles|), limits(|cycles|), h)
                && (Steady(server, request) && NextCursor(cycles, request.afterSeq) <= MAX_INT64 && Willing(answer) ==>
                      !out.stopped && (why.Stuck? || tail.TailRun?))
                && Handing([], out.seen, RunItems(cycles, tail, request, request.afterSeq, why), out.stopped)
                && Replayed(Events(out.seen), log, request, h, TrustIn(tails, log, grid))
                && (Steady(server, request) && Askable(request, request.afterSeq) && Willing(answer) ==>
                      Followed(server, request, old(planCalls), h))
      ensures mode.Dump? ==>
                && DumpEnded(why, out.stopped, tail, server, request) && tail.call == old(planCalls)
                && Handing([], out.seen, TailRunItems(tail, request, request.afterSeq, why), out.stopped)
                && Replayed(Events(out.seen), log, request, h, ArchiveTrust(log, grid))
                && (Steady(server, request) && Askable(request, request.afterSeq) && Willing(answer) ==>
                      why.Ended? && Followed(server, request, old(planCalls), h))
      ensures mode.Live? ==>
                && Tailed(Events(out.seen), log, request, mode.cursor, tails(0), lo, h)
                && tail.TailRun? && lo == (if mode.cursor > 0 then mode.cursor else TipOf(tail.dialed))
                && LiveEnded(tail.dialed, mode.cursor, tails(0), limits(0), tail.end, why, out.stopped, h)
                && Handing([], out.seen, LiveItems(tail.dialed, mode.cursor, request, why), out.stopped)
    {
      hide Replayed, Tailed, Followed, Steady, Willing, Monotone, StallsBounded, TrailingStalls, AllSentBack, RunEnded,
           LiveEnded, LiveItems, Handing, RunItems, TailRunItems, DumpEnded, TipOf, Events, Surfaced, Consumer.Valid,
           Matcher.Represents, IsLog, TrustIn, ArchiveTrust;
      out := new Consumer(batchSize, answer);
      progress := Stats(0, 0, 0, 0);
      matcher := new Matcher(request);
      stalls := 0;
      cycles, lo := [], 0;
      match mode
      case Replay => why, cycles, h, tail := RunBackfillThenLive(out, tails, limits, log, grid);
      case Dump => why, h, tail := RunBackfillOnly(out, log, grid);
      case Live(cursor) =>
        ghost var end, dialed;
        why, lo, h, end, dialed := RunLiveOnly(out, cursor, tails(0), limits(0), log);
        tail := TailRun(end, planCalls, [], 0, cursor, dialed);
    }
  }

  /** The three configurations of a client. */
  datatype Mode = Replay | Dump | Live(cursor: Seq)

  /** What option validation leaves: an upper bound only for a dump, and no replay bounds for a live tail. */
  predicate Coherent(mode: Mode, req: PlanRequest) {
    && (req.hasBeforeSeq ==> mode.Dump?)
    && (mode.Live? ==> req.afterSeq == 0)
  }

  /** The run reached at least the tip its first call was told. */
  ghost predicate Followed(server: PlanServer, req: PlanRequest, first: nat, h: nat) {
    var page := Answer(server, first, req.afterSeq, Opening(req));
    page.Some? && page.value.plan.tip <= h
  }

  /** What a live tail delivers: above its cursor in ascending order, and from a gapless endpoint everything. */
  ghost predicate Tailed(got: seq<Event>, log: seq<Event>, req: PlanRequest, cursor: Seq, dial: Dialer,
                         lo: nat, h: nat)
  {
    && Ascending(got) && (forall e :: e in got ==> cursor < e.seqNo && Passes(req, e))
    && (DialConforms(dial, log, req) ==> Exact(got, log, req, lo, h))
  }

  /** How a live-only run ended: a refusal for good is a failure, anything else is not. */
  ghost predicate LiveEnded(dialed: seq<Dial>, cursor: Seq, dial: Dialer, limit: nat, end: RunEnd, why: Outcome,
                            stopped: bool, h: nat)
  {
    var start := Mark(cursor, false);
    && KeptDialing(dialed, dial, limit, end, stopped) && AskedOn(dialed, cursor, cursor == 0, start)
    && (end != Clean || !stopped ==> h == TailMark(dialed, start).last)
    && (why.Ended? || (why.LiveRejected? && !end.Clean?)) && (!stopped ==> (why.LiveRejected? <==> !end.Clean?))
  }

  /** What it hands to the consumer. */
  function LiveItems(dialed: seq<Dial>, cursor: Seq, req: PlanRequest, why: Outcome): seq<Item> {
    TailItems(dialed, Mark(cursor, false), req) + if why.LiveRejected? then [Er(Fatal(why))] else []
  }

  lemma KeptStop(dialed: seq<Dial>, dial: Dialer, limit: nat, end: RunEnd, stopped: bool, stopped': bool)
    requires KeptDialing(dialed, dial, limit, end, stopped) && (stopped ==> stopped')
    ensures KeptDialing(dialed, dial, limit, end, stopped')
  {
  }

  lemma HandingStop(before: seq<Item>, accepted: seq<Item>, items: seq<Item>, stopped: bool, stopped': bool)
    requires Handing(before, accepted, items, stopped) && (stopped ==> stopped')
    ensures Handing(before, accepted, items, stopped')
  {
  }

  lemma SoundFacts(got: seq<Event>, req: PlanRequest, floor: nat, last: nat)
    requires Sound(got, req, floor, last)
    ensures Ascending(got) && forall e :: e in got ==> floor < e.seqNo && Passes(req, e)
  {
  }

  lemma SettledEmpty(b: Batcher, fast: bool)
    requires Settled(b, fast) || b.Open()
    ensures b.Valid() && (b.stop ==> b.buf == [])
  {
  }

  /** The first answer is the one the tip was learnt from. */
  lemma FirstPage(pages: seq<Page>, req: PlanRequest, server: PlanServer, first: nat, start: Seq, tip: Seq)
    requires Swept(pages, req, start, tip) && Answered(server, first, pages) && pages != []
    ensures CutOver(server, req, start, first, tip, Max(tip, start))
    ensures Followed(server, req, first, Max(tip, start)) || req.afterSeq != start
  {
    hide Answer;
    assert Answer(server, first + 0, pages[0].after, pages[0].before) == Some(pages[0]);
  }

  lemma NoTailItems(t: TailRun, req: PlanRequest, cursor: Seq, why: Outcome)
    requires t.NoTail?
    ensures TailRunItems(t, req, cursor, why)
            == if why.Ended? then SweepItems(t.pages, req, cursor)
               else SweepItems(t.pages, req, cursor) + [Er(Fatal(why))]
  {
    hide SweepItems;
  }

  lemma WithTailItems(t: TailRun, req: PlanRequest, cursor: Seq, why: Outcome)
    requires t.TailRun?
    ensures var items := SweepItems(t.pages, req, cursor) + TailItems(t.dialed, Mark(t.cutover, false), req);
            TailRunItems(t, req, cursor, why) == if why.Ended? then items else items + [Er(Fatal(why))]
  {
    hide SweepItems, TailItems;
  }

  /** Tells the consumer why the run ends. */
  method Report(b: Batcher, why: Outcome, ghost was: seq<Item>, ghost items: seq<Item>)
    requires b.Open() && Handing(was, b.accepted, items, b.out.stopped)
    modifies b, b.out
    ensures b.Open() && b.taken == old(b.taken) && (old(b.stop) ==> b.stop) && (old(b.out.stopped) ==> b.out.stopped)
    ensures b.stop || Er(Fatal(why)) in b.accepted
    ensures Handing(was, b.accepted, items + [Er(Fatal(why))], b.out.stopped)
  {
    hide Batcher.Open, Batcher.Valid, Handing, Fatal;
    OpenStop(b);
    ghost var accepted, stopped := b.accepted, b.stop;
    var _ := b.EmitError(Fatal(why));
    OpenStop(b);
    HandingError(accepted, b.accepted, stopped, b.stop, Fatal(why));
    HandingMore(was, accepted, items, stopped, [Er(Fatal(why))], b.accepted, b.stop);
  }

  lemma NoEvents()
    ensures Events([]) == []
  {
  }

  lemma ReadyOpen(b: Batcher, fast: bool)
    requires Ready(b, fast)
    ensures b.Open()
  {
  }

  lemma ReadyOrStopped(b: Batcher, fast: bool)
    requires Settled(b, fast)
    ensures Willing(b.out.answer) ==> !b.out.stopped
  {
    WillingNeverStops(b.out);
  }

  lemma NeverStops(b: Batcher)
    requires b.Valid()
    ensures Willing(b.out.answer) ==> !b.stop
  {
    WillingNeverStops(b.out);
  }

  /** The partial batch at the end of a run, which hands over all that was taken. */
  method FlushLast(b: Batcher, ghost why: Outcome)
    requires b.Valid() && Surfaced(why, b.stop, b.accepted)
    modifies b, b.out
    ensures b.out.Valid() && Surfaced(why, b.out.stopped, b.out.seen)
    ensures Events(b.out.seen) == old(b.taken) && b.out.seen == old(b.accepted)
    ensures old(b.stop || b.out.stopped) ==> b.out.stopped
  {
    hide Batcher.Valid, Consumer.Valid, Batcher.Open, Events, Fatal;
    StoppedEmpty(b);
    if !b.stop { var _ := b.Flush(); }
    DeliveredAll(b);
  }

  lemma StoppedEmpty(b: Batcher)
    requires b.Valid()
    ensures b.stop ==> b.buf == []
  {
  }

  lemma DeliveredAll(b: Batcher)
    requires b.Valid() && b.buf == []
    ensures b.out.Valid() && Events(b.out.seen) == b.taken && b.out.seen == b.accepted && (b.stop ==> b.out.stopped)
  {
    assert b.out.seen + [] == b.out.seen;
  }
}
