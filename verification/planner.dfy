/**
 The archive's planSnapshot planner (jetstream/internal/manifest/plan.go): which
 blocks of the sealed segments a page ships, in which units, and where it ends.
 It is the server the replay engine pages through, so what the engine asks of a
 server is proved of it here.
 */
module Planner {
  import opened Common
  import opened EventLog
  import opened Archive
  import opened Sweep
  import Framing

  /** Sequence numbers that fit the wire's signed integers. */
  type Pos = s: nat | s <= MAX_INT64

  type Index = i: nat | i <= Framing.MAX_UINT32

  /** One sealed block: its segment, its index there, its sequence range and its rows. */
  datatype BlockInfo = BlockInfo(seg: Index, idx: Index, lo: Pos, hi: Pos, rows: seq<Event>)

  /**
   The manifest, all segments in order. `may` is the block-level filter, which may
   let through too much; `threshold` the density from which a segment is shipped
   whole; `cap` the number of work units of a page, zero for no limit.
   */
  datatype Manifest = Manifest(blocks: seq<BlockInfo>, may: BlockInfo -> bool, threshold: real, cap: nat)

  ghost predicate WellFormed(b: BlockInfo) {
    1 <= b.lo <= b.hi && Ascending(b.rows) && forall e :: e in b.rows ==> b.lo <= e.seqNo <= b.hi
  }

  /** Blocks follow one another in sequence, segment by segment, and the filter loses nothing. */
  ghost predicate IsManifest(m: Manifest, req: PlanRequest) {
    && (forall i :: 0 <= i < |m.blocks| ==> WellFormed(m.blocks[i]))
    && (forall i, j :: 0 <= i < j < |m.blocks| ==>
          m.blocks[i].hi < m.blocks[j].lo && m.blocks[i].seg <= m.blocks[j].seg)
    && (forall i, e :: 0 <= i < |m.blocks| && e in m.blocks[i].rows && Passes(req, e) ==> m.may(m.blocks[i]))
    && 0.0 < m.threshold
  }

  /** Segments are sealed whole. */
  ghost predicate SealPoint(m: Manifest, k: nat) {
    k <= |m.blocks| && (0 < k < |m.blocks| ==> m.blocks[k - 1].seg < m.blocks[k].seg)
  }

  // ---- one page ----

  /** The block has a row in the window, as far as its sequence range tells. */
  predicate Overlaps(b: BlockInfo, after: Seq, before: Option<Seq>) {
    b.rows != [] && after < b.hi && (before.Some? ==> b.lo <= before.value)
  }

  predicate Selected(m: Manifest, i: nat, after: Seq, before: Option<Seq>)
    requires i < |m.blocks|
  {
    Overlaps(m.blocks[i], after, before) && m.may(m.blocks[i])
  }

  function SelectedOf(m: Manifest, g: nat, after: Seq, before: Option<Seq>): set<nat> {
    set i: nat | i < |m.blocks| && m.blocks[i].seg == g && Selected(m, i, after, before)
  }

  function BlocksOf(m: Manifest, g: nat): set<nat> {
    set i: nat | i < |m.blocks| && m.blocks[i].seg == g
  }

  /** Dense enough to ship the whole segment. */
  predicate Dense(m: Manifest, g: nat, after: Seq, before: Option<Seq>) {
    && SelectedOf(m, g, after, before) != {}
    && |SelectedOf(m, g, after, before)| as real >= m.threshold * |BlocksOf(m, g)| as real
  }

  predicate Shipped(m: Manifest, i: nat, after: Seq, before: Option<Seq>)
    requires i < |m.blocks|
  {
    Selected(m, i, after, before) || Dense(m, m.blocks[i].seg, after, before)
  }

  /** A whole segment or a run of neighbouring blocks begins here. */
  predicate UnitStart(m: Manifest, i: nat, after: Seq, before: Option<Seq>)
    requires i < |m.blocks|
  {
    Shipped(m, i, after, before)
    && !(0 < i && m.blocks[i - 1].seg == m.blocks[i].seg && Shipped(m, i - 1, after, before))
  }

  /** The work units that begin before block k. */
  function Units(m: Manifest, k: nat, after: Seq, before: Option<Seq>): nat
    requires k <= |m.blocks|
  {
    if k == 0 then 0 else Units(m, k - 1, after, before) + if UnitStart(m, k - 1, after, before) then 1 else 0
  }

  /** Where the page stops: before the first unit past the cap. */
  function Stop(m: Manifest, i: nat, sealed: nat, after: Seq, before: Option<Seq>): (r: nat)
    requires i <= sealed <= |m.blocks|
    ensures i <= r <= sealed
    ensures r < sealed ==> UnitStart(m, r, after, before) && 0 < m.cap <= Units(m, r, after, before)
    ensures 0 < m.cap && Units(m, i, after, before) <= m.cap ==> Units(m, r, after, before) <= m.cap
    decreases sealed - i
  {
    if i == sealed then i
    else if UnitStart(m, i, after, before) && 0 < m.cap <= Units(m, i, after, before) then i
    else Stop(m, i + 1, sealed, after, before)
  }

  /** The last block shipped before block k. */
  function LastShipped(m: Manifest, k: nat, after: Seq, before: Option<Seq>): (j: nat)
    requires k <= |m.blocks| && Units(m, k, after, before) > 0
    ensures j < k && Shipped(m, j, after, before)
    ensures forall i :: j < i < k ==> !Shipped(m, i, after, before)
  {
    if Shipped(m, k - 1, after, before) then k - 1 else LastShipped(m, k - 1, after, before)
  }

  /** The sealed tip, capped by the upper bound. */
  function Tip(m: Manifest, sealed: nat, before: Option<Seq>): Pos
    requires sealed <= |m.blocks|
  {
    var hi: Pos := if sealed == 0 then 0 else m.blocks[sealed - 1].hi;
    if before.Some? && before.value < hi then before.value else hi
  }

  function Downloaded(b: BlockInfo): Block {
    Block(b.rows, None, _ => false)
  }

  function Shipment(m: Manifest, k: nat, after: Seq, before: Option<Seq>): seq<Block>
    requires k <= |m.blocks|
  {
    if k == 0 then []
    else if Shipped(m, k - 1, after, before) then Shipment(m, k - 1, after, before) + [Downloaded(m.blocks[k - 1])]
    else Shipment(m, k - 1, after, before)
  }

  /** The wire entries: the shipped blocks under their segments. */
  function Entries(m: Manifest, k: nat, after: Seq, before: Option<Seq>): seq<Framing.SegmentOut>
    requires k <= |m.blocks|
  {
    if k == 0 then []
    else
      var rest, b := Entries(m, k - 1, after, before), m.blocks[k - 1];
      if Shipped(m, k - 1, after, before)
      then rest + [Framing.SegmentOut("seg", b.seg, "", b.lo, b.hi, "blocks", [Framing.BlockOut(b.idx, b.idx)])]
      else rest
  }

  function PlanSnapshot(m: Manifest, sealed: nat, after: Seq, before: Option<Seq>): PlanReply
    requires sealed <= |m.blocks|
  {
    if 0 < after && before.Some? && before.value <= after then Unavailable
    else
      var tip, stop := Tip(m, sealed, before), Stop(m, 0, sealed, after, before);
      var through := if stop < sealed then m.blocks[LastShipped(m, stop, after, before)].hi else tip;
      Reply(PlanOutput(through, tip, Entries(m, stop, after, before), Shipment(m, stop, after, before), None))
  }

  /** Everything in the archive, in order. */
  function Log(blocks: seq<BlockInfo>): seq<Event> {
    if blocks == [] then [] else Log(blocks[..|blocks| - 1]) + blocks[|blocks| - 1].rows
  }

  /** The planner as the engine's server; `sealed` is how far the archive is sealed at each call. */
  function Server(m: Manifest, sealed: nat -> nat): PlanServer {
    (n: nat, after: Seq, before: Option<Seq>) => PlanSnapshot(m, Sealed(m, sealed, n), after, before)
  }

  function Sealed(m: Manifest, sealed: nat -> nat, n: nat): (k: nat)
    ensures k <= |m.blocks|
  {
    if sealed(n) <= |m.blocks| then sealed(n) else |m.blocks|
  }

  /** Only whole segments are sealed, and the archive only grows. */
  ghost predicate Growing(m: Manifest, sealed: nat -> nat) {
    && (forall n: nat :: SealPoint(m, Sealed(m, sealed, n)))
    && (forall m0: nat, n: nat :: m0 <= n ==> Sealed(m, sealed, m0) <= Sealed(m, sealed, n))
  }

  // ---- what is shipped ----

  lemma {:induction false} LogMembers(blocks: seq<BlockInfo>, e: Event)
    ensures e in Log(blocks) <==> exists i :: 0 <= i < |blocks| && e in blocks[i].rows
  {
    if blocks != [] {
      var init := blocks[..|blocks| - 1];
      LogMembers(init, e);
      assert forall i :: 0 <= i < |init| ==> init[i] == blocks[i];
      assert e in Log(blocks) <==> e in Log(init) || e in blocks[|blocks| - 1].rows;
    }
  }

  lemma {:induction false} LogIsLog(m: Manifest, req: PlanRequest, k: nat)
    requires IsManifest(m, req) && k <= |m.blocks|
    ensures IsLog(Log(m.blocks[..k]))
    ensures k > 0 ==> forall e :: e in Log(m.blocks[..k]) ==> e.seqNo <= m.blocks[k - 1].hi
  {
    if k > 0 {
      var init, last := m.blocks[..k - 1], m.blocks[k - 1];
      assert m.blocks[..k][..k - 1] == init;
      LogIsLog(m, req, k - 1);
      assert WellFormed(last);
      forall e | e in Log(init) ensures e.seqNo < last.lo {
        assert k - 1 > 0 && m.blocks[k - 2].hi < last.lo;
      }
    }
  }

  lemma {:induction false} ShipmentMembers(m: Manifest, k: nat, after: Seq, before: Option<Seq>, e: Event)
    requires k <= |m.blocks|
    ensures e in Rows(Shipment(m, k, after, before)) <==>
            exists i :: 0 <= i < k && Shipped(m, i, after, before) && e in m.blocks[i].rows
  {
    hide Shipped;
    if k > 0 {
      ShipmentMembers(m, k - 1, after, before, e);
      RowsSnoc(Shipment(m, k - 1, after, before), Downloaded(m.blocks[k - 1]));
    }
  }

  lemma RowsSnoc(blocks: seq<Block>, b: Block)
    ensures Rows(blocks + [b]) == Rows(blocks) + b.rows
  {
    assert (blocks + [b])[..|blocks|] == blocks;
  }

  lemma {:induction false} ShipmentAscends(m: Manifest, req: PlanRequest, k: nat, after: Seq, before: Option<Seq>)
    requires IsManifest(m, req) && k <= |m.blocks|
    ensures Ascending(Rows(Shipment(m, k, after, before)))
  {
    hide Shipped;
    if k > 0 {
      var init, last := Shipment(m, k - 1, after, before), m.blocks[k - 1];
      ShipmentAscends(m, req, k - 1, after, before);
      RowsSnoc(init, Downloaded(last));
      assert WellFormed(last);
      forall e | e in Rows(init) ensures e.seqNo < last.lo {
        ShipmentMembers(m, k - 1, after, before, e);
        var i :| 0 <= i < k - 1 && Shipped(m, i, after, before) && e in m.blocks[i].rows;
        assert WellFormed(m.blocks[i]);
      }
    }
  }

  /** A shipped block's segment holds a selected block. */
  lemma ShippedFor(m: Manifest, i: nat, after: Seq, before: Option<Seq>) returns (x: nat)
    requires i < |m.blocks| && Shipped(m, i, after, before)
    ensures x < |m.blocks| && m.blocks[x].seg == m.blocks[i].seg && Selected(m, x, after, before)
    ensures Dense(m, m.blocks[i].seg, after, before) || x == i
  {
    if Selected(m, i, after, before) {
      x := i;
    } else {
      x :| x in SelectedOf(m, m.blocks[i].seg, after, before);
    }
  }

  // ---- where units end ----

  lemma Later(m: Manifest, req: PlanRequest, j: nat, i: nat)
    requires IsManifest(m, req) && i < |m.blocks| && j < |m.blocks| && m.blocks[j].hi < m.blocks[i].hi
    ensures j < i && m.blocks[j].hi < m.blocks[i].lo && m.blocks[j].seg <= m.blocks[i].seg
  {
    assert WellFormed(m.blocks[j]);
  }

  lemma SameSegment(m: Manifest, req: PlanRequest, i: nat, k: nat, j: nat)
    requires IsManifest(m, req) && i <= k <= j < |m.blocks| && m.blocks[i].seg == m.blocks[j].seg
    ensures m.blocks[k].seg == m.blocks[i].seg
  {
    assert i < k ==> m.blocks[i].seg <= m.blocks[k].seg;
    assert k < j ==> m.blocks[k].seg <= m.blocks[j].seg;
  }

  /** No unit begins inside a segment that is shipped whole. */
  lemma StartSplits(m: Manifest, req: PlanRequest, j: nat, stop: nat, after: Seq, before: Option<Seq>)
    requires IsManifest(m, req) && j < stop < |m.blocks| && UnitStart(m, stop, after, before)
    requires Dense(m, m.blocks[stop].seg, after, before) || Dense(m, m.blocks[j].seg, after, before)
    ensures m.blocks[j].seg < m.blocks[stop].seg
  {
    hide Dense, Selected;
    assert j < stop - 1 ==> m.blocks[j].seg <= m.blocks[stop - 1].seg;
  }

  /** A truncated page ends past its start and before the tip. */
  lemma TruncatedPage(m: Manifest, req: PlanRequest, sealed: nat, after: Seq, before: Option<Seq>)
    requires IsManifest(m, req) && sealed <= |m.blocks| && Stop(m, 0, sealed, after, before) < sealed
    ensures var through := m.blocks[LastShipped(m, Stop(m, 0, sealed, after, before), after, before)].hi;
            after < through < Tip(m, sealed, before)
  {
    hide Dense, Units, IsManifest;
    var stop := Stop(m, 0, sealed, after, before);
    var j := LastShipped(m, stop, after, before);
    var x := ShippedFor(m, j, after, before);
    var y := ShippedFor(m, stop, after, before);
    ShippedLater(m, req, j, stop, x, y, after, before);
    Ordered(m, req, stop, sealed - 1);
    Ordered(m, req, j, stop);
  }

  lemma Ordered(m: Manifest, req: PlanRequest, i: nat, j: nat)
    requires IsManifest(m, req) && i <= j < |m.blocks|
    ensures m.blocks[i].hi <= m.blocks[j].hi && m.blocks[i].lo <= m.blocks[i].hi
    ensures i < j ==> m.blocks[i].hi < m.blocks[j].lo
  {
    assert WellFormed(m.blocks[i]) && WellFormed(m.blocks[j]);
  }

  /** The tip is the highest sealed number, or the upper bound when that comes first. */
  lemma TipIsHighest(m: Manifest, req: PlanRequest, sealed: nat, before: Option<Seq>)
    requires IsManifest(m, req) && sealed <= |m.blocks|
    ensures var tip := Tip(m, sealed, before);
            && (forall i :: 0 <= i < sealed && (before.Some? ==> m.blocks[i].hi <= before.value) ==>
                  m.blocks[i].hi <= tip)
            && (before.Some? ==> tip <= before.value)
            && (tip == 0 || before == Some(tip) || exists i :: 0 <= i < sealed && m.blocks[i].hi == tip)
  {
    hide IsManifest;
    forall i | 0 <= i < sealed ensures m.blocks[i].hi <= m.blocks[sealed - 1].hi {
      Ordered(m, req, i, sealed - 1);
    }
    assert sealed > 0 ==> m.blocks[sealed - 1].hi <= m.blocks[sealed - 1].hi;
  }

  /**
   A page ships a row only with a block that the filter and the window select, or with
   a segment whose selected blocks reach the density threshold.
   */
  lemma Frugal(m: Manifest, k: nat, after: Seq, before: Option<Seq>, e: Event) returns (i: nat, x: nat)
    requires k <= |m.blocks| && e in Rows(Shipment(m, k, after, before))
    ensures i < k && e in m.blocks[i].rows && x < |m.blocks| && m.blocks[x].seg == m.blocks[i].seg
    ensures m.may(m.blocks[x]) && m.blocks[x].rows != [] && after < m.blocks[x].hi
    ensures before.Some? ==> m.blocks[x].lo <= before.value
    ensures x == i || (|SelectedOf(m, m.blocks[i].seg, after, before)| as real
                       >= m.threshold * |BlocksOf(m, m.blocks[i].seg)| as real)
  {
    hide SelectedOf, BlocksOf;
    ShipmentMembers(m, k, after, before, e);
    i :| 0 <= i < k && Shipped(m, i, after, before) && e in m.blocks[i].rows;
    x := ShippedFor(m, i, after, before);
  }

  /** A segment shipped whole does not go on past the page. */
  lemma DenseEnds(m: Manifest, req: PlanRequest, stop: nat, j: nat, x: nat, after: Seq, before: Option<Seq>)
    requires IsManifest(m, req) && j < stop < |m.blocks| && x < |m.blocks| && m.blocks[x].seg == m.blocks[j].seg
    requires UnitStart(m, stop, after, before) && Dense(m, m.blocks[j].seg, after, before)
    requires forall i :: j < i < stop ==> !Shipped(m, i, after, before)
    ensures x <= j
  {
    hide Dense, Selected;
    assert Shipped(m, x, after, before);
    StartSplits(m, req, j, stop, after, before);
  }

  /** What a page ends with lies between the blocks that made it ship this unit and the next one. */
  lemma ShippedLater(m: Manifest, req: PlanRequest, j: nat, stop: nat, x: nat, y: nat, after: Seq, before: Option<Seq>)
    requires IsManifest(m, req) && j < stop < |m.blocks| && UnitStart(m, stop, after, before)
    requires x < |m.blocks| && m.blocks[x].seg == m.blocks[j].seg
    requires Dense(m, m.blocks[j].seg, after, before) || x == j
    requires y < |m.blocks| && m.blocks[y].seg == m.blocks[stop].seg
    requires Dense(m, m.blocks[stop].seg, after, before) || y == stop
    requires forall i :: j < i < stop ==> !Shipped(m, i, after, before)
    ensures m.blocks[x].hi <= m.blocks[j].hi < m.blocks[y].lo
  {
    hide Dense, Selected;
    if x != j { DenseEnds(m, req, stop, j, x, after, before); }
    if y <= j { StartSplits(m, req, j, stop, after, before); }
    Ordered(m, req, x, j);
    Ordered(m, req, j, y);
  }

  /** No segment reaches across an upper bound the sweep pins itself to. */
  ghost predicate Pin(m: Manifest, req: PlanRequest, s: Seq) {
    && (req.hasBeforeSeq ==> s <= req.beforeSeq)
    && forall i, k | 0 <= i < |m.blocks| && 0 <= k < |m.blocks| && m.blocks[i].seg == m.blocks[k].seg ::
         m.blocks[i].lo <= s ==> m.blocks[k].hi <= s
  }

  ghost predicate Bound(m: Manifest, req: PlanRequest, before: Option<Seq>) {
    before == Opening(req) || (before.Some? && Pin(m, req, before.value))
  }

  /** Asked for from here, under any such bound, nothing at or below it is shipped. */
  ghost predicate Cut(m: Manifest, req: PlanRequest, s: Seq) {
    forall before: Option<Seq>, i: nat :: i < |m.blocks| && Bound(m, req, before) && Shipped(m, i, s, before) ==>
      s < m.blocks[i].lo
  }

  ghost function GridOf(m: Manifest, req: PlanRequest): Grid {
    Grid((s: Seq) => Cut(m, req, s), (s: Seq) => Pin(m, req, s))
  }

  /** Moving the cursor up inside a segment only makes its selection smaller, under every bound. */
  lemma SelectionShrinks(m: Manifest, req: PlanRequest, j: nat, after: Seq, before: Option<Seq>, s: Seq,
                         before': Option<Seq>)
    requires IsManifest(m, req) && Bound(m, req, before) && Bound(m, req, before') && after <= s
    requires j < |m.blocks| && Selected(m, j, after, before)
    ensures SelectedOf(m, m.blocks[j].seg, s, before') <= SelectedOf(m, m.blocks[j].seg, after, before)
  {
    var g := m.blocks[j].seg;
    forall x | x in SelectedOf(m, g, s, before') ensures x in SelectedOf(m, g, after, before) {
      assert WellFormed(m.blocks[x]);
      if before.Some? && before != Opening(req) {
        assert m.blocks[x].hi <= before.value;
      }
    }
  }

  lemma DenserStays(m: Manifest, g: nat, after: Seq, before: Option<Seq>, s: Seq, before': Option<Seq>)
    requires SelectedOf(m, g, s, before') <= SelectedOf(m, g, after, before) && Dense(m, g, s, before')
    ensures Dense(m, g, after, before)
  {
    var a, b := SelectedOf(m, g, s, before'), SelectedOf(m, g, after, before);
    Subset(a, b);
    assert |a| as real <= |b| as real;
  }

  lemma Subset(a: set<nat>, b: set<nat>)
    requires a <= b
    ensures |a| <= |b| && (a != {} ==> b != {})
  {
    assert b == a + (b - a);
  }

  /** A page's end is a cut: the next page holds nothing of the units before it. */
  lemma ThroughIsCut(m: Manifest, req: PlanRequest, stop: nat, j: nat, after: Seq, before: Option<Seq>)
    requires IsManifest(m, req) && Bound(m, req, before) && j < stop < |m.blocks| && after <= m.blocks[j].hi
    requires UnitStart(m, stop, after, before) && Shipped(m, j, after, before)
    requires forall i :: j < i < stop ==> !Shipped(m, i, after, before)
    ensures Cut(m, req, m.blocks[j].hi)
  {
    hide Dense, SelectedOf, Pin;
    var s, g := m.blocks[j].hi, m.blocks[j].seg;
    forall before': Option<Seq>, i: nat | i < |m.blocks| && Bound(m, req, before') && Shipped(m, i, s, before')
      ensures s < m.blocks[i].lo
    {
      var x := ShippedFor(m, i, s, before');
      Later(m, req, j, x);
      if i <= j {
        SameSegment(m, req, i, j, x);
        if !Dense(m, g, after, before) {
          SelectionShrinks(m, req, j, after, before, s, before');
          DenserStays(m, g, after, before, s, before');
        }
        DenseEnds(m, req, stop, j, x, after, before);
      } else {
        Ordered(m, req, j, i);
      }
    }
  }

  /** The sealed end of the archive is a cut, and a pin unless the caller's bound comes first. */
  lemma SealIsGrid(m: Manifest, req: PlanRequest, k: nat)
    requires IsManifest(m, req) && SealPoint(m, k)
    ensures Cut(m, req, Tip(m, k, None))
    ensures (req.hasBeforeSeq ==> Tip(m, k, None) <= req.beforeSeq) ==> Pin(m, req, Tip(m, k, None))
  {
    hide Dense, SelectedOf;
    var s := Tip(m, k, None);
    forall before: Option<Seq>, i: nat | i < |m.blocks| && Bound(m, req, before) && Shipped(m, i, s, before)
      ensures s < m.blocks[i].lo
    {
      assert WellFormed(m.blocks[i]);
      var x := ShippedFor(m, i, s, before);
      PastSeal(m, req, k, i, x);
    }
    forall i, k' | 0 <= i < |m.blocks| && 0 <= k' < |m.blocks|
                   && m.blocks[i].seg == m.blocks[k'].seg && m.blocks[i].lo <= s
      ensures m.blocks[k'].hi <= s
    {
      assert WellFormed(m.blocks[i]);
      if m.blocks[k'].hi > s { PastSeal(m, req, k, i, k'); }
    }
  }

  lemma PastSeal(m: Manifest, req: PlanRequest, k: nat, i: nat, x: nat)
    requires IsManifest(m, req) && SealPoint(m, k) && i < |m.blocks| && x < |m.blocks|
    requires m.blocks[i].seg == m.blocks[x].seg && Tip(m, k, None) < m.blocks[x].hi
    ensures Tip(m, k, None) < m.blocks[i].lo
  {
    assert WellFormed(m.blocks[i]);
    if k > 0 {
      Later(m, req, k - 1, x);
      Ordered(m, req, k - 1, i);
    }
  }

  // ---- what the engine asks of a server ----

  lemma {:induction false} EntriesAcceptable(m: Manifest, req: PlanRequest, k: nat, after: Seq, before: Option<Seq>,
                                             i: nat)
    requires IsManifest(m, req) && k <= |m.blocks| && i < |Entries(m, k, after, before)|
    ensures Framing.Acceptable(Entries(m, k, after, before)[i])
  {
    hide Shipped;
    assert k > 0 ==> WellFormed(m.blocks[k - 1]);
    if k > 0 && i < |Entries(m, k - 1, after, before)| { EntriesAcceptable(m, req, k - 1, after, before, i); }
  }

  /** The answer to one call, taken apart: every call in range gets the page and the tip the planner computed. */
  lemma Answered(m: Manifest, req: PlanRequest, sealed: nat -> nat, n: nat, after: Seq, before: Option<Seq>)
    requires IsManifest(m, req)
    ensures var k := Sealed(m, sealed, n);
            var page := Answer(Server(m, sealed), n, after, before);
            var stop := Stop(m, 0, k, after, before);
            && (page.Some? <==> after <= MAX_INT64 && (before.Some? ==> before.value <= MAX_INT64)
                                && !(0 < after && before.Some? && before.value <= after))
            && (page.Some? ==>
                  && page.value.after == after && page.value.before == before
                  && page.value.plan.tip == Tip(m, k, before) && page.value.plan.cancelAfter.None?
                  && page.value.plan.blocks == Shipment(m, stop, after, before)
                  && (stop == k ==> page.value.plan.through == page.value.plan.tip)
                  && (stop < k ==> page.value.plan.through == m.blocks[LastShipped(m, stop, after, before)].hi
                                   && after < page.value.plan.through < page.value.plan.tip))
  {
    hide Stop, LastShipped, Shipment, Units, UnitStart, Framing.Acceptable, IsManifest;
    var k := Sealed(m, sealed, n);
    var stop := Stop(m, 0, k, after, before);
    if stop < k { TruncatedPage(m, req, k, after, before); }
    forall i | 0 <= i < |Entries(m, stop, after, before)|
      ensures Framing.Acceptable(Entries(m, stop, after, before)[i])
    {
      EntriesAcceptable(m, req, stop, after, before, i);
    }
  }

  /** A block whose matching event lies in the page's range was shipped. */
  lemma NothingLost(m: Manifest, req: PlanRequest, k: nat, after: Seq, before: Option<Seq>, e: Event, through: nat)
    requires IsManifest(m, req) && k <= |m.blocks| && Within(e, Log(m.blocks), req, after, through)
    requires through <= Tip(m, k, before)
    requires var stop := Stop(m, 0, k, after, before);
             stop < k ==> through == m.blocks[LastShipped(m, stop, after, before)].hi
    ensures e in Rows(Shipment(m, Stop(m, 0, k, after, before), after, before))
  {
    hide Stop, LastShipped, Shipment, Units, UnitStart, Dense;
    var stop := Stop(m, 0, k, after, before);
    LogMembers(m.blocks, e);
    var i :| 0 <= i < |m.blocks| && e in m.blocks[i].rows;
    assert WellFormed(m.blocks[i]);
    assert Selected(m, i, after, before);
    ShipmentMembers(m, stop, after, before, e);
  }

  /** The planner's one-sided contract: no false negatives, for every call. */
  lemma PlannerIsHonest(m: Manifest, req: PlanRequest, sealed: nat -> nat)
    requires IsManifest(m, req)
    ensures HonestServer(Server(m, sealed), Log(m.blocks), req)
  {
    hide Stop, LastShipped, Shipment, Units, UnitStart, Shipped, Answer, Within;
    var log := Log(m.blocks);
    forall n: nat, after: Seq, before: Option<Seq> | Answer(Server(m, sealed), n, after, before).Some?
      ensures Honest(Answer(Server(m, sealed), n, after, before).value, log, req)
    {
      var page := Answer(Server(m, sealed), n, after, before).value;
      var k := Sealed(m, sealed, n);
      Answered(m, req, sealed, n, after, before);
      forall e | e in Rows(page.plan.blocks) ensures e in log {
        ShipmentMembers(m, Stop(m, 0, k, after, before), after, before, e);
        LogMembers(m.blocks, e);
      }
      forall e | Within(e, log, req, after, page.plan.through) ensures e in Rows(page.plan.blocks) {
        NothingLost(m, req, k, after, before, e, page.plan.through);
      }
    }
  }

  /** The rows of a page lie between its start, if that is a cut, and its end. */
  lemma RowsInside(m: Manifest, req: PlanRequest, k: nat, after: Seq, before: Option<Seq>, e: Event, through: nat)
    requires IsManifest(m, req) && k <= |m.blocks| && Bound(m, req, before)
    requires e in Rows(Shipment(m, Stop(m, 0, k, after, before), after, before))
    requires var stop := Stop(m, 0, k, after, before);
             through == if stop < k then m.blocks[LastShipped(m, stop, after, before)].hi as int else Tip(m, k, before)
    ensures Cut(m, req, after) ==> after < e.seqNo
    ensures e.seqNo <= through || (req.hasBeforeSeq && req.beforeSeq < e.seqNo)
  {
    hide Stop, LastShipped, Shipment, Units, UnitStart, Dense;
    var stop := Stop(m, 0, k, after, before);
    ShipmentMembers(m, stop, after, before, e);
    var i :| 0 <= i < stop && Shipped(m, i, after, before) && e in m.blocks[i].rows;
    assert WellFormed(m.blocks[i]);
    if stop < k {
      Ordered(m, req, i, LastShipped(m, stop, after, before));
    } else {
      Ordered(m, req, i, k - 1);
      var x := ShippedFor(m, i, after, before);
    }
  }

  /** Its pages keep to the grid of its segments and blocks. */
  lemma PlannerIsTidy(m: Manifest, req: PlanRequest, sealed: nat -> nat)
    requires IsManifest(m, req) && Growing(m, sealed)
    ensures TidyServer(Server(m, sealed), req, GridOf(m, req))
  {
    hide Stop, LastShipped, Shipment, Units, UnitStart, Shipped, Answer, Cut, Pin, IsManifest;
    var grid := GridOf(m, req);
    forall n: nat, after: Seq, before: Option<Seq>
      | Pinnable(before, req, grid) && Answer(Server(m, sealed), n, after, before).Some?
      ensures OnBoundaries(Answer(Server(m, sealed), n, after, before).value, req, grid)
    {
      var page := Answer(Server(m, sealed), n, after, before).value;
      var k := Sealed(m, sealed, n);
      Answered(m, req, sealed, n, after, before);
      ShipmentAscends(m, req, Stop(m, 0, k, after, before), after, before);
      PageEnds(m, req, k, after, before);
      forall e | e in Rows(page.plan.blocks)
        ensures (Cut(m, req, after) ==> after < e.seqNo)
             && (e.seqNo <= page.plan.through || (req.hasBeforeSeq && req.beforeSeq < e.seqNo))
      {
        RowsInside(m, req, k, after, before, e, page.plan.through);
      }
    }
  }

  lemma PageEnds(m: Manifest, req: PlanRequest, k: nat, after: Seq, before: Option<Seq>)
    requires IsManifest(m, req) && SealPoint(m, k) && Bound(m, req, before)
    ensures var tip := Tip(m, k, before); Pin(m, req, tip) || before == Some(tip)
    ensures var stop := Stop(m, 0, k, after, before);
            if stop < k then Cut(m, req, m.blocks[LastShipped(m, stop, after, before)].hi)
            else Cut(m, req, Tip(m, k, before)) || before == Some(Tip(m, k, before))
  {
    hide Cut, Pin, Shipped, Dense;
    SealIsGrid(m, req, k);
    PinBelow(m, req, before);
    var stop := Stop(m, 0, k, after, before);
    if stop < k {
      TruncatedPage(m, req, k, after, before);
      ThroughIsCut(m, req, stop, LastShipped(m, stop, after, before), after, before);
    }
  }

  lemma PinBelow(m: Manifest, req: PlanRequest, before: Option<Seq>)
    requires Bound(m, req, before)
    ensures req.hasBeforeSeq ==> before.Some? && before.value <= req.beforeSeq
  {
  }

  /** And it never leaves a sweep without an answer that takes it on. */
  lemma PlannerIsSteady(m: Manifest, req: PlanRequest, sealed: nat -> nat)
    requires IsManifest(m, req) && Growing(m, sealed)
    ensures Steady(Server(m, sealed), req)
  {
    hide Stop, LastShipped, Shipment, Units, UnitStart, Answer, IsManifest;
    var server := Server(m, sealed);
    forall n: nat, after: Seq | Askable(req, after)
      ensures Usable(Answer(server, n, after, Opening(req)), after, None)
    {
      Answered(m, req, sealed, n, after, Opening(req));
    }
    forall m0: nat, start: Seq, tip: Seq, n: nat, after: Seq
      | m0 < n && start < after < tip && LearntTip(server, req, m0, start, tip)
      ensures Usable(Answer(server, n, after, Some(tip)), after, Some(tip))
    {
      Answered(m, req, sealed, m0, start, Opening(req));
      Answered(m, req, sealed, n, after, Some(tip));
      TipGrows(m, req, sealed, m0, n);
    }
  }

  lemma TipGrows(m: Manifest, req: PlanRequest, sealed: nat -> nat, m0: nat, n: nat)
    requires IsManifest(m, req) && Growing(m, sealed) && m0 <= n
    ensures Tip(m, Sealed(m, sealed, m0), None) <= Tip(m, Sealed(m, sealed, n), None)
  {
    var a, b := Sealed(m, sealed, m0), Sealed(m, sealed, n);
    if 0 < a { Ordered(m, req, a - 1, b - 1); }
  }
}
