/**
 The concurrent download (Framing, then Pipeline) refines the sequential one that the
 engine is proved with (Archive.Download): frame after frame, decoded and emitted
 under any schedule, gives the items of the page in plan order.
 */
module DownloadRefinement {
  import opened EventLog
  import opened Delivery
  import Archive
  import Framing
  import Pipeline

  /** The decode workers' results for the framer's jobs, in plan order. */
  function Decoded(jobs: seq<Framing.Job>, decode: Framing.Job -> Archive.Block): (blocks: seq<Archive.Block>)
    ensures |blocks| == |jobs| && forall i :: 0 <= i < |jobs| ==> blocks[i] == decode(jobs[i])
  {
    seq(|jobs|, i requires 0 <= i < |jobs| => decode(jobs[i]))
  }

  /** A decoded frame is emitted unless all its rows were filtered out and nothing failed. */
  ghost predicate EmitsWhatItHolds(p: Pipeline.Plan, blocks: seq<Archive.Block>, req: PlanRequest, floor: Seq) {
    && |p.emits| == |blocks|
    && forall i :: 0 <= i < |blocks| ==> (p.emits[i] <==> Archive.BlockItems(blocks[i], req, floor) != [])
  }

  /** What the emitted frames hold, in the order they were emitted. */
  function ItemsOf(emitted: seq<nat>, blocks: seq<Archive.Block>, req: PlanRequest, floor: Seq): seq<Item>
    requires forall i :: 0 <= i < |emitted| ==> emitted[i] < |blocks|
  {
    if emitted == [] then []
    else ItemsOf(emitted[..|emitted| - 1], blocks, req, floor)
         + Archive.BlockItems(blocks[emitted[|emitted| - 1]], req, floor)
  }

  /** Emitting the frames that hold something, in order, delivers the page up to there. */
  lemma {:induction false} EmittingDelivers(p: Pipeline.Plan, blocks: seq<Archive.Block>, req: PlanRequest, floor: Seq,
                                            n: nat)
    requires EmitsWhatItHolds(p, blocks, req, floor) && n <= |blocks|
    ensures forall i :: 0 <= i < |Pipeline.Emitting(p, n)| ==> Pipeline.Emitting(p, n)[i] < |blocks|
    ensures ItemsOf(Pipeline.Emitting(p, n), blocks, req, floor) == Archive.PageItems(blocks[..n], req, floor)
  {
    NoItems(blocks, req, floor);
    hide Archive.BlockItems, Archive.PageItems, ItemsOf;
    if n > 0 {
      EmittingDelivers(p, blocks, req, floor, n - 1);
      Archive.PageItemsStep(blocks, n - 1, req, floor);
      if p.emits[n - 1] {
        ItemsSnoc(Pipeline.Emitting(p, n - 1), n - 1, blocks, req, floor);
      } else {
        NothingHeld(Pipeline.Emitting(p, n - 1), Archive.PageItems(blocks[..n - 1], req, floor));
        assert Archive.BlockItems(blocks[n - 1], req, floor) == [];
      }
    }
  }

  lemma NoItems(blocks: seq<Archive.Block>, req: PlanRequest, floor: Seq)
    ensures ItemsOf([], blocks, req, floor) == [] == Archive.PageItems(blocks[..0], req, floor)
  {
  }

  lemma NothingHeld(emitted: seq<nat>, items: seq<Item>)
    ensures emitted + [] == emitted && items + [] == items
  {
  }

  lemma ItemsSnoc(emitted: seq<nat>, k: nat, blocks: seq<Archive.Block>, req: PlanRequest, floor: Seq)
    requires k < |blocks| && forall i :: 0 <= i < |emitted| ==> emitted[i] < |blocks|
    ensures ItemsOf(emitted + [k], blocks, req, floor)
         == ItemsOf(emitted, blocks, req, floor) + Archive.BlockItems(blocks[k], req, floor)
  {
    hide Archive.BlockItems;
    assert (emitted + [k])[..|emitted|] == emitted;
  }

  /**
   For every plan, decoder and schedule: the items emitted are a prefix of the page's
   items, and all of them when the download finishes without being cancelled.
   */
  lemma PipelineRefinesPage(entries: seq<Framing.Source>, decode: Framing.Job -> Archive.Block, req: PlanRequest,
                            floor: Seq, p: Pipeline.Plan, steps: seq<Pipeline.Step>)
    requires Pipeline.ValidPlan(p) && Pipeline.Runs(p, steps)
    requires EmitsWhatItHolds(p, Decoded(Framing.Framed(entries), decode), req, floor)
    ensures var blocks := Decoded(Framing.Framed(entries), decode);
            var s := Pipeline.Final(p, steps);
            && (forall i :: 0 <= i < |s.emitted| ==> s.emitted[i] < |blocks|)
            && ItemsOf(s.emitted, blocks, req, floor) <= Archive.PageItems(blocks, req, floor)
            && (s.finished && !s.cancelled ==>
                  ItemsOf(s.emitted, blocks, req, floor) == Archive.PageItems(blocks, req, floor))
  {
    hide Pipeline.Runs, Pipeline.Final, Archive.PageItems, ItemsOf, Framing.Framed;
    var blocks, s := Decoded(Framing.Framed(entries), decode), Pipeline.Final(p, steps);
    Pipeline.RunInv(p, steps);
    EmittingDelivers(p, blocks, req, floor, s.next);
    Archive.PageItemsPrefix(blocks, s.next, req, floor);
    if s.finished && !s.cancelled {
      Pipeline.AllReleased(p, s);
      assert blocks[..|blocks|] == blocks;
    }
  }
}
