/**
 From plan entries to block frames: the planner's checks on one segment of a plan
 (jetstream/planner.go:178-223), the block-fetch coordinator and the framer that
 consumes its futures in order (jetstream/downloader.go:253-509).
 */
module Framing {
  import opened Common

  const MAX_UINT32: nat := 0xFFFF_FFFF
  const TWO_32: nat := 0x1_0000_0000
  const TWO_64: nat := 0x1_0000_0000_0000_0000

  type Bytes = seq<nat>

  // ---- one segment of a plan reply ----

  datatype BlockOut = BlockOut(first: Int64, last: Int64)

  datatype SegmentOut = SegmentOut(
    name: string, index: Int64, checksum: string, minSeq: Int64, maxSeq: Int64, mode: string, blocks: seq<BlockOut>)

  datatype BlockRange = BlockRange(first: nat, last: nat)

  datatype Work = WholeSegment | Blocks(ranges: seq<BlockRange>)

  datatype PlanEntry = PlanEntry(
    name: string, index: nat, checksum: string, minSeq: nat, maxSeq: nat, work: Work)

  predicate RangeFits(b: BlockOut) {
    0 <= b.first <= b.last <= MAX_UINT32
  }

  /** What a segment must look like to be downloaded. */
  predicate Acceptable(seg: SegmentOut) {
    && seg.name != ""
    && 0 <= seg.index <= MAX_UINT32 && 0 <= seg.minSeq <= seg.maxSeq
    && (seg.mode == "segment"
        || (seg.mode == "blocks" && seg.blocks != [] && forall b :: b in seg.blocks ==> RangeFits(b)))
  }

  /** The narrowed entry names the same segment and the same blocks as the wire reply. */
  ghost predicate Represents(entry: PlanEntry, seg: SegmentOut) {
    && entry.name == seg.name && entry.index == seg.index && entry.checksum == seg.checksum
    && entry.minSeq == seg.minSeq && entry.maxSeq == seg.maxSeq
    && (entry.work.WholeSegment? <==> seg.mode == "segment")
    && (entry.work.Blocks? ==> SameRanges(entry.work.ranges, seg.blocks))
  }

  ghost predicate SameRanges(ranges: seq<BlockRange>, blocks: seq<BlockOut>) {
    && |ranges| == |blocks|
    && forall i :: 0 <= i < |ranges| ==>
         ranges[i].first == blocks[i].first <= ranges[i].last == blocks[i].last <= MAX_UINT32
  }

  /** A conversion to an unsigned 32-bit integer, as the source's narrowing does it. */
  function Uint32(x: int): nat {
    x % TWO_32
  }

  method PlanEntryFromSegment(seg: SegmentOut) returns (r: Option<PlanEntry>)
    ensures r.Some? <==> Acceptable(seg)
    ensures r.Some? ==> Represents(r.value, seg)
  {
    if seg.name == "" { return None; }
    if seg.index < 0 || seg.minSeq < 0 || seg.maxSeq < 0 { return None; }
    if seg.maxSeq < seg.minSeq || seg.index > MAX_UINT32 { return None; }
    var work := WholeSegment;
    if seg.mode == "blocks" {
      var ranges: seq<BlockRange> := [];
      for i := 0 to |seg.blocks|
        invariant SameRanges(ranges, seg.blocks[..i])
        invariant forall b :: b in seg.blocks[..i] ==> RangeFits(b)
      {
        var br := seg.blocks[i];
        if br.first < 0 || br.last < 0 || br.last < br.first || br.last > MAX_UINT32 {
          assert br in seg.blocks && !RangeFits(br);
          return None;
        }
        ranges := ranges + [BlockRange(Uint32(br.first), Uint32(br.last))];
      }
      assert seg.blocks[..|seg.blocks|] == seg.blocks;
      if |ranges| == 0 { return None; }
      work := Blocks(ranges);
    } else if seg.mode != "segment" {
      return None;
    }
    r := Some(PlanEntry(seg.name, Uint32(seg.index), seg.checksum, seg.minSeq, seg.maxSeq, work));
  }

  // ---- the blocks an entry lists ----

  type Ranges = rs: seq<BlockRange> | forall i :: 0 <= i < |rs| ==> rs[i].first <= rs[i].last <= MAX_UINT32

  /** Every block index of the ranges, range by range. */
  function BlockList(ranges: seq<BlockRange>): seq<nat> {
    if ranges == [] then []
    else BlockList(ranges[..|ranges| - 1]) + Span(ranges[|ranges| - 1].first, ranges[|ranges| - 1].last + 1)
  }

  function Span(lo: nat, hi: nat): (r: seq<nat>)
    ensures |r| == (if lo <= hi then hi - lo else 0)
    ensures forall i :: 0 <= i < |r| ==> r[i] == lo + i
  {
    if lo >= hi then [] else seq(hi - lo, i requires 0 <= i => lo + i)
  }

  ghost predicate Increasing(s: seq<nat>) {
    forall i, j :: 0 <= i < j < |s| ==> s[i] < s[j]
  }

  /** Ranges that follow one another without touching an earlier one. */
  ghost predicate Disjoint(ranges: seq<BlockRange>) {
    forall i, j :: 0 <= i < j < |ranges| ==> ranges[i].last < ranges[j].first
  }

  /** Exactly the listed blocks. */
  lemma {:induction false} BlockListMembers(ranges: seq<BlockRange>, b: nat)
    ensures b in BlockList(ranges) <==> exists i :: 0 <= i < |ranges| && ranges[i].first <= b <= ranges[i].last
  {
    if ranges != [] {
      var init, last := ranges[..|ranges| - 1], ranges[|ranges| - 1];
      BlockListMembers(init, b);
      var span := Span(last.first, last.last + 1);
      if last.first <= b <= last.last { assert span[b - last.first] == b; }
      assert b in BlockList(ranges) <==> b in BlockList(init) || b in span;
      assert forall i :: 0 <= i < |init| ==> init[i] == ranges[i];
    }
  }

  lemma FrontBelow(front: seq<nat>, span: seq<nat>, x: nat)
    requires Increasing(front + span) && span != []
    ensures Increasing(front) && (x in front ==> x < span[0])
  {
    var all := front + span;
    assert all[|front|] == span[0] && forall i :: 0 <= i < |front| ==> all[i] == front[i];
  }

  lemma {:induction false} AscendingAreDisjoint(ranges: Ranges)
    requires Increasing(BlockList(ranges))
    ensures Disjoint(ranges)
  {
    hide Increasing;
    if ranges != [] {
      var init, last := ranges[..|ranges| - 1], ranges[|ranges| - 1];
      var front, span := BlockList(init), Span(last.first, last.last + 1);
      FrontBelow(front, span, 0);
      AscendingAreDisjoint(init);
      forall i | 0 <= i < |init| ensures init[i].last < last.first {
        BlockListMembers(init, init[i].last);
        FrontBelow(front, span, init[i].last);
      }
    }
  }

  lemma {:induction false} DisjointAscend(ranges: Ranges)
    requires Disjoint(ranges)
    ensures Increasing(BlockList(ranges))
  {
    if ranges != [] {
      var init, last := ranges[..|ranges| - 1], ranges[|ranges| - 1];
      DisjointAscend(init);
      var front := BlockList(init);
      forall k | 0 <= k < |front| ensures front[k] < last.first {
        BlockListMembers(init, front[k]);
      }
    }
  }

  /**
   The planner does not compare one range with the next: each listed block is
   requested once, in ascending order, exactly when the ranges ascend disjointly.
   */
  lemma BlocksAscendExactly(ranges: Ranges)
    ensures Increasing(BlockList(ranges)) <==> Disjoint(ranges)
  {
    hide Increasing, Disjoint;
    if Increasing(BlockList(ranges)) { AscendingAreDisjoint(ranges); }
    if Disjoint(ranges) { DisjointAscend(ranges); }
  }

  /** A reply the planner accepts whose overlapping ranges list block 1 twice. */
  lemma OverlapRepeats()
    ensures var seg := SegmentOut("s", 0, "", 0, 0, "blocks", [BlockOut(0, 1), BlockOut(1, 2)]);
            Acceptable(seg) && BlockList([BlockRange(0, 1), BlockRange(1, 2)]) == [0, 1, 1, 2]
  {
    assert BlockList([BlockRange(0, 1)]) == [0, 1] by { assert [BlockRange(0, 1)][..0] == []; }
    assert [BlockRange(0, 1), BlockRange(1, 2)][..1] == [BlockRange(0, 1)];
  }

  /** What the coordinator has handed on: jobs to the fetch pool, futures to the framer. */
  datatype Handed = Handed(tokens: nat, jobs: seq<nat>, futures: seq<nat>)

  /** Every block up to `n` has gone all the way. */
  ghost predicate HandedEven(h: Handed, list: seq<nat>, n: nat) {
    n <= |list| && h == Handed(n, list[..n], list[..n])
  }

  /** Every block up to `n` has gone all the way; the one after it may be part way. */
  ghost predicate HandedThrough(h: Handed, list: seq<nat>, n: nat) {
    && n <= |list| && h.futures == list[..n] && h.jobs <= list
    && n <= |h.jobs| <= h.tokens <= n + 1
  }

  ghost predicate AllLive(live: nat -> bool, k: nat) {
    forall j: nat :: j < k ==> live(j)
  }

  /** Of the three operations for block `n` one was the first to lose; those before it were done. */
  ghost predicate CutAt(h: Handed, list: seq<nat>, n: nat, live: nat -> bool) {
    && n < |list| && AllLive(live, 3 * n) && !(live(3 * n) && live(3 * n + 1) && live(3 * n + 2))
    && h.tokens == (if live(3 * n) then n + 1 else n)
    && h.jobs == (if live(3 * n) && live(3 * n + 1) then list[..n + 1] else list[..n])
  }

  /** Where the blocks of range `r` stand in the entry's list. */
  lemma BlockListPrefix(ranges: seq<BlockRange>, r: nat)
    requires r < |ranges|
    ensures BlockList(ranges[..r + 1]) == BlockList(ranges[..r]) + Span(ranges[r].first, ranges[r].last + 1)
    ensures BlockList(ranges[..r + 1]) <= BlockList(ranges)
    decreases |ranges|
  {
    assert ranges[..r + 1][..r] == ranges[..r];
    if r + 1 < |ranges| {
      var init := ranges[..|ranges| - 1];
      assert init[..r + 1] == ranges[..r + 1];
      BlockListPrefix(init, r);
    } else {
      assert ranges[..r + 1] == ranges;
    }
  }

  lemma BlockAt(ranges: Ranges, r: nat, idx: nat)
    requires r < |ranges| && ranges[r].first <= idx <= ranges[r].last
    ensures var n := |BlockList(ranges[..r])| + (idx - ranges[r].first);
            n < |BlockList(ranges)| && BlockList(ranges)[n] == idx
  {
    BlockListPrefix(ranges, r);
    var upTo := BlockList(ranges[..r + 1]);
    assert upTo[|BlockList(ranges[..r])| + (idx - ranges[r].first)] == idx;
  }

  /** Take a token, queue the job, hand the framer its future; stop at the first that loses to cancellation. */
  method HandOne(h: Handed, idx: nat, live: nat -> bool, k: nat, ghost list: seq<nat>, ghost n: nat)
    returns (t: Handed, ok: bool)
    requires HandedEven(h, list, n) && n < |list| && list[n] == idx && k == 3 * n && AllLive(live, k)
    ensures ok <==> live(k) && live(k + 1) && live(k + 2)
    ensures ok ==> HandedEven(t, list, n + 1) && AllLive(live, k + 3)
    ensures !ok ==> HandedThrough(t, list, n) && CutAt(t, list, n, live)
  {
    t, ok := h, false;
    assert list[..n + 1] == list[..n] + [idx];
    if !live(k) { return; }
    t := t.(tokens := t.tokens + 1);
    if !live(k + 1) { return; }
    t := t.(jobs := t.jobs + [idx]);
    if !live(k + 2) { return; }
    t, ok := t.(futures := t.futures + [idx]), true;
  }

  lemma EvenIsThrough(h: Handed, list: seq<nat>, n: nat)
    requires HandedEven(h, list, n)
    ensures HandedThrough(h, list, n) && |h.futures| == n
    ensures n == |list| ==> h == Handed(|list|, list, list)
  {
  }

  /** An unsigned 64-bit counter, wrapping. */
  function Increment64(x: nat): nat {
    if x + 1 == TWO_64 then 0 else x + 1
  }

  /** One range; the counter is 64 bits wide, so a range that ends at the 32-bit maximum ends. */
  method EnqueueRange(h: Handed, ranges: Ranges, r: nat, live: nat -> bool, k: nat, ghost list: seq<nat>)
    returns (t: Handed, ok: bool, next: nat)
    requires r < |ranges| && list == BlockList(ranges) && HandedEven(h, list, |BlockList(ranges[..r])|)
    requires k == 3 * |BlockList(ranges[..r])| && AllLive(live, k)
    ensures ok ==>
              && HandedEven(t, list, |BlockList(ranges[..r + 1])|)
              && next == 3 * |BlockList(ranges[..r + 1])| && AllLive(live, next)
    ensures !ok ==> exists n :: HandedThrough(t, list, n) && CutAt(t, list, n, live)
  {
    hide HandedEven, HandedThrough, BlockList, CutAt, AllLive;
    BlockListPrefix(ranges, r);
    t, ok, next := h, true, k;
    ghost var n := |BlockList(ranges[..r])|;
    var idx := ranges[r].first;
    while idx <= ranges[r].last
      invariant ranges[r].first <= idx <= ranges[r].last + 1 && ok
      invariant n == |BlockList(ranges[..r])| + (idx - ranges[r].first) && HandedEven(t, list, n)
      invariant next == 3 * n && AllLive(live, next)
      decreases ranges[r].last + 1 - idx
    {
      BlockAt(ranges, r, idx);
      t, ok := HandOne(t, idx, live, next, list, n);
      if !ok { return; }
      idx := Increment64(idx);
      next, n := next + 3, n + 1;
    }
  }

  /**
   Submit one entry's blocks; `live(k)` says whether the k-th channel operation
   wins against cancellation.
   */
  method EnqueueEntryBlocks(ranges: Ranges, live: nat -> bool) returns (h: Handed, ok: bool)
    ensures ok ==> h == Handed(|BlockList(ranges)|, BlockList(ranges), BlockList(ranges))
    ensures ok ==> AllLive(live, 3 * |BlockList(ranges)|)
    ensures !ok ==> exists n :: HandedThrough(h, BlockList(ranges), n) && CutAt(h, BlockList(ranges), n, live)
  {
    ghost var list := BlockList(ranges);
    h, ok := Handed(0, [], []), true;
    assert HandedEven(h, list, |BlockList(ranges[..0])|) && AllLive(live, 0);
    hide HandedEven, HandedThrough, BlockList, CutAt, AllLive;
    var k := 0;
    for r := 0 to |ranges|
      invariant ok && HandedEven(h, list, |BlockList(ranges[..r])|)
      invariant k == 3 * |BlockList(ranges[..r])| && AllLive(live, k)
    {
      h, ok, k := EnqueueRange(h, ranges, r, live, k, list);
      if !ok { return; }
    }
    assert ranges[..|ranges|] == ranges;
    EvenIsThrough(h, list, |list|);
  }

  // ---- the framer ----

  /** A frame handed to the decode pool, or the error that ends its entry. */
  datatype Job = Frame(entry: nat, block: nat, bytes: Bytes) | Fault(entry: nat, block: nat)

  /** One block of an entry with the outcome of fetching or reading it. */
  datatype Fetched = Fetched(block: nat, frame: Option<Bytes>)

  /** The first block whose fetch failed, or their number. */
  function FirstFault(blocks: seq<Fetched>): (k: nat)
    ensures k <= |blocks|
    ensures forall i :: 0 <= i < k ==> blocks[i].frame.Some?
    ensures k < |blocks| ==> blocks[k].frame.None?
  {
    if blocks == [] || blocks[0].frame.None? then 0 else 1 + FirstFault(blocks[1..])
  }

  /** An entry's good prefix, then exactly one error if a block failed, then nothing more. */
  ghost predicate GoodPrefixThenFault(entry: nat, blocks: seq<Fetched>, jobs: seq<Job>) {
    var k := FirstFault(blocks);
    && |jobs| == (if k < |blocks| then k + 1 else k)
    && (forall i :: 0 <= i < k ==> jobs[i] == Frame(entry, blocks[i].block, blocks[i].frame.value))
    && (k < |blocks| ==> jobs[k] == Fault(entry, blocks[k].block))
  }

  /** What the framer must dispatch for one entry. */
  function EntryJobs(entry: nat, blocks: seq<Fetched>): (jobs: seq<Job>)
    ensures GoodPrefixThenFault(entry, blocks, jobs)
  {
    if blocks == [] then []
    else if blocks[0].frame.None? then [Fault(entry, blocks[0].block)]
    else [Frame(entry, blocks[0].block, blocks[0].frame.value)] + EntryJobs(entry, blocks[1..])
  }

  lemma {:induction false} EntryJobsSnoc(entry: nat, blocks: seq<Fetched>, f: Fetched)
    ensures EntryJobs(entry, blocks + [f]) ==
            if FirstFault(blocks) < |blocks| then EntryJobs(entry, blocks)
            else EntryJobs(entry, blocks) + [JobOf(entry, f)]
    ensures FirstFault(blocks + [f]) == |blocks| + 1 <==> FirstFault(blocks) == |blocks| && f.frame.Some?
  {
    if blocks == [] {
      assert (blocks + [f])[1..] == [];
    } else {
      assert (blocks + [f])[1..] == blocks[1..] + [f];
      EntryJobsSnoc(entry, blocks[1..], f);
    }
  }

  /** The framer's output: a dense numbering by position, and the cancellation oracle of dispatch. */
  class Framer {
    var jobs: seq<Job>
    const accepts: nat -> bool

    constructor (accepts: nat -> bool)
      ensures this.accepts == accepts && jobs == []
    {
      this.accepts := accepts;
      jobs := [];
    }

    method Dispatch(job: Job) returns (ok: bool)
      modifies this
      ensures ok <==> accepts(|old(jobs)|)
      ensures jobs == if ok then old(jobs) + [job] else old(jobs)
    {
      ok := accepts(|jobs|);
      if ok { jobs := jobs + [job]; }
    }

    /**
     Consume one entry's futures in order; `arrives(i)` says whether the i-th result
     beats cancellation. One token goes back per future, dispatched or drained.
     */
    method FrameBlocks(entry: nat, futures: seq<Fetched>, arrives: nat -> bool) returns (ok: bool, released: nat)
      modifies this
      ensures ok ==> jobs == old(jobs) + EntryJobs(entry, futures) && released == |futures|
      ensures !ok ==> old(jobs) <= jobs && jobs <= old(jobs) + EntryJobs(entry, futures) && released <= |futures|
      // It gives up only at a result that came too late or at a job that was not taken.
      ensures !ok ==>
                || !accepts(|jobs|)
                || (released < |futures| && !arrives(released)
                    && jobs == old(jobs) + EntryJobs(entry, futures[..released]))
      ensures ok ==> forall i :: 0 <= i < |futures| ==> arrives(i)
    {
      hide EntryJobs, FirstFault, GoodPrefixThenFault, Consumed;
      ghost var before := jobs;
      ConsumedNone(entry, futures, before);
      released := 0;
      var failed := false;
      for i := 0 to |futures|
        invariant Consumed(entry, futures, i, before, jobs, failed) && released == i
        invariant forall k :: 0 <= k < i ==> arrives(k)
      {
        ConsumedFacts(entry, futures, i, before, jobs, failed);
        ConsumedOn(entry, futures, i, before, jobs, failed);
        if !arrives(i) { return false, released; }
        released := released + 1;
        if failed { continue; }
        failed := futures[i].frame.None?;
        ok := Dispatch(JobOf(entry, futures[i]));
        if !ok { return false, released; }
      }
      ConsumedFacts(entry, futures, |futures|, before, jobs, failed);
      ok := true;
    }

    /** Slice one fetched file; a header or read error is dispatched in its place and ends the entry. */
    method FrameWholeSegment(entry: nat, header: Option<nat>, read: nat -> Option<Bytes>) returns (ok: bool)
      modifies this
      ensures ok ==> jobs == old(jobs) + SourceJobs(entry, Whole(header, read))
      ensures !ok ==> old(jobs) <= jobs && jobs <= old(jobs) + SourceJobs(entry, Whole(header, read))
      ensures !ok ==> !accepts(|jobs|)
    {
      if header.None? {
        ok := Dispatch(Fault(entry, 0));
        return;
      }
      ghost var before, blocks := jobs, ReadAll(header.value, read);
      assert EntryJobs(entry, blocks[..0]) == [] && before + [] == before;
      hide EntryJobs, FirstFault, GoodPrefixThenFault;
      for idx := 0 to header.value
        invariant jobs == before + EntryJobs(entry, blocks[..idx])
        invariant FirstFault(blocks[..idx]) >= idx
      {
        ConsumeStep(entry, blocks, idx, before);
        var frame := read(idx);
        if frame.None? {
          FaultEnds(entry, blocks, idx);
          ok := Dispatch(Fault(entry, idx));
          return;
        }
        ok := Dispatch(Frame(entry, idx, frame.value));
        if !ok { return; }
      }
      assert blocks[..|blocks|] == blocks;
      ok := true;
    }

    /**
     Walk the plan's entries in order; `alive(i)` is the context check before entry i.
     Whatever happens inside one entry, the others are framed as if it had not.
     */
    method RunFramer(entries: seq<Source>, alive: nat -> bool) returns (ok: bool)
      requires jobs == []
      modifies this
      ensures ok ==> jobs == Framed(entries)
      ensures jobs <= Framed(entries)
      ensures !ok ==> !accepts(|jobs|) || exists i :: 0 <= i < |entries| && (!alive(i) || Late(entries[i]))
      ensures ok ==> forall i :: 0 <= i < |entries| ==> alive(i) && !Late(entries[i])
    {
      hide SourceJobs;
      for i := 0 to |entries|
        invariant jobs == Framed(entries[..i])
        invariant forall k :: 0 <= k < i ==> alive(k) && !Late(entries[k])
      {
        FramedStep(entries, i, jobs);
        if !alive(i) { return false; }
        match entries[i] {
        case FetchFailed =>
          SourceFault(i);
          ok := Dispatch(Fault(i, 0));
        case Whole(header, read) =>
          ok := FrameWholeSegment(i, header, read);
        case BlockMode(futures, arrives) =>
          SourceBlocks(i, futures, arrives);
          var released;
          ok, released := FrameBlocks(i, futures, arrives);
        }
        if !ok { return; }
      }
      assert entries[..|entries|] == entries;
      ok := true;
    }
  }

  /** What one plan entry turned into: a failed download, a file, or a stream of block futures. */
  datatype Source =
    | FetchFailed
    | Whole(header: Option<nat>, read: nat -> Option<Bytes>)
    | BlockMode(futures: seq<Fetched>, arrives: nat -> bool)

  /** A result of the entry is cut off by cancellation. */
  ghost predicate Late(source: Source) {
    source.BlockMode? && exists k :: 0 <= k < |source.futures| && !source.arrives(k)
  }

  function ReadAll(count: nat, read: nat -> Option<Bytes>): seq<Fetched> {
    seq(count, i requires 0 <= i => Fetched(i, read(i)))
  }

  function SourceJobs(entry: nat, source: Source): seq<Job> {
    match source
    case FetchFailed => [Fault(entry, 0)]
    case Whole(header, read) =>
      if header.None? then [Fault(entry, 0)] else EntryJobs(entry, ReadAll(header.value, read))
    case BlockMode(futures, _) => EntryJobs(entry, futures)
  }

  /** The jobs of a whole plan, entry after entry. */
  function Framed(entries: seq<Source>): seq<Job> {
    if entries == [] then []
    else Framed(entries[..|entries| - 1]) + SourceJobs(|entries| - 1, entries[|entries| - 1])
  }

  lemma SourceFault(i: nat)
    ensures SourceJobs(i, FetchFailed) == [Fault(i, 0)]
  {
  }

  lemma SourceBlocks(i: nat, futures: seq<Fetched>, arrives: nat -> bool)
    ensures SourceJobs(i, BlockMode(futures, arrives)) == EntryJobs(i, futures)
  {
  }

  /** Nothing follows the first fault of an entry. */
  lemma {:induction false} FaultEnds(entry: nat, blocks: seq<Fetched>, k: nat)
    requires k < |blocks| && blocks[k].frame.None? && FirstFault(blocks[..k]) >= k
    ensures EntryJobs(entry, blocks) == EntryJobs(entry, blocks[..k + 1])
    decreases |blocks|
  {
    if |blocks| == k + 1 {
      assert blocks[..k + 1] == blocks;
    } else {
      var init := blocks[..|blocks| - 1];
      assert init[..k] == blocks[..k] && init[..k + 1] == blocks[..k + 1] && blocks == init + [blocks[|blocks| - 1]];
      FaultEnds(entry, init, k);
      EntryJobsSnoc(entry, init, blocks[|blocks| - 1]);
      assert init[k].frame.None?;
    }
  }

  lemma FramedStep(entries: seq<Source>, i: nat, sofar: seq<Job>)
    requires i < |entries| && sofar == Framed(entries[..i])
    ensures Framed(entries[..i + 1]) == sofar + SourceJobs(i, entries[i])
    ensures sofar <= sofar + SourceJobs(i, entries[i]) <= Framed(entries)
  {
    assert entries[..i + 1][..i] == entries[..i];
    FramedPrefix(entries, i + 1);
  }

  lemma {:induction false} FramedPrefix(entries: seq<Source>, i: nat)
    requires i <= |entries|
    ensures Framed(entries[..i]) <= Framed(entries)
    decreases |entries|
  {
    if i == |entries| {
      assert entries[..i] == entries;
    } else {
      assert entries[..|entries| - 1][..i] == entries[..i];
      FramedPrefix(entries[..|entries| - 1], i);
    }
  }

  /** An entry's outcome changes its own jobs and no other entry's. */
  lemma {:induction false} OthersUnaffected(entries: seq<Source>, i: nat, x: Source)
    returns (front: seq<Job>, rest: seq<Job>)
    requires i < |entries|
    ensures Framed(entries) == front + SourceJobs(i, entries[i]) + rest
    ensures Framed(entries[i := x]) == front + SourceJobs(i, x) + rest
    decreases |entries|
  {
    hide SourceJobs;
    var n := |entries| - 1;
    if i == n {
      front, rest := Framed(entries[..n]), [];
      assert entries[i := x][..n] == entries[..n];
    } else {
      var last := SourceJobs(n, entries[n]);
      front, rest := OthersUnaffected(entries[..n], i, x);
      assert entries[i := x][..n] == entries[..n][i := x];
      Assoc(front + SourceJobs(i, entries[i]), rest, last);
      Assoc(front + SourceJobs(i, x), rest, last);
      rest := rest + last;
    }
  }

  function JobOf(entry: nat, f: Fetched): Job {
    if f.frame.Some? then Frame(entry, f.block, f.frame.value) else Fault(entry, f.block)
  }

  /** One more future: what the entry's jobs grow by, and that they stay within the whole. */
  lemma ConsumeStep(entry: nat, futures: seq<Fetched>, i: nat, before: seq<Job>)
    requires i < |futures|
    ensures before <= before + EntryJobs(entry, futures[..i]) <= before + EntryJobs(entry, futures)
    ensures FirstFault(futures[..i]) < i ==>
              && EntryJobs(entry, futures[..i + 1]) == EntryJobs(entry, futures[..i])
              && FirstFault(futures[..i + 1]) < i + 1
    ensures FirstFault(futures[..i]) >= i ==>
              && before + EntryJobs(entry, futures[..i + 1]) ==
                 (before + EntryJobs(entry, futures[..i])) + [JobOf(entry, futures[i])]
              && (futures[i].frame.None? <==> FirstFault(futures[..i + 1]) < i + 1)
  {
    hide EntryJobs, FirstFault, GoodPrefixThenFault;
    EntryJobsPrefix(entry, futures, i);
    assert futures[..i + 1] == futures[..i] + [futures[i]];
    EntryJobsSnoc(entry, futures[..i], futures[i]);
    Assoc(before, EntryJobs(entry, futures[..i]), [JobOf(entry, futures[i])]);
  }

  /** An entry after `i` of its futures. */
  ghost predicate Consumed(entry: nat, futures: seq<Fetched>, i: nat, before: seq<Job>, jobs: seq<Job>, failed: bool) {
    && i <= |futures| && jobs == before + EntryJobs(entry, futures[..i])
    && (failed <==> FirstFault(futures[..i]) < i)
  }

  lemma ConsumedNone(entry: nat, futures: seq<Fetched>, before: seq<Job>)
    ensures Consumed(entry, futures, 0, before, before, false)
  {
  }

  lemma ConsumedFacts(entry: nat, futures: seq<Fetched>, i: nat, before: seq<Job>, jobs: seq<Job>, failed: bool)
    requires Consumed(entry, futures, i, before, jobs, failed)
    ensures i <= |futures| && jobs == before + EntryJobs(entry, futures[..i])
    ensures before <= jobs && jobs <= before + EntryJobs(entry, futures)
    ensures i == |futures| ==> jobs == before + EntryJobs(entry, futures)
  {
    hide EntryJobs, FirstFault;
    EntryJobsPrefix(entry, futures, i);
    assert i == |futures| ==> futures[..i] == futures;
  }

  lemma ConsumedOn(entry: nat, futures: seq<Fetched>, i: nat, before: seq<Job>, jobs: seq<Job>, failed: bool)
    requires Consumed(entry, futures, i, before, jobs, failed) && i < |futures|
    ensures failed ==> Consumed(entry, futures, i + 1, before, jobs, true)
    ensures !failed ==>
              Consumed(entry, futures, i + 1, before, jobs + [JobOf(entry, futures[i])], futures[i].frame.None?)
  {
    hide EntryJobs, FirstFault;
    ConsumeStep(entry, futures, i, before);
  }

  lemma {:induction false} EntryJobsPrefix(entry: nat, blocks: seq<Fetched>, i: nat)
    requires i <= |blocks|
    ensures EntryJobs(entry, blocks[..i]) <= EntryJobs(entry, blocks)
    decreases |blocks|
  {
    if i == |blocks| {
      assert blocks[..i] == blocks;
    } else {
      var init := blocks[..|blocks| - 1];
      assert init[..i] == blocks[..i] && blocks == init + [blocks[|blocks| - 1]];
      EntryJobsPrefix(entry, init, i);
      EntryJobsSnoc(entry, init, blocks[|blocks| - 1]);
    }
  }
}
