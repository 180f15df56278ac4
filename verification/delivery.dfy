/**
 Delivery to the consumer: the yield closures with their shared `stopped` flag
 (jetstream/engine.go), the per-event batcher (jetstream/batcher.go) and the
 block-aligned chunking of the parallel backfill path.
 */
module Delivery {
  import opened Common
  import opened EventLog

  /** What the consumer sees, one element at a time. */
  datatype Item = Ev(event: Event) | Er(msg: string)

  /** One call of the consumer's yield. */
  datatype Yield = Batch(events: seq<Event>) | Failure(msg: string)

  function EvItems(es: seq<Event>): seq<Item> {
    if es == [] then [] else EvItems(es[..|es| - 1]) + [Ev(es[|es| - 1])]
  }

  function ErrItems(err: Option<string>): seq<Item> {
    match err case None => [] case Some(m) => [Er(m)]
  }

  function YieldItems(y: Yield): seq<Item> {
    match y case Batch(es) => EvItems(es) case Failure(m) => [Er(m)]
  }

  function Flatten(ys: seq<Yield>): seq<Item> {
    if ys == [] then [] else Flatten(ys[..|ys| - 1]) + YieldItems(ys[|ys| - 1])
  }

  function Events(items: seq<Item>): seq<Event> {
    if items == [] then []
    else
      var last := items[|items| - 1];
      Events(items[..|items| - 1]) + (if last.Ev? then [last.event] else [])
  }

  lemma FlattenSnoc(ys: seq<Yield>, y: Yield)
    ensures Flatten(ys + [y]) == Flatten(ys) + YieldItems(y)
  {
    assert (ys + [y])[..|ys|] == ys;
  }

  lemma {:induction false} EventsConcat(a: seq<Item>, b: seq<Item>)
    ensures Events(a + b) == Events(a) + Events(b)
  {
    if b == [] {
      assert a + b == a;
    } else {
      var b' := b[..|b| - 1];
      EventsConcat(a, b');
      assert (a + b)[..|a + b| - 1] == a + b';
    }
  }

  lemma EventsSnoc(items: seq<Item>, item: Item)
    ensures Events(items + [item]) == Events(items) + (if item.Ev? then [item.event] else [])
  {
    assert (items + [item])[..|items|] == items;
  }

  lemma EvItemsSnoc(es: seq<Event>, e: Event)
    ensures EvItems(es + [e]) == EvItems(es) + [Ev(e)]
  {
    assert (es + [e])[..|es|] == es;
  }

  lemma {:induction false} EventsOfEvItems(es: seq<Event>)
    ensures Events(EvItems(es)) == es
  {
    if es != [] {
      var es', e := es[..|es| - 1], es[|es| - 1];
      EventsOfEvItems(es');
      EventsSnoc(EvItems(es'), Ev(e));
    }
  }

  lemma {:induction false} EvItemsConcat(a: seq<Event>, b: seq<Event>)
    ensures EvItems(a + b) == EvItems(a) + EvItems(b)
  {
    if b == [] {
      assert a + b == a;
    } else {
      var b' := b[..|b| - 1];
      EvItemsConcat(a, b');
      assert (a + b)[..|a + b| - 1] == a + b';
    }
  }

  /** A prefix of the items holds a prefix of the events. */
  lemma EventsPrefix(items: seq<Item>, n: nat)
    requires n <= |items|
    ensures Events(items[..n]) <= Events(items)
  {
    assert items == items[..n] + items[n..];
    EventsConcat(items[..n], items[n..]);
  }

  function Concat(chunks: seq<seq<Event>>): seq<Event> {
    if chunks == [] then [] else Concat(chunks[..|chunks| - 1]) + chunks[|chunks| - 1]
  }

  /**
   Splits one block's events into public batches. Every batch holds 1 to `size`
   events, only the last may be short, and nothing is lost or reordered.
   */
  method Transform(evs: seq<Event>, size: nat) returns (batches: seq<seq<Event>>)
    requires 1 <= size
    ensures Concat(batches) == evs
    ensures forall k :: 0 <= k < |batches| ==> 1 <= |batches[k]| <= size
    ensures forall k :: 0 <= k < |batches| - 1 ==> |batches[k]| == size
  {
    batches := [];
    var i := 0;
    while i < |evs|
      invariant 0 <= i <= |evs|
      invariant Concat(batches) == evs[..i]
      invariant forall k :: 0 <= k < |batches| ==> 1 <= |batches[k]| <= size
      invariant i < |evs| ==> forall k :: 0 <= k < |batches| ==> |batches[k]| == size
      invariant forall k :: 0 <= k < |batches| - 1 ==> |batches[k]| == size
    {
      var end := if i + size < |evs| then i + size else |evs|;
      var chunk := evs[i..end];
      assert (batches + [chunk])[..|batches|] == batches;
      assert evs[..end] == evs[..i] + chunk;
      batches := batches + [chunk];
      i := end;
    }
    assert evs[..i] == evs;
  }

  /** Never called again after it returned false, and only with 1 to `size` events. */
  ghost predicate Disciplined(calls: seq<Yield>, answer: nat -> bool, stopped: bool, size: nat) {
    && (forall k: nat :: k < |calls| - 1 ==> answer(k))
    && (stopped <==> 0 < |calls| && !answer(|calls| - 1))
    && (forall k :: 0 <= k < |calls| && calls[k].Batch? ==> 1 <= |calls[k].events| <= size)
  }

  lemma DisciplinedSnoc(calls: seq<Yield>, answer: nat -> bool, size: nat, y: Yield)
    requires Disciplined(calls, answer, false, size) && (y.Batch? ==> 1 <= |y.events| <= size)
    ensures Disciplined(calls + [y], answer, !answer(|calls|), size)
  {
  }

  /**
   The consumer behind the yield closures. `answer(k)` is what it returns to its
   k-th call, so quantifying over consumers is quantifying over `answer`.
   */
  class Consumer {
    const size: nat
    const answer: nat -> bool
    var calls: seq<Yield>
    var stopped: bool
    ghost var seen: seq<Item>  // the calls, flattened

    ghost predicate Valid()
      reads this
    {
      1 <= size && seen == Flatten(calls) && Disciplined(calls, answer, stopped, size)
    }

    constructor (batchSize: int, answer: nat -> bool)
      ensures Valid() && !stopped && calls == [] && seen == [] && this.answer == answer
      ensures size == if batchSize < 1 then 1 else batchSize
    {
      size := if batchSize < 1 then 1 else batchSize;
      this.answer := answer;
      calls, stopped, seen := [], false, [];
    }

    /** The closure every emission goes through: refuse once stopped, else call yield. */
    method Emit(y: Yield) returns (ok: bool)
      requires Valid() && (y.Batch? ==> 1 <= |y.events| <= size)
      modifies this
      ensures Valid() && (ok <==> !stopped)
      ensures old(stopped) ==> calls == old(calls) && seen == old(seen)
      ensures !old(stopped) ==> calls == old(calls) + [y] && seen == old(seen) + YieldItems(y)
    {
      if stopped { return false; }
      FlattenSnoc(calls, y);
      DisciplinedSnoc(calls, answer, size, y);
      calls, seen := calls + [y], seen + YieldItems(y);
      if !answer(|calls| - 1) {
        stopped := true;
        return false;
      }
      return true;
    }

    /** The fast path: one transformed block, batch by batch, stopping at a refusal. */
    method EmitBlock(batches: seq<seq<Event>>) returns (ok: bool, ghost got: seq<Event>)
      requires Valid()
      requires forall k :: 0 <= k < |batches| ==> 1 <= |batches[k]| <= size
      modifies this
      ensures Valid() && (ok <==> !stopped)
      ensures got <= Concat(batches) && (ok ==> got == Concat(batches))
      ensures seen == old(seen) + EvItems(got)
      // The batches go out one by one, as they are.
      ensures 0 <= |calls| - |old(calls)| <= |batches|
      ensures calls == old(calls) + AsBatches(batches[..|calls| - |old(calls)|])
    {
      got := [];
      ghost var was, calls0 := seen, calls;
      EmittedNone(was, calls0, batches);
      hide AsBatches, Concat, EvItems, Flatten, Disciplined, Emitted;
      if stopped {
        EmittedFacts(was, seen, calls0, calls, batches, 0, got);
        return false, got;
      }
      for i := 0 to |batches|
        invariant Valid() && !stopped && Emitted(was, seen, calls0, calls, batches, i, got)
      {
        EmittedStep(was, seen, calls0, calls, batches, i, got);
        got := Concat(batches[..i + 1]);
        ok := Emit(Batch(batches[i]));
        if !ok {
          EmittedFacts(was, seen, calls0, calls, batches, i + 1, got);
          return;
        }
      }
      EmittedFacts(was, seen, calls0, calls, batches, |batches|, got);
      assert batches[..|batches|] == batches;
      ok := true;
    }
  }

  /** After i batches of a block. */
  ghost predicate Emitted(was: seq<Item>, seen: seq<Item>, calls0: seq<Yield>, calls: seq<Yield>,
                          batches: seq<seq<Event>>, i: nat, got: seq<Event>)
  {
    && i <= |batches| && got == Concat(batches[..i]) && seen == was + EvItems(got)
    && calls == calls0 + AsBatches(batches[..i])
  }

  lemma EmittedNone(was: seq<Item>, calls0: seq<Yield>, batches: seq<seq<Event>>)
    ensures Emitted(was, was, calls0, calls0, batches, 0, [])
  {
  }

  lemma EmittedStep(was: seq<Item>, seen: seq<Item>, calls0: seq<Yield>, calls: seq<Yield>,
                    batches: seq<seq<Event>>, i: nat, got: seq<Event>)
    requires Emitted(was, seen, calls0, calls, batches, i, got) && i < |batches|
    ensures Emitted(was, seen + EvItems(batches[i]), calls0, calls + [Batch(batches[i])], batches, i + 1,
                    Concat(batches[..i + 1]))
  {
    hide AsBatches, Concat, EvItems;
    BlockStep(was, seen, batches, i);
    AsBatchesSnoc(batches, i);
    Assoc(calls0, AsBatches(batches[..i]), [Batch(batches[i])]);
  }

  lemma EmittedFacts(was: seq<Item>, seen: seq<Item>, calls0: seq<Yield>, calls: seq<Yield>,
                     batches: seq<seq<Event>>, i: nat, got: seq<Event>)
    requires Emitted(was, seen, calls0, calls, batches, i, got)
    ensures |calls| - |calls0| == i && calls == calls0 + AsBatches(batches[..i])
    ensures got <= Concat(batches) && (i == |batches| ==> got == Concat(batches)) && seen == was + EvItems(got)
  {
    hide AsBatches, Concat, EvItems;
    if i == |batches| {
      assert batches[..i] == batches;
    } else {
      ConcatStep(batches, i);
    }
  }

  /** Batches as calls of yield. */
  function AsBatches(batches: seq<seq<Event>>): (calls: seq<Yield>)
    ensures |calls| == |batches|
  {
    if batches == [] then [] else AsBatches(batches[..|batches| - 1]) + [Batch(batches[|batches| - 1])]
  }

  lemma AsBatchesSnoc(batches: seq<seq<Event>>, i: nat)
    requires i < |batches|
    ensures AsBatches(batches[..i + 1]) == AsBatches(batches[..i]) + [Batch(batches[i])]
  {
    assert batches[..i + 1][..i] == batches[..i];
  }

  lemma BlockStep(was: seq<Item>, seen: seq<Item>, batches: seq<seq<Event>>, i: nat)
    requires i < |batches| && seen == was + EvItems(Concat(batches[..i]))
    ensures seen + EvItems(batches[i]) == was + EvItems(Concat(batches[..i + 1]))
    ensures Concat(batches[..i + 1]) <= Concat(batches)
  {
    var done, more := Concat(batches[..i]), batches[i];
    ConcatStep(batches, i);
    EvItemsConcat(done, more);
    Assoc(was, EvItems(done), EvItems(more));
  }

  lemma {:induction false} ConcatStep(batches: seq<seq<Event>>, i: nat)
    requires i < |batches|
    ensures Concat(batches[..i + 1]) == Concat(batches[..i]) + batches[i]
    ensures Concat(batches[..i + 1]) <= Concat(batches)
    decreases |batches| - i
  {
    assert batches[..i + 1][..i] == batches[..i];
    if i + 1 < |batches| {
      ConcatStep(batches, i + 1);
    } else {
      assert batches[..i + 1] == batches;
    }
  }

  /** A consumer that never asks to stop. */
  ghost predicate Willing(answer: nat -> bool) {
    forall k: nat :: answer(k)
  }

  lemma WillingNeverStops(out: Consumer)
    requires out.Valid()
    ensures Willing(out.answer) ==> !out.stopped
  {
  }

  /** Everything accepted is with the consumer or still buffered, in order. */
  ghost predicate Ledger(accepted: seq<Item>, taken: seq<Event>, seen: seq<Item>, buf: seq<Event>) {
    accepted == seen + EvItems(buf) && taken == Events(accepted)
  }

  lemma LedgerAdd(accepted: seq<Item>, taken: seq<Event>, seen: seq<Item>, buf: seq<Event>, e: Event)
    requires Ledger(accepted, taken, seen, buf)
    ensures Ledger(accepted + [Ev(e)], taken + [e], seen, buf + [e])
  {
    EventsSnoc(accepted, Ev(e));
    EvItemsSnoc(buf, e);
  }

  lemma LedgerFlush(accepted: seq<Item>, taken: seq<Event>, seen: seq<Item>, buf: seq<Event>)
    requires Ledger(accepted, taken, seen, buf)
    ensures Ledger(accepted, taken, seen + EvItems(buf), [])
  {
  }

  lemma LedgerError(accepted: seq<Item>, taken: seq<Event>, seen: seq<Item>, msg: string)
    requires Ledger(accepted, taken, seen, [])
    ensures Ledger(accepted + [Er(msg)], taken, seen + [Er(msg)], [])
  {
    EventsSnoc(accepted, Er(msg));
  }

  /** With nothing buffered, a block handed over directly keeps the ledger in order. */
  lemma LedgerBlock(accepted: seq<Item>, taken: seq<Event>, seen: seq<Item>, got: seq<Event>)
    requires Ledger(accepted, taken, seen, [])
    ensures Ledger(accepted + EvItems(got), taken + got, seen + EvItems(got), [])
  {
    EventsConcat(accepted, EvItems(got));
    EventsOfEvItems(got);
  }

  /**
   Groups events into batches by count. The ghost ledger records every item
   accepted for delivery, and its events.
   */
  class Batcher {
    const out: Consumer
    const size: nat
    var buf: seq<Event>
    var stop: bool
    ghost var accepted: seq<Item>
    ghost var taken: seq<Event>

    ghost predicate Valid()
      reads this, out
    {
      && out.Valid() && size == out.size
      && |buf| <= size
      && (stop ==> out.stopped)
      && (out.stopped ==> buf == [])
      && Ledger(accepted, taken, out.seen, buf)
    }

    /** Valid, and every stop of the consumer went through this batcher. */
    ghost predicate Open()
      reads this, out
      ensures Open() ==> Valid()
    {
      Valid() && |buf| < size && (out.stopped ==> stop)
    }

    constructor (out: Consumer)
      requires out.Valid() && !out.stopped
      ensures Open() && buf == [] && !stop && this.out == out
      ensures accepted == out.seen && taken == Events(accepted)
    {
      this.out := out;
      size := out.size;
      buf, stop := [], false;
      accepted := out.seen;
      taken := Events(out.seen);
    }

    /** Hands the buffer to the consumer; nothing is dropped, whatever it answers. */
    method FlushLocked() returns (ok: bool)
      requires Valid()
      modifies this, out
      ensures Valid() && (ok <==> !stop) && (old(stop) ==> stop) && (old(out.stopped) ==> out.stopped)
      ensures old(out.stopped ==> stop) ==> Open()
      ensures accepted == old(accepted) && taken == old(taken) && buf == []
      ensures old(buf) == [] ==> out.calls == old(out.calls) && stop == old(stop)
      ensures old(buf) != [] ==> out.calls == old(out.calls) + [Batch(old(buf))]
    {
      if stop { return false; }
      if |buf| == 0 { return true; }
      LedgerFlush(accepted, taken, out.seen, buf);
      var batch := buf;
      buf := [];
      var cont := out.Emit(Batch(batch));
      if !cont {
        stop := true;
        return false;
      }
      return true;
    }

    method Flush() returns (ok: bool)
      requires Valid()
      modifies this, out
      ensures Valid() && (ok <==> !stop) && (old(stop) ==> stop) && (old(out.stopped) ==> out.stopped)
      ensures old(Open()) ==> Open()
      ensures accepted == old(accepted) && taken == old(taken) && buf == []
      ensures old(buf) == [] ==> out.calls == old(out.calls) && stop == old(stop)
      ensures old(buf) != [] ==> out.calls == old(out.calls) + [Batch(old(buf))]
    {
      ok := FlushLocked();
    }

    /** Accepts one event, flushing when the batch is full. */
    method Add(e: Event) returns (ok: bool)
      requires Open()
      modifies this, out
      ensures Open() && (ok <==> !stop) && (old(stop) ==> stop)
      ensures accepted == old(accepted) + (if old(stop) then [] else [Ev(e)])
      ensures taken == old(taken) + (if old(stop) then [] else [e])
      // A batch goes out when it is full and not before.
      ensures !old(stop) && |old(buf)| + 1 < size ==> buf == old(buf) + [e] && out.calls == old(out.calls)
      ensures !old(stop) && |old(buf)| + 1 >= size ==>
                buf == [] && out.calls == old(out.calls) + [Batch(old(buf) + [e])]
      ensures old(stop) ==> out.calls == old(out.calls)
    {
      if stop { return false; }
      LedgerAdd(accepted, taken, out.seen, buf, e);
      accepted, taken := accepted + [Ev(e)], taken + [e];
      buf := buf + [e];
      if |buf| >= size {
        ok := FlushLocked();
        return;
      }
      return true;
    }

    /** Emits an error after everything accepted so far. */
    method EmitError(msg: string) returns (ok: bool)
      requires Open()
      modifies this, out
      ensures Open() && (ok <==> !stop) && (old(stop) ==> stop) && buf == []
      ensures accepted == old(accepted) || accepted == old(accepted) + [Er(msg)]
      ensures ok || (old(buf) == [] && !old(stop)) ==> accepted == old(accepted) + [Er(msg)]
      ensures old(stop) ==> accepted == old(accepted) && out.calls == old(out.calls)
      ensures ok ==> out.calls == old(out.calls) + (if old(buf) == [] then [] else [Batch(old(buf))]) + [Failure(msg)]
      ensures taken == old(taken)
    {
      hide Flatten, Events, EvItems, Disciplined, Ledger, Consumer.Valid;
      if stop { return false; }
      var flushed := FlushLocked();
      if !flushed { return false; }
      LedgerError(accepted, taken, out.seen, msg);
      accepted := accepted + [Er(msg)];
      var cont := out.Emit(Failure(msg));
      if !cont {
        stop := true;
        return false;
      }
      return true;
    }

    /**
     The fast path hands a transformed block straight to the consumer. That keeps
     the order of the ledger only because nothing is buffered.
     */
    method EmitBlock(kept: seq<Event>) returns (ok: bool, ghost got: seq<Event>)
      requires Open() && !stop && buf == []
      modifies this, out
      ensures Valid() && (ok <==> !out.stopped) && buf == [] && !stop
      ensures got <= kept && (ok ==> got == kept)
      ensures accepted == old(accepted) + EvItems(got)
      ensures taken == old(taken) + got
    {
      hide AsBatches, Concat, EvItems;
      var batches := Transform(kept, size);
      ok, got := out.EmitBlock(batches);
      LedgerBlock(accepted, taken, old(out.seen), got);
      accepted, taken := accepted + EvItems(got), taken + got;
    }
  }
}
