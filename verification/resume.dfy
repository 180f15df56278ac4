/**
 Stopping and resuming (jetstream/client.go): what the consumer holds at any
 moment of a run, and why saving a batch's last cursor is enough to go on later.
 */
module Resume {
  import opened EventLog
  import opened Delivery

  /** The highest sequence number of a batch, zero when it is empty. */
  ghost predicate IsLastCursor(events: seq<Event>, cursor: Seq) {
    && (forall e :: e in events ==> e.seqNo <= cursor)
    && (events == [] ==> cursor == 0)
    && (events != [] ==> exists i :: 0 <= i < |events| && events[i].seqNo == cursor)
  }

  method LastCursor(events: seq<Event>) returns (cursor: Seq)
    ensures IsLastCursor(events, cursor)
  {
    cursor := 0;
    for i := 0 to |events|
      invariant forall j :: 0 <= j < i ==> events[j].seqNo <= cursor
      invariant if i == 0 then cursor == 0 else exists j :: 0 <= j < i && events[j].seqNo == cursor
    {
      if events[i].seqNo > cursor { cursor := events[i].seqNo; }
    }
  }

  lemma {:induction false} FlattenPrefix(calls: seq<Yield>, k: nat)
    requires k <= |calls|
    ensures Flatten(calls[..k]) <= Flatten(calls)
    decreases |calls| - k
  {
    if k == |calls| {
      assert calls[..k] == calls;
    } else {
      FlattenPrefix(calls, k + 1);
      assert calls[..k + 1] == calls[..k] + [calls[k]];
      FlattenSnoc(calls[..k], calls[k]);
    }
  }

  /**
   After every call of yield the consumer holds exactly the matching events up to
   some sequence number, once each and in ascending order.
   */
  lemma ExactAtEveryMoment(calls: seq<Yield>, k: nat, log: seq<Event>, req: PlanRequest, h: nat)
    requires k <= |calls|
    requires Exact(Events(Flatten(calls)), log, req, req.afterSeq, h)
    ensures var held := Events(Flatten(calls[..k]));
            Exact(held, log, req, req.afterSeq, Horizon(held, req.afterSeq))
  {
    hide Flatten, Events, Exact;
    var all, part := Flatten(calls), Flatten(calls[..k]);
    FlattenPrefix(calls, k);
    EventsPrefix(all, |part|);
    assert all[..|part|] == part;
    assert Events(all)[..|Events(part)|] == Events(part);
    ExactPrefix(Events(all), |Events(part)|, log, req, req.afterSeq, h);
  }

  /** In an exact delivery the last cursor of a batch is the horizon reached with it. */
  lemma LastCursorIsHorizon(calls: seq<Yield>, k: nat, log: seq<Event>, req: PlanRequest, h: nat, cursor: Seq)
    requires 0 < k <= |calls| && calls[k - 1].Batch? && calls[k - 1].events != []
    requires Exact(Events(Flatten(calls)), log, req, req.afterSeq, h)
    requires IsLastCursor(calls[k - 1].events, cursor)
    ensures Horizon(Events(Flatten(calls[..k])), req.afterSeq) == cursor
  {
    hide Flatten, Events, EvItems;
    var batch := calls[k - 1].events;
    var held := Events(Flatten(calls[..k]));
    ExactAtEveryMoment(calls, k, log, req, h);
    assert calls[..k] == calls[..k - 1] + [calls[k - 1]];
    FlattenSnoc(calls[..k - 1], calls[k - 1]);
    EventsConcat(Flatten(calls[..k - 1]), EvItems(batch));
    EventsOfEvItems(batch);
    var before := Events(Flatten(calls[..k - 1]));
    assert held == before + batch;
    var i :| 0 <= i < |batch| && batch[i].seqNo == cursor;
    assert held[|before| + i] == batch[i] && held[|held| - 1] == batch[|batch| - 1];
    assert batch[|batch| - 1] in batch;
  }

  /** A failure delivers no event, so it moves no horizon. */
  lemma FailureKeepsHorizon(calls: seq<Yield>, k: nat, lo: nat)
    requires k < |calls| && calls[k].Failure?
    ensures Horizon(Events(Flatten(calls[..k + 1])), lo) == Horizon(Events(Flatten(calls[..k])), lo)
  {
    assert calls[..k + 1] == calls[..k] + [calls[k]];
    FlattenSnoc(calls[..k], calls[k]);
    assert (Flatten(calls[..k]) + [Er(calls[k].msg)])[..|Flatten(calls[..k])|] == Flatten(calls[..k]);
  }

  /**
   A consumer that saves the last cursor of every batch and lives through `k` calls:
   what it has saved is exactly how far it got.
   */
  method SaveCursor(calls: seq<Yield>, k: nat, ghost log: seq<Event>, req: PlanRequest, ghost h: nat)
    returns (cursor: Seq)
    requires k <= |calls| && (forall i :: 0 <= i < |calls| && calls[i].Batch? ==> calls[i].events != [])
    requires Exact(Events(Flatten(calls)), log, req, req.afterSeq, h)
    ensures cursor == Horizon(Events(Flatten(calls[..k])), req.afterSeq)
    ensures Exact(Events(Flatten(calls[..k])), log, req, req.afterSeq, cursor) && req.afterSeq <= cursor
  {
    hide Flatten, Events, Exact, Horizon, IsLastCursor;
    cursor := req.afterSeq;
    NothingYet(calls, req.afterSeq);
    for i := 0 to k
      invariant cursor == Horizon(Events(Flatten(calls[..i])), req.afterSeq)
    {
      if calls[i].Batch? {
        cursor := LastCursor(calls[i].events);
        LastCursorIsHorizon(calls, i + 1, log, req, h, cursor);
      } else {
        FailureKeepsHorizon(calls, i, req.afterSeq);
      }
    }
    ExactAtEveryMoment(calls, k, log, req, h);
    HorizonAbove(Events(Flatten(calls[..k])), log, req, req.afterSeq);
  }

  lemma NothingYet(calls: seq<Yield>, lo: nat)
    ensures Horizon(Events(Flatten(calls[..0])), lo) == lo
  {
  }

  /**
   Crash and resume: cut a run after any delivered batch, save that batch's last
   cursor and start afresh after it. Both parts together are the list an
   uninterrupted run would have delivered up to the same point.
   */
  lemma CrashAndResume(calls: seq<Yield>, k: nat, cursor: Seq, rest: seq<Event>,
                       log: seq<Event>, req: PlanRequest, h: nat, h': nat)
    requires IsLog(log)
    requires 0 < k <= |calls| && calls[k - 1].Batch? && calls[k - 1].events != []
    requires Exact(Events(Flatten(calls)), log, req, req.afterSeq, h)
    requires IsLastCursor(calls[k - 1].events, cursor)
    requires cursor <= h' && Exact(rest, log, req.(afterSeq := cursor), cursor, h')
    ensures Events(Flatten(calls[..k])) + rest == Window(log, req, req.afterSeq, h')
  {
    hide Flatten, Events, Exact, Window, Horizon, Ascending, IsLastCursor;
    var held := Events(Flatten(calls[..k]));
    ExactAtEveryMoment(calls, k, log, req, h);
    LastCursorIsHorizon(calls, k, log, req, h, cursor);
    SameFilters(rest, log, req, cursor, h');
    HorizonAbove(held, log, req, req.afterSeq);
    ExactConcat(held, rest, log, req, req.afterSeq, cursor, h');
    ExactIffWindow(held + rest, log, req, req.afterSeq, h');
  }

  lemma HorizonAbove(held: seq<Event>, log: seq<Event>, req: PlanRequest, lo: nat)
    requires Exact(held, log, req, lo, Horizon(held, lo))
    ensures lo <= Horizon(held, lo)
  {
    if held != [] { assert held[|held| - 1] in held; }
  }

  /** The start cursor is not part of the filters. */
  lemma SameFilters(es: seq<Event>, log: seq<Event>, req: PlanRequest, cursor: Seq, h: nat)
    ensures Exact(es, log, req.(afterSeq := cursor), cursor, h) <==> Exact(es, log, req, cursor, h)
  {
    forall e ensures Within(e, log, req.(afterSeq := cursor), cursor, h) <==> Within(e, log, req, cursor, h) {
    }
  }
}
