/**
 The event log a replay is measured against: events with sequence numbers, the
 caller's request, and what it means for a delivered list to be exactly the
 matching part of the log between two sequence numbers.
 */
module EventLog {

  /** The width of the wire sequence number: an unsigned 64-bit integer. */
  const MAX_SEQ: nat := 0xFFFF_FFFF_FFFF_FFFF

  type Seq = s: nat | s <= MAX_SEQ

  datatype Kind = Commit | Identity | Account | Sync | OtherKind

  datatype Event = Event(seqNo: Seq, did: string, kind: Kind, collection: string)

  /** The resolved filter set of a replay. Empty lists match everything. */
  datatype PlanRequest = PlanRequest(
    kinds: seq<Kind>,
    dids: seq<string>,
    collections: seq<string>,
    afterSeq: Seq,
    hasBeforeSeq: bool,
    beforeSeq: Seq)

  predicate HasPrefix(s: string, prefix: string) {
    |prefix| <= |s| && s[..|prefix|] == prefix
  }

  predicate IsWildcard(entry: string) {
    |entry| >= 2 && entry[|entry| - 2..] == ".*"
  }

  /** One collection entry: an exact name, or a namespace ending in ".*". */
  predicate EntryMatches(entry: string, collection: string) {
    if IsWildcard(entry) then HasPrefix(collection, entry[..|entry| - 1])
    else entry == collection
  }

  /** The caller's kind, DID and collection filters, without the sequence window. */
  predicate Passes(req: PlanRequest, e: Event) {
    && (req.kinds == [] || e.kind in req.kinds)
    && (req.dids == [] || e.did in req.dids)
    && (req.collections == [] || e.kind != Commit || e.collection == ""
        || exists i :: 0 <= i < |req.collections| && EntryMatches(req.collections[i], e.collection))
  }

  ghost predicate Ascending(es: seq<Event>) {
    forall i, j :: 0 <= i < j < |es| ==> es[i].seqNo < es[j].seqNo
  }

  /** A log: ascending, and numbered from 1. */
  ghost predicate IsLog(log: seq<Event>) {
    Ascending(log) && forall e :: e in log ==> 1 <= e.seqNo
  }

  ghost predicate Within(e: Event, log: seq<Event>, req: PlanRequest, lo: nat, hi: nat) {
    e in log && Passes(req, e) && lo < e.seqNo <= hi
  }

  /** No gap: every matching event of (lo, hi] is there. */
  ghost predicate Covers(es: seq<Event>, log: seq<Event>, req: PlanRequest, lo: nat, hi: nat) {
    forall e :: Within(e, log, req, lo, hi) ==> e in es
  }

  /** Exactly the matching events of (lo, hi], once each and in ascending order. */
  ghost predicate Exact(es: seq<Event>, log: seq<Event>, req: PlanRequest, lo: nat, hi: nat) {
    && Ascending(es)
    && forall e :: e in es <==> Within(e, log, req, lo, hi)
  }

  /** The reference the delivered list is compared with: filter the log in order. */
  function Window(log: seq<Event>, req: PlanRequest, lo: nat, hi: nat): seq<Event> {
    if log == [] then []
    else
      var rest := Window(log[..|log| - 1], req, lo, hi);
      var e := log[|log| - 1];
      if Passes(req, e) && lo < e.seqNo <= hi then rest + [e] else rest
  }

  lemma SameSeqSameEvent(log: seq<Event>, a: Event, b: Event)
    requires Ascending(log) && a in log && b in log && a.seqNo == b.seqNo
    ensures a == b
  {
    var i :| 0 <= i < |log| && log[i] == a;
    var j :| 0 <= j < |log| && log[j] == b;
    assert i == j;
  }

  /** Two ascending lists with the same members are the same list. */
  lemma {:induction false} SameMembersSameList(a: seq<Event>, b: seq<Event>)
    requires Ascending(a) && Ascending(b)
    requires forall e :: e in a <==> e in b
    ensures a == b
  {
    if a == [] {
      assert forall i :: 0 <= i < |b| ==> b[i] in b;
    } else {
      assert a[|a| - 1] in b;
      assert b[|b| - 1] in a;
      var a', b' := a[..|a| - 1], b[..|b| - 1];
      var last := a[|a| - 1];
      assert b[|b| - 1] == last;
      forall e ensures e in a' <==> e in b' {
        if e in a' { assert e in a && e != last; var k :| 0 <= k < |b| && b[k] == e; assert b'[k] == e; }
        if e in b' { assert e in b && e != last; var k :| 0 <= k < |a| && a[k] == e; assert a'[k] == e; }
      }
      SameMembersSameList(a', b');
      assert a == a' + [last] && b == b' + [last];
    }
  }

  lemma {:induction false} WindowIsExact(log: seq<Event>, req: PlanRequest, lo: nat, hi: nat)
    requires Ascending(log)
    ensures Exact(Window(log, req, lo, hi), log, req, lo, hi)
  {
    if log != [] {
      var init, e := log[..|log| - 1], log[|log| - 1];
      assert log == init + [e];
      WindowIsExact(init, req, lo, hi);
      var rest := Window(init, req, lo, hi);
      forall x ensures x in Window(log, req, lo, hi) <==> Within(x, log, req, lo, hi) {
        assert x in log <==> x in init || x == e;
        assert x in rest <==> Within(x, init, req, lo, hi);
      }
      forall i | 0 <= i < |rest| ensures rest[i].seqNo < e.seqNo {
        assert rest[i] in rest && Within(rest[i], init, req, lo, hi);
      }
    }
  }

  /** `Exact` pins one list down: the order-preserving filter of the log. */
  lemma ExactIffWindow(es: seq<Event>, log: seq<Event>, req: PlanRequest, lo: nat, hi: nat)
    requires Ascending(log)
    ensures Exact(es, log, req, lo, hi) <==> es == Window(log, req, lo, hi)
  {
    WindowIsExact(log, req, lo, hi);
    if Exact(es, log, req, lo, hi) {
      SameMembersSameList(es, Window(log, req, lo, hi));
    }
  }

  lemma ExactNothing(es: seq<Event>, log: seq<Event>, req: PlanRequest, lo: nat, hi: nat)
    requires hi <= lo
    ensures Exact(es, log, req, lo, hi) <==> es == []
  {
    if es != [] { assert es[0] in es; }
  }

  /** Adjacent windows concatenate. */
  lemma ExactConcat(a: seq<Event>, b: seq<Event>, log: seq<Event>, req: PlanRequest, lo: nat, mid: nat, hi: nat)
    requires lo <= mid <= hi
    requires Exact(a, log, req, lo, mid) && Exact(b, log, req, mid, hi)
    ensures Exact(a + b, log, req, lo, hi)
  {
    var c := a + b;
    forall i, j | 0 <= i < j < |c| ensures c[i].seqNo < c[j].seqNo {
      if i < |a| { assert a[i] in a && Within(a[i], log, req, lo, mid); }
      if j >= |a| { assert b[j - |a|] in b && Within(b[j - |a|], log, req, mid, hi); }
    }
    forall e ensures e in c <==> Within(e, log, req, lo, hi) {
      assert e in c <==> e in a || e in b;
      assert Within(e, log, req, lo, hi) <==> Within(e, log, req, lo, mid) || Within(e, log, req, mid, hi);
    }
  }

  lemma CoversConcat(a: seq<Event>, b: seq<Event>, log: seq<Event>, req: PlanRequest, lo: nat, mid: nat, hi: nat)
    requires Covers(a, log, req, lo, mid) && Covers(b, log, req, mid, hi)
    ensures Covers(a + b, log, req, lo, hi)
  {
    forall e | Within(e, log, req, lo, hi) ensures e in a + b {
      if e.seqNo <= mid { assert Within(e, log, req, lo, mid); } else { assert Within(e, log, req, mid, hi); }
    }
  }

  /** The highest sequence number of a list, or `lo` when it is empty. */
  function Horizon(es: seq<Event>, lo: nat): nat {
    if es == [] then lo else es[|es| - 1].seqNo
  }

  /** Cutting an exact delivery anywhere leaves an exact delivery up to the cut. */
  lemma ExactPrefix(es: seq<Event>, n: nat, log: seq<Event>, req: PlanRequest, lo: nat, hi: nat)
    requires n <= |es| && Exact(es, log, req, lo, hi)
    ensures Exact(es[..n], log, req, lo, Horizon(es[..n], lo))
    ensures lo <= Horizon(es[..n], lo) && (Horizon(es[..n], lo) <= hi || n == 0)
  {
    var p := es[..n];
    var h := Horizon(p, lo);
    if n > 0 { assert es[n - 1] in es && Within(es[n - 1], log, req, lo, hi); }
    forall e ensures e in p <==> Within(e, log, req, lo, h) {
      if e in p {
        var k :| 0 <= k < n && p[k] == e;
        assert es[k] == e && e in es && Within(e, log, req, lo, hi);
      }
      if Within(e, log, req, lo, h) {
        assert Within(e, log, req, lo, hi) && e in es;
        var k :| 0 <= k < |es| && es[k] == e;
        assert k < n;
        assert p[k] == e;
      }
    }
  }
}
