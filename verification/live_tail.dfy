/**
 The live tail (jetstream/live.go): sessions that dial, read, deduplicate by
 sequence number and reconnect. The server, the network and the flusher's timer
 are the script of sessions and frames the consumer runs against.
 */
module LiveTail {
  import opened Common
  import opened EventLog
  import opened RowMatcher
  import opened Delivery

  /** What one read of a session brings, or a flush tick of the timer goroutine in between. */
  datatype Frame =
    | Data(event: Event)
    | Advisory
    | Malformed(msg: string)
    | StreamError
    | Tick

  datatype Refusal = CursorTooOld | InvalidRequest | DictRejected | Unreachable

  /**
   One connection attempt. `tip` is the server's newest sequence number when it
   accepted the connection; it only matters when no cursor was sent.
   */
  datatype Session =
    | Refused(why: Refusal, cancelled: bool)
    | Connected(frames: seq<Frame>, tip: Seq, cancelled: bool)

  datatype SessionEnd = EmitStop | Rejected(why: Refusal) | Broken

  datatype RunEnd = Clean | TooOld | Invalid

  /**
   The replay promise of the server: before a frame arrives, every matching
   event from `start` up to it has arrived in the same session.
   */
  ghost predicate Gapless(frames: seq<Frame>, start: nat, log: seq<Event>, req: PlanRequest) {
    forall i, e :: 0 <= i < |frames| && frames[i].Data? && e in log && Passes(req, e)
                   && start <= e.seqNo < frames[i].event.seqNo
               ==> Data(e) in frames[..i]
  }

  ghost predicate FramesConform(frames: seq<Frame>, start: nat, fromTip: bool, log: seq<Event>, req: PlanRequest) {
    && Gapless(frames, start, log, req)
    && (forall i :: 0 <= i < |frames| && frames[i].Data? ==>
          frames[i].event in log && (fromTip ==> start <= frames[i].event.seqNo))
  }

  ghost predicate SessionConforms(s: Session, wire: Option<Seq>, log: seq<Event>, req: PlanRequest) {
    s.Connected? ==>
      FramesConform(s.frames, if wire.Some? then wire.value else s.tip + 1, wire.None?, log, req)
  }

  /** The i-th connection of a tail, given the cursor it is dialled with. */
  type Dialer = (nat, Option<Seq>) -> Session

  /** Every connection keeps the replay promise for the cursor it was given. */
  ghost predicate DialConforms(dial: Dialer, log: seq<Event>, req: PlanRequest) {
    forall i: nat, wire: Option<Seq> :: SessionConforms(dial(i, wire), wire, log, req)
  }

  /** For every server: strictly increasing, above the floor, and only what was asked for. */
  ghost predicate Sound(got: seq<Event>, req: PlanRequest, floor: nat, last: nat) {
    Ascending(got) && forall e :: e in got ==> floor < e.seqNo <= last && Passes(req, e)
  }

  lemma SoundEmpty(req: PlanRequest, floor: nat, last: nat)
    ensures Sound([], req, floor, last)
  {
  }

  lemma SoundWiden(got: seq<Event>, req: PlanRequest, floor: nat, last: nat, last': nat)
    requires Sound(got, req, floor, last) && last <= last'
    ensures Sound(got, req, floor, last')
  {
  }

  lemma SoundSnoc(got: seq<Event>, req: PlanRequest, floor: nat, last: nat, e: Event)
    requires Sound(got, req, floor, last) && floor <= last < e.seqNo && Passes(req, e)
    ensures Sound(got + [e], req, floor, e.seqNo)
  {
    assert forall k :: 0 <= k < |got| ==> got[k] in got;
  }

  lemma SoundConcat(a: seq<Event>, b: seq<Event>, req: PlanRequest, floor: nat, mid: nat, last: nat)
    requires Sound(a, req, floor, mid) && Sound(b, req, mid, last) && floor <= mid <= last
    ensures Sound(a + b, req, floor, last)
  {
    assert forall k :: 0 <= k < |a| ==> a[k] in a;
    assert forall k :: 0 <= k < |b| ==> b[k] in b;
  }

  /** After `i` frames of a conforming session: exactly the matching events up to `last`. */
  ghost predicate Caught(frames: seq<Frame>, i: nat, got: seq<Event>, base: nat, last: nat,
                         log: seq<Event>, req: PlanRequest)
    requires i <= |frames|
  {
    && Exact(got, log, req, base, last)
    && (forall j :: 0 <= j < i && frames[j].Data? ==> frames[j].event.seqNo <= last)
  }

  /** One more data frame keeps the delivery exact, whether it is fresh or an overlap. */
  lemma CaughtFrame(frames: seq<Frame>, i: nat, got: seq<Event>, base: nat, last: nat,
                    log: seq<Event>, req: PlanRequest, start: nat, took: seq<Event>, now: nat)
    requires i < |frames| && frames[i].Data? && Caught(frames, i, got, base, last, log, req)
    requires Ascending(log) && frames[i].event in log
    requires Gapless(frames, start, log, req) && start <= base + 1
    requires frames[i].event.seqNo > last ==> frames[i].event.seqNo > base
    requires took == if frames[i].event.seqNo > last && Passes(req, frames[i].event) then [frames[i].event] else []
    requires now == if frames[i].event.seqNo > last then frames[i].event.seqNo else last
    ensures Caught(frames, i + 1, got + took, base, now, log, req)
  {
    var ev := frames[i].event;
    assert got + [] == got;
    if ev.seqNo > last {
      var got' := got + took;
      forall e ensures e in got' <==> Within(e, log, req, base, ev.seqNo) {
        assert e in got <==> Within(e, log, req, base, last);
        if Within(e, log, req, base, ev.seqNo) && e.seqNo < ev.seqNo {
          assert Data(e) in frames[..i];
          var j :| 0 <= j < i && frames[j] == Data(e);
        }
        if e in log && e.seqNo == ev.seqNo { SameSeqSameEvent(log, e, ev); }
      }
      assert forall k :: 0 <= k < |got| ==> got[k] in got;
    }
  }

  function StartOf(s: Session, wire: Option<Seq>): nat
    requires s.Connected?
  {
    if wire.Some? then wire.value else s.tip + 1
  }

  /** Where a session stands after `i` frames, if its server conforms. */
  ghost predicate Tracking(s: Session, wire: Option<Seq>, i: nat, got: seq<Event>, base: nat, last: nat,
                           log: seq<Event>, req: PlanRequest)
    requires s.Connected? && i <= |s.frames|
  {
    && StartOf(s, wire) <= base + 1 && (wire.None? ==> base < StartOf(s, wire))
    && (SessionConforms(s, wire, log, req) ==> Caught(s.frames, i, got, base, last, log, req))
  }

  lemma TrackStart(s: Session, wire: Option<Seq>, base: nat, last: nat, log: seq<Event>, req: PlanRequest)
    requires s.Connected? && last <= base
    requires StartOf(s, wire) <= base + 1 && (wire.None? ==> base < StartOf(s, wire))
    ensures Tracking(s, wire, 0, [], base, last, log, req)
  {
  }

  lemma TrackOther(s: Session, wire: Option<Seq>, i: nat, got: seq<Event>, base: nat, last: nat,
                   log: seq<Event>, req: PlanRequest)
    requires s.Connected? && i < |s.frames| && !s.frames[i].Data?
    requires Tracking(s, wire, i, got, base, last, log, req)
    ensures Tracking(s, wire, i + 1, got, base, last, log, req)
  {
  }

  lemma TrackData(s: Session, wire: Option<Seq>, i: nat, got: seq<Event>, base: nat, last: nat,
                  log: seq<Event>, req: PlanRequest, took: seq<Event>, now: nat)
    requires s.Connected? && i < |s.frames| && s.frames[i].Data? && Ascending(log)
    requires Tracking(s, wire, i, got, base, last, log, req) && (wire.Some? ==> base <= last)
    requires took == if s.frames[i].event.seqNo > last && Passes(req, s.frames[i].event)
                     then [s.frames[i].event] else []
    requires now == if s.frames[i].event.seqNo > last then s.frames[i].event.seqNo else last
    ensures Tracking(s, wire, i + 1, got + took, base, now, log, req)
    ensures SessionConforms(s, wire, log, req) && now > last ==> base < now
  {
    if SessionConforms(s, wire, log, req) {
      CaughtFrame(s.frames, i, got, base, last, log, req, StartOf(s, wire), took, now);
    }
  }

  /** Even an event nobody took moves the last sequence number past where a conforming session began. */
  lemma TrackLast(s: Session, wire: Option<Seq>, i: nat, got: seq<Event>, base: nat, last: nat,
                  log: seq<Event>, req: PlanRequest, now: nat)
    requires s.Connected? && i < |s.frames| && s.frames[i].Data? && Ascending(log)
    requires Tracking(s, wire, i, got, base, last, log, req) && (wire.Some? ==> base <= last)
    requires now == if s.frames[i].event.seqNo > last then s.frames[i].event.seqNo else last
    ensures SessionConforms(s, wire, log, req) && now > last ==> base < now
  {
  }

  lemma TrackEnd(s: Session, wire: Option<Seq>, i: nat, got: seq<Event>, base: nat, last: nat,
                 log: seq<Event>, req: PlanRequest)
    requires s.Connected? && i <= |s.frames| && Tracking(s, wire, i, got, base, last, log, req)
    ensures SessionConforms(s, wire, log, req) ==> Exact(got, log, req, base, last)
  {
  }

  // ---- what a tail hears, told from the frames alone ----

  /** Where a tail stands: the highest number it heard or started from, and whether it heard any. */
  datatype Mark = Mark(last: Seq, seen: bool)

  function Hear(f: Frame, m: Mark): Mark {
    if f.Data? && f.event.seqNo > m.last then Mark(f.event.seqNo, true) else m
  }

  /** What one frame hands to the consumer. */
  function ItemsOf(f: Frame, m: Mark, req: PlanRequest): seq<Item> {
    match f
    case Data(e) => if e.seqNo > m.last && Passes(req, e) then [Ev(e)] else []
    case Malformed(msg) => [Er(msg)]
    case _ => []
  }

  /** The frames that are read: a stream error ends the session. */
  function Readable(frames: seq<Frame>): seq<Frame> {
    if frames == [] || frames[0].StreamError? then [] else [frames[0]] + Readable(frames[1..])
  }

  function Listen(frames: seq<Frame>, m: Mark): Mark {
    if frames == [] then m else Hear(frames[|frames| - 1], Listen(frames[..|frames| - 1], m))
  }

  function Handed(frames: seq<Frame>, m: Mark, req: PlanRequest): seq<Item> {
    if frames == [] then []
    else
      var init := frames[..|frames| - 1];
      Handed(init, m, req) + ItemsOf(frames[|frames| - 1], Listen(init, m), req)
  }

  function SessionMark(s: Session, m: Mark): Mark {
    if s.Connected? then Listen(Readable(s.frames), m) else m
  }

  function SessionItems(s: Session, m: Mark, req: PlanRequest): seq<Item> {
    if s.Connected? then Handed(Readable(s.frames), m, req) else []
  }

  lemma {:induction false} ReadableUpTo(frames: seq<Frame>, i: nat)
    requires i <= |frames| && (forall j :: 0 <= j < i ==> !frames[j].StreamError?)
    requires i == |frames| || frames[i].StreamError?
    ensures Readable(frames) == frames[..i]
  {
    if i > 0 {
      ReadableUpTo(frames[1..], i - 1);
      assert [frames[0]] + frames[1..][..i - 1] == frames[..i];
    }
  }

  lemma HandedSnoc(frames: seq<Frame>, i: nat, m: Mark, req: PlanRequest)
    requires i < |frames|
    ensures Listen(frames[..i + 1], m) == Hear(frames[i], Listen(frames[..i], m))
    ensures Handed(frames[..i + 1], m, req)
         == Handed(frames[..i], m, req) + ItemsOf(frames[i], Listen(frames[..i], m), req)
  {
    assert frames[..i + 1][..i] == frames[..i];
  }

  /** Every number among the frames read is behind the mark. */
  lemma {:induction false} ListenCovers(frames: seq<Frame>, m: Mark, j: nat)
    ensures m.last <= Listen(frames, m).last
    ensures j < |frames| && frames[j].Data? ==> frames[j].event.seqNo <= Listen(frames, m).last
  {
    if frames != [] { ListenCovers(frames[..|frames| - 1], m, j); }
  }

  /** What was accepted of the items so far: all of them, or a prefix once the consumer stopped. */
  ghost predicate Handing(before: seq<Item>, accepted: seq<Item>, items: seq<Item>, stopped: bool) {
    accepted <= before + items && (!stopped ==> accepted == before + items)
  }

  lemma HandingStart(before: seq<Item>, stopped: bool)
    ensures Handing(before, before, [], stopped)
  {
    assert before + [] == before;
  }

  lemma HandingMore(before: seq<Item>, accepted: seq<Item>, items: seq<Item>, stopped: bool, more: seq<Item>,
                    accepted': seq<Item>, stopped': bool)
    requires Handing(before, accepted, items, stopped) && (stopped ==> stopped')
    requires Handing(accepted, accepted', more, stopped') && (stopped ==> accepted' == accepted)
    ensures Handing(before, accepted', items + more, stopped')
  {
    Assoc(before, items, more);
  }

  /** A stopped consumer has a prefix of whatever else would have followed. */
  lemma HandingWiden(before: seq<Item>, accepted: seq<Item>, items: seq<Item>, stopped: bool, more: seq<Item>)
    requires Handing(before, accepted, items, stopped)
    ensures stopped ==> Handing(before, accepted, items + more, stopped)
  {
    Assoc(before, items, more);
  }

  lemma HandingError(accepted: seq<Item>, accepted': seq<Item>, stopped: bool, stopped': bool, msg: string)
    requires accepted' == accepted || accepted' == accepted + [Er(msg)]
    requires stopped' || accepted' == accepted + [Er(msg)]
    ensures Handing(accepted, accepted', [Er(msg)], stopped')
  {
  }

  /** A session after `i` frames: the mark and what was handed on are those of the frames. */
  ghost predicate Reading(frames: seq<Frame>, i: nat, start: Mark, mark: Mark, before: seq<Item>, accepted: seq<Item>,
                          stopped: bool, req: PlanRequest)
  {
    && i <= |frames| && (forall j :: 0 <= j < i ==> !frames[j].StreamError?)
    && mark == Listen(frames[..i], start)
    && Handing(before, accepted, Handed(frames[..i], start, req), stopped)
  }

  lemma ReadingStart(frames: seq<Frame>, start: Mark, before: seq<Item>, stopped: bool, req: PlanRequest)
    ensures Reading(frames, 0, start, start, before, before, stopped, req)
  {
    HandingStart(before, stopped);
  }

  lemma ReadingStep(frames: seq<Frame>, i: nat, start: Mark, mark: Mark, before: seq<Item>, accepted: seq<Item>,
                    stopped: bool, req: PlanRequest, accepted': seq<Item>, stopped': bool)
    requires Reading(frames, i, start, mark, before, accepted, stopped, req)
    requires i < |frames| && !frames[i].StreamError? && (stopped ==> stopped' && accepted' == accepted)
    requires Handing(accepted, accepted', ItemsOf(frames[i], mark, req), stopped')
    ensures Reading(frames, i + 1, start, Hear(frames[i], mark), before, accepted', stopped', req)
  {
    hide Handing;
    HandedSnoc(frames, i, start, req);
    HandingMore(before, accepted, Handed(frames[..i], start, req), stopped, ItemsOf(frames[i], mark, req), accepted',
                stopped');
  }

  lemma ReadingEnd(s: Session, i: nat, start: Mark, mark: Mark, before: seq<Item>, accepted: seq<Item>, stopped: bool,
                   req: PlanRequest)
    requires s.Connected? && Reading(s.frames, i, start, mark, before, accepted, stopped, req)
    requires i == |s.frames| || s.frames[i].StreamError?
    ensures mark == SessionMark(s, start) && Handing(before, accepted, SessionItems(s, start, req), stopped)
  {
    ReadableUpTo(s.frames, i);
  }

  lemma RefusedSession(s: Session, start: Mark, before: seq<Item>, stopped: bool, req: PlanRequest)
    requires s.Refused?
    ensures SessionMark(s, start) == start && Handing(before, before, SessionItems(s, start, req), stopped)
  {
    HandingStart(before, stopped);
  }

  /** A consumer that stopped part way has a prefix of what the session would have handed on. */
  lemma ReadingCut(s: Session, i: nat, start: Mark, mark: Mark, before: seq<Item>, accepted: seq<Item>,
                   req: PlanRequest)
    requires s.Connected? && Reading(s.frames, i, start, mark, before, accepted, true, req)
    ensures Handing(before, accepted, SessionItems(s, start, req), true)
  {
    var whole := Readable(s.frames);
    ReadableAhead(s.frames, i);
    HandedPrefix(whole, i, start, req);
    assert before + Handed(whole[..i], start, req) <= before + Handed(whole, start, req);
  }

  lemma {:induction false} ReadableAhead(frames: seq<Frame>, i: nat)
    requires i <= |frames| && forall j :: 0 <= j < i ==> !frames[j].StreamError?
    ensures i <= |Readable(frames)| && Readable(frames)[..i] == frames[..i]
  {
    if i > 0 {
      ReadableAhead(frames[1..], i - 1);
      assert Readable(frames)[..i] == [frames[0]] + Readable(frames[1..])[..i - 1];
      assert frames[..i] == [frames[0]] + frames[1..][..i - 1];
    }
  }

  lemma {:induction false} HandedPrefix(frames: seq<Frame>, i: nat, m: Mark, req: PlanRequest)
    requires i <= |frames|
    ensures Handed(frames[..i], m, req) <= Handed(frames, m, req)
    decreases |frames|
  {
    if i == |frames| {
      assert frames[..i] == frames;
    } else {
      assert frames[..|frames| - 1][..i] == frames[..i];
      HandedPrefix(frames[..|frames| - 1], i, m, req);
    }
  }

  /** A session after which the tail reconnects. */
  predicate Transient(s: Session) {
    !s.cancelled && !(s.Refused? && (s.why.CursorTooOld? || s.why.InvalidRequest?))
  }

  /** A connection attempt: the cursor sent and what the endpoint made of it. */
  datatype Dial = Dial(wire: Option<Seq>, session: Session)

  /**
   The tail reconnects after every transient session and ends only for a reason:
   the server refused for good, the consumer stopped, or the context was cancelled,
   in or after a session.
   */
  ghost predicate KeptDialing(dialed: seq<Dial>, dial: Dialer, limit: nat, end: RunEnd, stopped: bool) {
    var n := |dialed|;
    && n <= limit
    && (forall i :: 0 <= i < n ==> dialed[i].session == dial(i, dialed[i].wire))
    && (forall i :: 0 <= i < n - 1 ==> Transient(dialed[i].session))
    && (end.TooOld? ==> n > 0 && dialed[n - 1].session == Refused(CursorTooOld, false))
    && (end.Invalid? ==> n > 0 && dialed[n - 1].session == Refused(InvalidRequest, false))
    && (end.Clean? && !stopped ==>
          (n == limit && (n > 0 ==> Transient(dialed[n - 1].session))) || (n > 0 && dialed[n - 1].session.cancelled))
  }

  const RECONNECTING := "live tail reconnecting"

  /** The mark after some connection attempts. */
  function TailMark(dialed: seq<Dial>, m: Mark): Mark {
    if dialed == [] then m else SessionMark(dialed[|dialed| - 1].session, TailMark(dialed[..|dialed| - 1], m))
  }

  /** What they hand to the consumer, each disconnect that is followed by another attempt included. */
  function TailItems(dialed: seq<Dial>, m: Mark, req: PlanRequest): seq<Item> {
    if dialed == [] then []
    else
      var init, s := dialed[..|dialed| - 1], dialed[|dialed| - 1].session;
      TailItems(init, m, req) + SessionItems(s, TailMark(init, m), req)
      + (if Transient(s) then [Er(RECONNECTING)] else [])
  }

  /** The cursor a tail asks for: what it heard last, else the one it was given, else the tip. */
  function Asked(cursor: Seq, fromTip: bool, m: Mark): Option<Seq> {
    if m.seen then Some(m.last) else if !fromTip then Some(cursor) else None
  }

  /** Every attempt asks for what comes after all that was heard before it. */
  ghost predicate AskedOn(dialed: seq<Dial>, cursor: Seq, fromTip: bool, m: Mark) {
    forall i :: 0 <= i < |dialed| ==> dialed[i].wire == Asked(cursor, fromTip, TailMark(dialed[..i], m))
  }

  lemma TailStart(cursor: Seq, fromTip: bool, m: Mark, before: seq<Item>, stopped: bool, req: PlanRequest)
    ensures AskedOn([], cursor, fromTip, m) && TailMark([], m) == m
    ensures Handing(before, before, TailItems([], m, req), stopped)
  {
    HandingStart(before, stopped);
  }

  lemma AskedSnoc(dialed: seq<Dial>, cursor: Seq, fromTip: bool, m: Mark, d: Dial)
    requires AskedOn(dialed, cursor, fromTip, m) && d.wire == Asked(cursor, fromTip, TailMark(dialed, m))
    ensures AskedOn(dialed + [d], cursor, fromTip, m)
    ensures TailMark(dialed + [d], m) == SessionMark(d.session, TailMark(dialed, m))
  {
    var all := dialed + [d];
    assert all[..|dialed|] == dialed;
    forall i | 0 <= i < |all| ensures all[i].wire == Asked(cursor, fromTip, TailMark(all[..i], m)) {
      if i < |dialed| { assert all[..i] == dialed[..i]; }
    }
  }

  lemma TailItemsSnoc(dialed: seq<Dial>, m: Mark, req: PlanRequest, d: Dial)
    ensures TailItems(dialed + [d], m, req) ==
            TailItems(dialed, m, req) + SessionItems(d.session, TailMark(dialed, m), req)
            + (if Transient(d.session) then [Er(RECONNECTING)] else [])
  {
    assert (dialed + [d])[..|dialed|] == dialed;
  }

  /** No readable data frame of any attempt is ahead of the mark. */
  lemma {:induction false} TailHeard(dialed: seq<Dial>, m: Mark, i: nat, j: nat)
    ensures m.last <= TailMark(dialed, m).last
    ensures i < |dialed| && dialed[i].session.Connected? && j < |dialed[i].session.frames|
            && dialed[i].session.frames[j].Data? && StreamError !in dialed[i].session.frames[..j] ==>
              dialed[i].session.frames[j].event.seqNo <= TailMark(dialed, m).last
  {
    if dialed != [] {
      var init, s := dialed[..|dialed| - 1], dialed[|dialed| - 1].session;
      TailHeard(init, m, i, j);
      if s.Connected? {
        ListenCovers(Readable(s.frames), TailMark(init, m), j);
        if j < |s.frames| && StreamError !in s.frames[..j] && !s.frames[j].StreamError? { ReadableAt(s.frames, j); }
      }
    }
  }

  lemma {:induction false} ReadableAt(frames: seq<Frame>, j: nat)
    requires j < |frames| && StreamError !in frames[..j] && !frames[j].StreamError?
    ensures j < |Readable(frames)| && Readable(frames)[j] == frames[j]
  {
    if j > 0 {
      assert frames[0] in frames[..j];
      assert frames[1..][..j - 1] == frames[..j][1..];
      ReadableAt(frames[1..], j - 1);
    }
  }

  /** Where a tail without a cursor begins: the tip of its last connection that sent none. */
  function TipOf(dialed: seq<Dial>): nat {
    if dialed == [] then 0
    else
      var d := dialed[|dialed| - 1];
      if d.wire.Some? then TipOf(dialed[..|dialed| - 1])
      else if d.session.Connected? then d.session.tip
      else 0
  }

  class LiveConsumer {
    const cursor: Seq
    const fromTip: bool
    var lastSeq: Seq
    var seenAny: bool

    constructor (cursor: Seq, fromTip: bool, dedupFloor: Seq)
      ensures lastSeq == dedupFloor && !seenAny
      ensures this.cursor == cursor && this.fromTip == fromTip
    {
      this.cursor, this.fromTip := cursor, fromTip;
      lastSeq, seenAny := dedupFloor, false;
    }

    ghost function Stands(): Mark
      reads this
    {
      Mark(lastSeq, seenAny)
    }

    /** The cursor sent on the next connection; none asks for the live tip. */
    function WireCursor(): Option<Seq>
      reads this
    {
      if seenAny then Some(lastSeq) else if !fromTip then Some(cursor) else None
    }

    /** A resumed connection never asks past the first event it still needs. */
    ghost predicate Anchored()
      reads this
    {
      (!fromTip ==> cursor <= lastSeq + 1) && (fromTip && !seenAny ==> lastSeq == 0)
    }

    /** Below this the current session owes nothing. */
    ghost function Base(s: Session): nat
      reads this
    {
      if WireCursor().None? && s.Connected? then s.tip else lastSeq
    }

    /** One decoded event: drop the overlap, advance, and hand on what the matcher wants. */
    method Deliver(ev: Event, m: Matcher, b: Batcher, ghost req: PlanRequest)
      returns (ok: bool, ghost took: seq<Event>)
      requires b.Open() && m.Represents(req) && !req.hasBeforeSeq && m.afterSeq <= lastSeq
      modifies this, b, b.out
      ensures b.Open() && b.taken == old(b.taken) + took && (old(b.stop) ==> b.stop)
      ensures b.accepted == old(b.accepted) + (if took != [] then [Ev(ev)] else [])
      ensures ev.seqNo <= old(lastSeq) ==> lastSeq == old(lastSeq) && seenAny == old(seenAny) && took == [] && ok
      ensures ev.seqNo > old(lastSeq) ==>
                && lastSeq == ev.seqNo && seenAny
                && took == (if Passes(req, ev) && !old(b.stop) then [ev] else [])
                && (ok <==> !Passes(req, ev) || !b.stop)
    {
      took := [];
      if ev.seqNo <= lastSeq { return true, took; }
      var wanted := m.Wants(ev, req);
      lastSeq := ev.seqNo;
      seenAny := true;
      if !wanted { return true, took; }
      took := if b.stop then [] else [ev];
      ok := b.Add(ev);
    }

    /** A data frame of a session: the delivery stays sound and, in a conforming session, exact. */
    method OnData(s: Session, i: nat, m: Matcher, b: Batcher, ghost wire: Option<Seq>, ghost base: nat,
                  ghost floor: nat, ghost had: seq<Event>, ghost got: seq<Event>, ghost log: seq<Event>,
                  ghost req: PlanRequest)
      returns (ok: bool, ghost all: seq<Event>, ghost horizon: nat)
      requires s.Connected? && i < |s.frames| && s.frames[i].Data? && IsLog(log)
      requires b.Open() && Anchored() && b.taken == had + got
      requires m.Represents(req) && !req.hasBeforeSeq && m.afterSeq <= lastSeq
      requires floor <= lastSeq && Sound(got, req, floor, lastSeq)
      requires Tracking(s, wire, i, got, base, lastSeq, log, req) && (wire.Some? ==> base <= lastSeq)
      modifies this, b, b.out
      ensures b.Open() && Anchored() && b.taken == had + all
      ensures old(lastSeq) <= lastSeq && s.frames[i].event.seqNo <= lastSeq && (old(seenAny) ==> seenAny)
      ensures Stands() == Hear(s.frames[i], old(Stands()))
      ensures Handing(old(b.accepted), b.accepted, ItemsOf(s.frames[i], old(Stands()), req), b.stop)
      ensures old(b.stop) ==> b.stop && b.accepted == old(b.accepted)
      ensures Sound(all, req, floor, lastSeq)
      ensures !seenAny ==> all == got && lastSeq == old(lastSeq)
      ensures SessionConforms(s, wire, log, req) && lastSeq > old(lastSeq) ==> base < lastSeq
      ensures seenAny && !old(seenAny) ==> lastSeq > old(lastSeq)
      ensures ok ==> horizon == lastSeq && Tracking(s, wire, i + 1, all, base, lastSeq, log, req)
      ensures !ok ==> b.stop && old(lastSeq) <= horizon
      ensures !ok && SessionConforms(s, wire, log, req) ==> Exact(all, log, req, base, horizon)
    {
      hide Batcher.Open, Batcher.Valid, Exact, Sound, Passes, SessionConforms, Tracking, Matcher.Represents;
      ghost var last := lastSeq;
      TrackEnd(s, wire, i, got, base, last, log, req);
      ghost var took;
      ok, took := Deliver(s.frames[i].event, m, b, req);
      SoundWiden(got, req, floor, last, lastSeq);
      assert got + [] == got;
      all, horizon := got, last;
      if ok || took != [] {
        if took != [] { SoundSnoc(got, req, floor, last, s.frames[i].event); }
        Assoc(had, got, took);
        TrackData(s, wire, i, got, base, last, log, req, took, lastSeq);
        all, horizon := got + took, lastSeq;
        TrackEnd(s, wire, i + 1, all, base, lastSeq, log, req);
      } else {
        TrackLast(s, wire, i, got, base, last, log, req, lastSeq);
      }
    }

    /** A frame that carries no event: a malformed one is reported, a tick flushes, an advisory is only logged. */
    method OnOther(f: Frame, b: Batcher, ghost req: PlanRequest) returns (ok: bool)
      requires b.Open() && !f.Data? && !f.StreamError?
      modifies b, b.out
      ensures b.Open() && b.taken == old(b.taken) && (!ok ==> b.stop) && Hear(f, Stands()) == Stands()
      ensures Handing(old(b.accepted), b.accepted, ItemsOf(f, Stands(), req), b.stop)
      ensures old(b.stop) ==> b.stop && b.accepted == old(b.accepted)
      ensures f.Tick? ==> b.buf == []
    {
      ok := true;
      match f
      case Malformed(msg) => ok := b.EmitError(msg);
      case Tick => var _ := b.Flush();
      case _ =>
    }

    /** One connection: dial, then read, deduplicate and emit until an error or a stop. */
    method RunSession(s: Session, m: Matcher, b: Batcher, ghost log: seq<Event>, ghost req: PlanRequest)
      returns (end: SessionEnd, ghost got: seq<Event>, ghost horizon: nat)
      requires b.Open() && Anchored() && IsLog(log)
      requires m.Represents(req) && !req.hasBeforeSeq && m.afterSeq <= lastSeq
      modifies this, b, b.out
      ensures b.Open() && Anchored() && b.taken == old(b.taken) + got
      ensures old(lastSeq) <= lastSeq && (old(seenAny) ==> seenAny)
      ensures Sound(got, req, old(lastSeq), lastSeq)
      ensures !seenAny ==> got == [] && lastSeq == old(lastSeq)
      ensures end.EmitStop? ==> b.stop
      ensures !end.EmitStop? ==> horizon == lastSeq
      ensures if s.Refused? then end == Rejected(s.why) else !end.Rejected?
      // No frame is skipped, and none hands on more or less than it should.
      ensures !end.EmitStop? ==> Stands() == SessionMark(s, old(Stands()))
      ensures Handing(old(b.accepted), b.accepted, SessionItems(s, old(Stands()), req), b.stop)
      ensures old(b.stop) ==> b.stop && b.accepted == old(b.accepted)
      ensures SessionConforms(s, old(WireCursor()), log, req) ==>
                && Exact(got, log, req, old(Base(s)), horizon)
                && (old(WireCursor()).Some? || (seenAny && !end.EmitStop?) ==> old(Base(s)) <= horizon)
    {
      hide Batcher.Open, Batcher.Valid, Exact, Sound, Passes, SessionConforms, Tracking, Matcher.Represents, Reading,
           Handing, Hear, ItemsOf, SessionMark, SessionItems;
      got, horizon := [], lastSeq;
      SoundEmpty(req, lastSeq, lastSeq);
      ghost var wire, base, start := WireCursor(), Base(s), Stands();
      if s.Refused? {
        ExactNothing([], log, req, base, lastSeq);
        RefusedSession(s, start, b.accepted, b.stop, req);
        end := Rejected(s.why);
        return;
      }
      TrackStart(s, wire, base, lastSeq, log, req);
      ReadingStart(s.frames, start, b.accepted, b.stop, req);
      var i := 0;
      while i < |s.frames|
        invariant 0 <= i <= |s.frames|
        invariant b.Open() && Anchored() && b.taken == old(b.taken) + got
        invariant old(lastSeq) <= lastSeq && (old(seenAny) ==> seenAny)
        invariant Sound(got, req, old(lastSeq), lastSeq)
        invariant !seenAny ==> got == [] && lastSeq == old(lastSeq)
        invariant horizon == lastSeq
        invariant Reading(s.frames, i, start, Stands(), old(b.accepted), b.accepted, b.stop, req)
        invariant old(b.stop) ==> b.stop && b.accepted == old(b.accepted)
        invariant Tracking(s, wire, i, got, base, lastSeq, log, req)
        invariant SessionConforms(s, wire, log, req) && seenAny ==> base <= lastSeq
      {
        TrackEnd(s, wire, i, got, base, lastSeq, log, req);
        if s.frames[i].StreamError? {
          ReadingEnd(s, i, start, Stands(), old(b.accepted), b.accepted, b.stop, req);
          end := Broken;
          return;
        }
        ghost var mark, accepted, stopped := Stands(), b.accepted, b.stop;
        var ok := true;
        if s.frames[i].Data? {
          ok, got, horizon := OnData(s, i, m, b, wire, base, old(lastSeq), old(b.taken), got, log, req);
        } else {
          ok := OnOther(s.frames[i], b, req);
          TrackOther(s, wire, i, got, base, lastSeq, log, req);
        }
        ReadingStep(s.frames, i, start, mark, old(b.accepted), accepted, stopped, req, b.accepted, b.stop);
        if !ok {
          ReadingCut(s, i + 1, start, Stands(), old(b.accepted), b.accepted, req);
          end := EmitStop;
          return;
        }
        i := i + 1;
      }
      TrackEnd(s, wire, i, got, base, lastSeq, log, req);
      ReadingEnd(s, i, start, Stands(), old(b.accepted), b.accepted, b.stop, req);
      end := Broken;
    }

    /** One attempt and, if the tail goes on after it, the report of the disconnect. */
    method Attempt(s: Session, m: Matcher, b: Batcher, ghost tail: Tail, ghost dialed: seq<Dial>, ghost got: seq<Event>)
      returns (end: Option<RunEnd>, ghost all: seq<Event>, ghost horizon: nat)
      requires b.Open() && Anchored() && IsLog(tail.log) && b.taken == tail.taken + got
      requires m.Represents(tail.req) && !tail.req.hasBeforeSeq && m.afterSeq <= lastSeq
      requires tail.cursor == cursor && tail.fromTip == fromTip
      requires Along(tail, dialed, Stands(), b.accepted, b.stop)
      requires Delivering(tail, dialed, got, Stands(), lastSeq)
      requires tail.conforming ==> SessionConforms(s, WireCursor(), tail.log, tail.req)
      modifies this, b, b.out
      ensures b.Open() && Anchored() && b.taken == tail.taken + all && old(lastSeq) <= lastSeq
      ensures end.None? ==>
                && Transient(s) && horizon == lastSeq
                && Along(tail, dialed + [Dial(old(WireCursor()), s)], Stands(), b.accepted, b.stop)
                && Delivering(tail, dialed + [Dial(old(WireCursor()), s)], all, Stands(), lastSeq)
      ensures end.Some? ==>
                && EndsFor(s, end.value, b.stop)
                && (end.value != Clean || !b.stop ==> horizon == lastSeq)
                && Finished(tail, dialed + [Dial(old(WireCursor()), s)], all, Stands(), horizon, b.accepted, b.stop,
                            end.value)
    {
      hide Batcher.Open, Batcher.Valid, Exact, Sound, SessionConforms, Matcher.Represents, Handing, Along, Delivering,
           Finished, SessionMark, SessionItems, TipOf, TailMark, TailItems;
      ghost var mark, wire, base, accepted, stopped := Stands(), WireCursor(), Base(s), b.accepted, b.stop;
      var e: SessionEnd;
      ghost var more;
      e, more, horizon := RunSession(s, m, b, tail.log, tail.req);
      Assoc(tail.taken, got, more);
      all := got + more;
      ghost var d := Dial(wire, s);
      DeliveringMore(tail, dialed, d, got, more, mark, Stands(), horizon, e.EmitStop?);
      AlongSession(tail, dialed, d, mark, accepted, stopped, Stands(), b.accepted, b.stop, e.EmitStop?);
      end := if s.cancelled || e.EmitStop? then Some(Clean)
             else if e.Rejected? && e.why.CursorTooOld? then Some(TooOld)
             else if e.Rejected? && e.why.InvalidRequest? then Some(Invalid)
             else None;
      if end.Some? {
        FinishedNow(tail, dialed, d, all, Stands(), horizon, b.accepted, b.stop, e.EmitStop?, end.value);
        return;
      }
      accepted, stopped := b.accepted, b.stop;
      var cont := b.EmitError(RECONNECTING);
      AlongReconnect(tail, dialed, d, Stands(), accepted, stopped, b.accepted, b.stop);
      if !cont {
        StillGoing(tail, dialed + [d], all, Stands(), b.accepted, b.stop);
        end := Some(Clean);
      }
    }

    /** Sessions with reconnects, until cancelled, stopped, or refused for good. */
    method Run(dial: Dialer, limit: nat, m: Matcher, b: Batcher, ghost log: seq<Event>, ghost req: PlanRequest)
      returns (end: RunEnd, ghost got: seq<Event>, ghost lo: nat, ghost horizon: nat, ghost dialed: seq<Dial>)
      requires b.Open() && Anchored() && IsLog(log) && !seenAny
      requires m.Represents(req) && !req.hasBeforeSeq && m.afterSeq <= lastSeq
      modifies this, b, b.out
      ensures b.Open() && b.taken == old(b.taken) + got
      ensures old(lastSeq) <= lastSeq
      ensures Sound(got, req, old(lastSeq), lastSeq)
      ensures DialConforms(dial, log, req) ==> Exact(got, log, req, lo, horizon)
      ensures !fromTip ==> lo == old(lastSeq) && (DialConforms(dial, log, req) ==> lo <= horizon)
      ensures fromTip ==> lo == TipOf(dialed)
      ensures end != Clean || !b.stop ==> horizon == lastSeq
      ensures KeptDialing(dialed, dial, limit, end, b.stop)
      // Every attempt asks on from what was heard, and all that was heard is handed on unless the consumer stops.
      ensures AskedOn(dialed, cursor, fromTip, old(Stands()))
      ensures end != Clean || !b.stop ==> Stands() == TailMark(dialed, old(Stands()))
      ensures Handing(old(b.accepted), b.accepted, TailItems(dialed, old(Stands()), req), b.stop)
    {
      hide Batcher.Open, Batcher.Valid, Exact, Sound, SessionConforms, Matcher.Represents, Handing, Along, Delivering,
           Finished, TailMark, TailItems, AskedOn;
      ghost var tail := Tail(cursor, fromTip, Stands(), b.accepted, b.taken, log, req, DialConforms(dial, log, req));
      TailBegins(tail, b.stop);
      got, dialed, horizon := [], [], lastSeq;
      for i := 0 to limit
        invariant i == |dialed|
        invariant forall k :: 0 <= k < i ==>
                    Transient(dialed[k].session) && dialed[k].session == dial(k, dialed[k].wire)
        invariant b.Open() && Anchored() && b.taken == tail.taken + got
        invariant old(lastSeq) <= lastSeq && m.afterSeq <= lastSeq && horizon == lastSeq
        invariant Along(tail, dialed, Stands(), b.accepted, b.stop)
        invariant Delivering(tail, dialed, got, Stands(), lastSeq)
      {
        var s := dial(i, WireCursor());
        ghost var d := Dial(WireCursor(), s);
        var done: Option<RunEnd>;
        done, got, horizon := Attempt(s, m, b, tail, dialed, got);
        dialed := dialed + [d];
        if done.Some? {
          end := done.value;
          lo := FinishedFacts(tail, dialed, got, Stands(), horizon, b.accepted, b.stop, end);
          return;
        }
      }
      end := Clean;
      StillGoing(tail, dialed, got, Stands(), b.accepted, b.stop);
      lo := FinishedFacts(tail, dialed, got, Stands(), horizon, b.accepted, b.stop, end);
    }
  }

  /** A tail as it was when it began, and what its endpoint may be trusted with. */
  datatype Tail = Tail(cursor: Seq, fromTip: bool, start: Mark, accepted: seq<Item>, taken: seq<Event>,
                       log: seq<Event>, req: PlanRequest, conforming: bool)

  /** The attempts asked on from what was heard, and what they brought was handed on. */
  ghost predicate Along(t: Tail, dialed: seq<Dial>, mark: Mark, accepted: seq<Item>, stopped: bool) {
    && AskedOn(dialed, t.cursor, t.fromTip, t.start) && mark == TailMark(dialed, t.start)
    && Handing(t.accepted, accepted, TailItems(dialed, t.start, t.req), stopped)
  }

  /** Below this a tail owes nothing. */
  function Owed(t: Tail, dialed: seq<Dial>): nat {
    if t.fromTip then TipOf(dialed) else t.start.last
  }

  /** The events delivered so far: sound, and exact from a conforming endpoint. */
  ghost predicate Delivering(t: Tail, dialed: seq<Dial>, got: seq<Event>, mark: Mark, horizon: nat) {
    && t.start.last <= mark.last && Sound(got, t.req, t.start.last, mark.last)
    && (!mark.seen ==> got == [] && mark.last == t.start.last)
    && (t.conforming ==>
          && Exact(got, t.log, t.req, Owed(t, dialed), horizon)
          && (!t.fromTip || mark.seen ==> Owed(t, dialed) <= horizon))
  }

  /** The same once a tail has ended, where a consumer that stopped need not have everything that was heard. */
  ghost predicate Finished(t: Tail, dialed: seq<Dial>, got: seq<Event>, mark: Mark, horizon: nat, accepted: seq<Item>,
                           stopped: bool, end: RunEnd)
  {
    && AskedOn(dialed, t.cursor, t.fromTip, t.start)
    && (end != Clean || !stopped ==> mark == TailMark(dialed, t.start))
    && Handing(t.accepted, accepted, TailItems(dialed, t.start, t.req), stopped)
    && Sound(got, t.req, t.start.last, mark.last)
    && (t.conforming ==>
          Exact(got, t.log, t.req, Owed(t, dialed), horizon) && (!t.fromTip ==> Owed(t, dialed) <= horizon))
  }

  /** Why the tail ended with this session. */
  predicate EndsFor(s: Session, end: RunEnd, stopped: bool) {
    match end
    case TooOld => s == Refused(CursorTooOld, false)
    case Invalid => s == Refused(InvalidRequest, false)
    case Clean => s.cancelled || stopped
  }

  lemma TailBegins(t: Tail, stopped: bool)
    requires !t.start.seen && (t.fromTip ==> t.start.last == 0)
    ensures Along(t, [], t.start, t.accepted, stopped) && Delivering(t, [], [], t.start, t.start.last)
  {
    TailStart(t.cursor, t.fromTip, t.start, t.accepted, stopped, t.req);
    ExactNothing([], t.log, t.req, t.start.last, t.start.last);
  }

  /** The events of one more session join on: at the mark, or at the tip when no cursor was sent. */
  lemma DeliveringMore(t: Tail, dialed: seq<Dial>, d: Dial, got: seq<Event>, more: seq<Event>, mark: Mark, mark': Mark,
                       horizon: nat, cut: bool)
    requires Delivering(t, dialed, got, mark, mark.last) && d.wire == Asked(t.cursor, t.fromTip, mark)
    requires mark.last <= mark'.last && (mark.seen ==> mark'.seen) && Sound(more, t.req, mark.last, mark'.last)
    requires (!mark'.seen ==> more == [] && mark'.last == mark.last) && (!cut ==> horizon == mark'.last)
    requires t.fromTip && !mark.seen ==> mark.last == 0
    requires var base := if d.wire.None? && d.session.Connected? then d.session.tip else mark.last;
             t.conforming ==>
               && Exact(more, t.log, t.req, base, horizon)
               && (d.wire.Some? || (mark'.seen && !cut) ==> base <= horizon)
    ensures Sound(got + more, t.req, t.start.last, mark'.last)
    ensures t.conforming ==>
              && Exact(got + more, t.log, t.req, Owed(t, dialed + [d]), horizon)
              && (!t.fromTip ==> Owed(t, dialed + [d]) <= horizon)
    ensures !cut ==> Delivering(t, dialed + [d], got + more, mark', horizon)
  {
    hide Exact, Sound;
    assert (dialed + [d])[..|dialed|] == dialed;
    SoundConcat(got, more, t.req, t.start.last, mark.last, mark'.last);
    if d.wire.None? {
      assert got + more == more;
    } else if t.conforming {
      ExactConcat(got, more, t.log, t.req, Owed(t, dialed), mark.last, horizon);
    }
  }

  /** After a session and before the report of its end. */
  ghost predicate Midway(t: Tail, dialed: seq<Dial>, d: Dial, mark: Mark, accepted: seq<Item>, stopped: bool,
                         cut: bool)
  {
    && AskedOn(dialed + [d], t.cursor, t.fromTip, t.start) && (!cut ==> mark == TailMark(dialed + [d], t.start))
    && Handing(t.accepted, accepted,
               TailItems(dialed, t.start, t.req) + SessionItems(d.session, TailMark(dialed, t.start), t.req), stopped)
  }

  lemma AlongSession(t: Tail, dialed: seq<Dial>, d: Dial, mark: Mark, accepted: seq<Item>, stopped: bool, mark': Mark,
                     accepted': seq<Item>, stopped': bool, cut: bool)
    requires Along(t, dialed, mark, accepted, stopped) && d.wire == Asked(t.cursor, t.fromTip, mark)
    requires (!cut ==> mark' == SessionMark(d.session, mark)) && (stopped ==> stopped' && accepted' == accepted)
    requires Handing(accepted, accepted', SessionItems(d.session, mark, t.req), stopped')
    ensures Midway(t, dialed, d, mark', accepted', stopped', cut)
  {
    hide AskedOn, Handing, TailMark, TailItems, SessionMark, SessionItems;
    AskedSnoc(dialed, t.cursor, t.fromTip, t.start, d);
    HandingMore(t.accepted, accepted, TailItems(dialed, t.start, t.req), stopped, SessionItems(d.session, mark, t.req),
                accepted', stopped');
  }

  lemma AlongReconnect(t: Tail, dialed: seq<Dial>, d: Dial, mark: Mark, accepted: seq<Item>, stopped: bool,
                       accepted': seq<Item>, stopped': bool)
    requires Midway(t, dialed, d, mark, accepted, stopped, false) && Transient(d.session)
    requires accepted' == accepted || accepted' == accepted + [Er(RECONNECTING)]
    requires stopped' || accepted' == accepted + [Er(RECONNECTING)]
    requires stopped ==> stopped' && accepted' == accepted
    ensures Along(t, dialed + [d], mark, accepted', stopped')
  {
    hide AskedOn, Handing, TailMark, TailItems, SessionItems;
    TailItemsSnoc(dialed, t.start, t.req, d);
    HandingError(accepted, accepted', stopped, stopped', RECONNECTING);
    HandingMore(t.accepted, accepted,
                TailItems(dialed, t.start, t.req) + SessionItems(d.session, TailMark(dialed, t.start), t.req), stopped,
                [Er(RECONNECTING)], accepted', stopped');
  }

  /** A tail that ends with this session: nothing more is reported, or the consumer has stopped. */
  lemma FinishedNow(t: Tail, dialed: seq<Dial>, d: Dial, got: seq<Event>, mark: Mark, horizon: nat,
                    accepted: seq<Item>, stopped: bool, cut: bool, end: RunEnd)
    requires Midway(t, dialed, d, mark, accepted, stopped, cut) && (cut ==> stopped && end == Clean)
    requires !Transient(d.session) || stopped
    requires Sound(got, t.req, t.start.last, mark.last)
    requires t.conforming ==>
               && Exact(got, t.log, t.req, Owed(t, dialed + [d]), horizon)
               && (!t.fromTip ==> Owed(t, dialed + [d]) <= horizon)
    ensures Finished(t, dialed + [d], got, mark, horizon, accepted, stopped, end)
  {
    hide AskedOn, Handing, TailMark, TailItems, SessionItems, Exact, Sound;
    var items := TailItems(dialed, t.start, t.req) + SessionItems(d.session, TailMark(dialed, t.start), t.req);
    TailItemsSnoc(dialed, t.start, t.req, d);
    HandingWiden(t.accepted, accepted, items, stopped, [Er(RECONNECTING)]);
    assert items + [] == items;
  }

  lemma StillGoing(t: Tail, dialed: seq<Dial>, got: seq<Event>, mark: Mark, accepted: seq<Item>, stopped: bool)
    requires Along(t, dialed, mark, accepted, stopped) && Delivering(t, dialed, got, mark, mark.last)
    ensures Finished(t, dialed, got, mark, mark.last, accepted, stopped, Clean)
  {
    hide AskedOn, Handing, TailMark, TailItems, Exact, Sound;
  }

  lemma FinishedFacts(t: Tail, dialed: seq<Dial>, got: seq<Event>, mark: Mark, horizon: nat, accepted: seq<Item>,
                      stopped: bool, end: RunEnd)
    returns (lo: nat)
    requires Finished(t, dialed, got, mark, horizon, accepted, stopped, end)
    ensures Sound(got, t.req, t.start.last, mark.last)
    ensures t.conforming ==> Exact(got, t.log, t.req, lo, horizon)
    ensures !t.fromTip ==> lo == t.start.last && (t.conforming ==> lo <= horizon)
    ensures t.fromTip ==> lo == TipOf(dialed)
    ensures AskedOn(dialed, t.cursor, t.fromTip, t.start)
    ensures end != Clean || !stopped ==> mark == TailMark(dialed, t.start)
    ensures Handing(t.accepted, accepted, TailItems(dialed, t.start, t.req), stopped)
  {
    lo := Owed(t, dialed);
  }
}
