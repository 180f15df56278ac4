/**
 Whole-segment downloads over HTTP ranges (jetstream/segmentfetch.go): a probe,
 then either parallel range parts or one resumable stream, restarted when the
 file's generation changes underneath. It relies on If-Range (section 13.1.5),
 Content-Range (14.4), partial responses (15.3.7) and strong validators (8.8.1)
 of RFC 9110.
 */
module SegmentFetch {
  import opened Common
  import ContentRange

  const MAX_SEGMENT_BYTES: nat := 0x4000_0000
  const MAX_GENERATION_ATTEMPTS: nat := 2

  newtype Byte = b: int | 0 <= b < 256

  datatype Request = RangeGet(off: nat, last: int, ifRange: string) | WholeGet

  /**
   One response. `body` is what arrives before the connection ends or dies,
   `ended` that it ended cleanly, and `generation` names the file generation the
   server was serving; the client never sees that name, only the ETag header.
   */
  datatype Response =
    | NetError
    | Cancelled
    | Http(status: nat, etag: string, contentRange: string, contentLength: Option<nat>,
           body: seq<Byte>, ended: bool, generation: string)

  type Server = (nat, Request) -> Response

  /** The generations of the file, keyed by their strong validators. */
  type Generations = map<string, seq<Byte>>

  datatype FetchError = GenerationChanged | Permanent | Transient | Aborted

  datatype Fetched = Bytes(data: seq<Byte>) | Failed(why: FetchError)

  predicate RetryableStatus(code: nat) { code >= 500 || code == 429 }

  /**
   What RFC 9110 makes a server promise. A partial response under a validator
   carries bytes of that generation at the stated place; a full response carries
   one generation from its first byte. Short bodies are allowed everywhere.
   */
  ghost predicate Truthful(r: Response, files: Generations) {
    && (r.Http? && r.status == 206 && r.etag != "" && ContentRange.Parse(r.contentRange).Some? ==>
          var range := ContentRange.Parse(r.contentRange).value;
          && r.etag in files && range.total == |files[r.etag]|
          && forall i :: 0 <= i < |r.body| && range.first + i <= range.last ==>
               r.body[i] == files[r.etag][range.first + i])
    && (r.Http? && r.status == 200 ==>
          && r.generation in files
          && (r.contentLength.Some? ==> r.contentLength.value == |files[r.generation]|)
          && (r.contentLength.Some? ==> |r.body| <= r.contentLength.value)
          && r.body <= files[r.generation]
          && (r.ended ==> r.body == files[r.generation]))
  }

  ghost predicate TruthfulServer(server: Server, files: Generations) {
    forall n: nat, req: Request :: Truthful(server(n, req), files)
  }

  /**
   What a server offers of one generation: from the `since`-th call on and before the
   `until`-th, every range of it under its own validator or none, at least `chunk`
   bytes at a time; afterwards its validator is stale.
   */
  datatype Offer = Offer(etag: string, size: nat, chunk: nat, since: nat, until: Option<nat>)

  predicate Current(o: Offer, n: nat) {
    o.since <= n && (o.until.Some? ==> n < o.until.value)
  }

  ghost predicate Obliging(server: Server, o: Offer) {
    && o.etag != "" && 0 < o.size <= MAX_SEGMENT_BYTES
    && (forall n: nat, off: nat, last: nat, tag: string ::
          Current(o, n) && off <= last && off < o.size && (tag == "" || tag == o.etag) ==>
            Answers(server(n, RangeGet(off, last, tag)), off, if last < o.size then last else o.size - 1, o))
    && (forall n: nat, off: nat, last: nat :: o.until.Some? && o.until.value <= n ==>
          Stale(server(n, RangeGet(off, last, o.etag)), o.etag))
  }

  /** A response that says the generation under this validator is gone. */
  predicate Stale(r: Response, etag: string) {
    r.Http? && (r.status == 200 || r.status == 416 || (r.status == 206 && r.etag != etag))
  }

  function Least(a: nat, b: nat): nat { if a < b then a else b }

  /** The generation under this validator, if the server tells the truth, has this size. */
  ghost predicate Serves(server: Server, files: Generations, etag: string, size: nat) {
    TruthfulServer(server, files) && etag in files && |files[etag]| == size
  }

  predicate Answers(r: Response, off: nat, last: nat, o: Offer) {
    && r.Http? && r.status == 206 && r.etag == o.etag
    && ContentRange.Parse(r.contentRange) == Some(ContentRange.Range(off, last, o.size))
    && off <= last && Least(o.chunk, last + 1 - off) <= |r.body|
  }

  // ---- what one ranged response is worth ----

  /** A partial response for exactly the range asked for, under the expected validator. */
  predicate Usable(r: Response, off: nat, last: nat, etag: string) {
    && r.Http? && r.status == 206 && r.etag == etag
    && var range := ContentRange.Parse(r.contentRange);
       range.Some? && range.value.first == off && range.value.last == last
  }

  function Got(r: Response, off: nat, last: nat, etag: string): nat
    requires off <= last
  {
    if Usable(r, off, last, etag) then Least(|r.body|, last + 1 - off) else 0
  }

  /** The verdict on a response, by what it is: whole, gone, hopeless, cancelled, and anything else is worth a retry. */
  function Outcome(r: Response, off: nat, last: nat, etag: string): (err: Option<FetchError>)
    requires off <= last
    ensures err.None? <==> Usable(r, off, last, etag) && last + 1 - off <= |r.body|
    ensures err == Some(GenerationChanged) <==> Stale(r, etag)
    ensures err == Some(Aborted) <==> r.Cancelled?
    ensures err == Some(Permanent) <==>
            r.Http? && r.status != 200 && r.status != 206 && r.status != 416 && r.status != 429 && r.status < 500
  {
    if r.Cancelled? then Some(Aborted)
    else if r.NetError? then Some(Transient)
    else if Stale(r, etag) then Some(GenerationChanged)
    else if r.status == 206 then if Got(r, off, last, etag) == last + 1 - off then None else Some(Transient)
    else if RetryableStatus(r.status) then Some(Transient)
    else Some(Permanent)
  }

  /** An offer's answers bring at least its chunk while it lasts, and say that it is over afterwards. */
  lemma OfferOutcome(server: Server, o: Offer, n: nat, off: nat, last: nat)
    requires Obliging(server, o) && off <= last < o.size && o.since <= n
    ensures var r := server(n, RangeGet(off, last, o.etag));
            if Current(o, n) then
              && Least(o.chunk, last + 1 - off) <= Got(r, off, last, o.etag)
              && (Outcome(r, off, last, o.etag).None?
                  || (Outcome(r, off, last, o.etag) == Some(Transient) && Got(r, off, last, o.etag) < last + 1 - off))
            else Outcome(r, off, last, o.etag) == Some(GenerationChanged)
  {
    hide ContentRange.Parse;
    if Current(o, n) {
      assert Answers(server(n, RangeGet(off, last, o.etag)), off, last, o);
    }
  }

  /** Done, or told that the offer is over. */
  predicate Served(err: Option<FetchError>, o: Offer, calls: nat) {
    err.None? || (err == Some(GenerationChanged) && o.until.Some? && o.until.value < calls)
  }

  /** Requests of one range until one is not worth a retry or the budget is used up. */
  ghost predicate Tried(server: Server, first: nat, k: nat, budget: nat, off: nat, last: nat, etag: string,
                        err: Option<FetchError>)
    requires off <= last
  {
    var req := RangeGet(off, last, etag);
    && k <= budget
    && AllTransient(server, first, first + k - 1, off, last, etag)
    && (if k == 0 then budget == 0 && err == Some(Transient)
        else err == Outcome(server(first + k - 1, req), off, last, etag))
    && (err == Some(Transient) ==> k == budget)
  }

  ghost predicate AllTransient(server: Server, first: nat, end: int, off: nat, last: nat, etag: string)
    requires off <= last
  {
    var req := RangeGet(off, last, etag);
    forall n: nat :: first <= n < end ==> Outcome(server(n, req), off, last, etag) == Some(Transient)
  }

  /** How many requests at the end brought less than a part. */
  function Dry(received: seq<nat>, partSize: nat): nat {
    if received == [] || partSize <= received[|received| - 1] then 0 else 1 + Dry(received[..|received| - 1], partSize)
  }

  /**
   A resumed stream: every request but the last ended in a way worth resuming, and it
   gave up exactly when as many requests in a row as there are attempts stayed dry.
   */
  ghost predicate Streamed(server: Server, first: nat, reqs: seq<Request>, received: seq<nat>, total: nat, etag: string,
                           partSize: nat, attempts: nat, err: Option<FetchError>)
  {
    && Heard(server, first, reqs, received, total, etag)
    && (forall k :: 0 <= k < |received| && attempts > 1 ==> Dry(received[..k], partSize) < attempts)
    && (if reqs == [] then err.None? else err == Verdict(server, first, reqs, total, etag))
    && (err == Some(Transient) ==> if attempts > 1 then Dry(received, partSize) == attempts else |received| == 1)
  }

  /** The verdict on the last request. */
  function Verdict(server: Server, first: nat, reqs: seq<Request>, total: nat, etag: string): Option<FetchError> {
    var req := if reqs == [] then WholeGet else reqs[|reqs| - 1];
    if reqs == [] || req.WholeGet? || total <= req.off then None
    else Outcome(server(first + |reqs| - 1, req), req.off, total - 1, etag)
  }

  /** What each request brought, and that all but the last were worth resuming. */
  ghost predicate Heard(server: Server, first: nat, reqs: seq<Request>, received: seq<nat>, total: nat, etag: string) {
    && |reqs| == |received|
    && (forall i :: 0 <= i < |reqs| ==> Brought(server, first + i, reqs[i], received[i], total, etag))
    && (forall i :: 0 <= i < |reqs| - 1 ==> Resumable(server, first + i, reqs[i], total, etag))
  }

  /** The n bytes this call brought. */
  predicate Brought(server: Server, call: nat, req: Request, n: nat, total: nat, etag: string) {
    req.RangeGet? && req.off < total && n == Got(server(call, req), req.off, total - 1, etag)
  }

  predicate Resumable(server: Server, call: nat, req: Request, total: nat, etag: string) {
    req.RangeGet? && req.off < total && Outcome(server(call, req), req.off, total - 1, etag) == Some(Transient)
  }

  lemma HeardSnoc(server: Server, first: nat, reqs: seq<Request>, received: seq<nat>, total: nat, etag: string,
                  off: nat)
    requires Heard(server, first, reqs, received, total, etag) && off < total
    requires reqs != [] ==> Verdict(server, first, reqs, total, etag) == Some(Transient)
    ensures var req := RangeGet(off, total - 1, etag);
            var n := Got(server(first + |reqs|, req), off, total - 1, etag);
            && Heard(server, first, reqs + [req], received + [n], total, etag)
            && Verdict(server, first, reqs + [req], total, etag)
               == Outcome(server(first + |reqs|, req), off, total - 1, etag)
  {
    hide Outcome, Got, Heard;
    var req := RangeGet(off, total - 1, etag);
    var n := Got(server(first + |reqs|, req), off, total - 1, etag);
    if reqs != [] { LastResumable(server, first, reqs, received, total, etag); }
    HeardAppend(server, first, reqs, received, total, etag, req, n);
  }

  lemma LastResumable(server: Server, first: nat, reqs: seq<Request>, received: seq<nat>, total: nat, etag: string)
    requires reqs != [] && Heard(server, first, reqs, received, total, etag)
    requires Verdict(server, first, reqs, total, etag) == Some(Transient)
    ensures Resumable(server, first + |reqs| - 1, reqs[|reqs| - 1], total, etag)
  {
    hide Outcome, Got;
    assert Brought(server, first + (|reqs| - 1), reqs[|reqs| - 1], received[|reqs| - 1], total, etag);
  }

  lemma HeardAppend(server: Server, first: nat, reqs: seq<Request>, received: seq<nat>, total: nat, etag: string,
                    req: Request, n: nat)
    requires Heard(server, first, reqs, received, total, etag) && Brought(server, first + |reqs|, req, n, total, etag)
    requires reqs != [] ==> Resumable(server, first + |reqs| - 1, reqs[|reqs| - 1], total, etag)
    ensures Heard(server, first, reqs + [req], received + [n], total, etag)
  {
    hide Brought, Resumable;
  }

  /** Exactly the last so many requests brought less than a part each. */
  lemma {:induction false} DrySpell(received: seq<nat>, partSize: nat)
    ensures var k := Dry(received, partSize);
            && k <= |received|
            && (forall i :: |received| - k <= i < |received| ==> received[i] < partSize)
            && (k < |received| ==> partSize <= received[|received| - k - 1])
  {
    if received != [] { DrySpell(received[..|received| - 1], partSize); }
  }

  lemma DrySnoc(received: seq<nat>, n: nat, partSize: nat)
    ensures Dry(received + [n], partSize) == if partSize <= n then 0 else 1 + Dry(received, partSize)
  {
    assert (received + [n])[..|received|] == received;
  }

  /** The buffer agrees with the generation on [lo, hi). */
  ghost predicate Holds(buf: array<Byte>, lo: nat, hi: nat, file: seq<Byte>)
    reads buf
  {
    hi <= buf.Length <= |file| && forall i :: lo <= i < hi ==> buf[i] == file[i]
  }

  /** A server of one file that honours ranges and If-Range; its connections die after so many bytes. */
  function RangeServer(etag: string, file: seq<Byte>, chunk: nat): Server {
    (n: nat, req: Request) =>
      if req.RangeGet? && 0 <= req.off <= req.last && req.off < |file|
         && (req.ifRange == "" || req.ifRange == etag)
      then
        var last := if req.last < |file| then req.last else |file| - 1;
        var len := Least(chunk, last + 1 - req.off);
        Http(206, etag, ContentRange.Render(ContentRange.Range(req.off, last, |file|)), Some(last + 1 - req.off),
             file[req.off..req.off + len], len == last + 1 - req.off, etag)
      else Http(200, etag, "", Some(|file|), file, true, etag)
  }

  lemma RangeAnswer(etag: string, file: seq<Byte>, chunk: nat, n: nat, off: nat, last: nat, tag: string)
    requires etag != "" && 0 < |file| <= MAX_SEGMENT_BYTES && off <= last && off < |file| && (tag == "" || tag == etag)
    ensures var end := if last < |file| then last else |file| - 1;
            Answers(RangeServer(etag, file, chunk)(n, RangeGet(off, last, tag)), off, end,
                    Offer(etag, |file|, chunk, 0, None))
  {
    hide ContentRange.Parse, ContentRange.Render;
    ContentRange.ParseRendered(ContentRange.Range(off, if last < |file| then last else |file| - 1, |file|));
  }

  lemma RangeTruthful(etag: string, file: seq<Byte>, chunk: nat, n: nat, req: Request, files: Generations)
    requires etag != "" && 0 < |file| <= MAX_SEGMENT_BYTES && etag in files && files[etag] == file
    ensures Truthful(RangeServer(etag, file, chunk)(n, req), files)
  {
    hide ContentRange.Parse, ContentRange.Render;
    var r := RangeServer(etag, file, chunk)(n, req);
    if r.status == 206 {
      var end := if req.last < |file| then req.last else |file| - 1;
      ContentRange.ParseRendered(ContentRange.Range(req.off, end, |file|));
    }
  }

  /** Such a server tells the truth and keeps its offer. */
  lemma RangeServerQualifies(etag: string, file: seq<Byte>, chunk: nat)
    requires etag != "" && 0 < |file| <= MAX_SEGMENT_BYTES
    ensures TruthfulServer(RangeServer(etag, file, chunk), map[etag := file])
    ensures Obliging(RangeServer(etag, file, chunk), Offer(etag, |file|, chunk, 0, None))
  {
    hide RangeServer, Truthful, Answers;
    var server := RangeServer(etag, file, chunk);
    forall n: nat, req: Request ensures Truthful(server(n, req), map[etag := file]) {
      RangeTruthful(etag, file, chunk, n, req, map[etag := file]);
    }
    forall n: nat, off: nat, last: nat, tag: string | off <= last && off < |file| && (tag == "" || tag == etag)
      ensures Answers(server(n, RangeGet(off, last, tag)), off, if last < |file| then last else |file| - 1,
                      Offer(etag, |file|, chunk, 0, None))
    {
      RangeAnswer(etag, file, chunk, n, off, last, tag);
    }
  }

  /** A server whose file is replaced before the t-th call. */
  function ReplacedServer(etag: string, file: seq<Byte>, etag': string, file': seq<Byte>, chunk: nat, t: nat): Server {
    (n: nat, req: Request) =>
      if n < t then RangeServer(etag, file, chunk)(n, req) else RangeServer(etag', file', chunk)(n, req)
  }

  /** It makes two offers, one after the other. */
  lemma ReplacedServerQualifies(etag: string, file: seq<Byte>, etag': string, file': seq<Byte>, chunk: nat, t: nat)
    requires etag != "" && 0 < |file| <= MAX_SEGMENT_BYTES && etag' != "" && 0 < |file'| <= MAX_SEGMENT_BYTES
    requires etag != etag'
    ensures var server := ReplacedServer(etag, file, etag', file', chunk, t);
            && TruthfulServer(server, map[etag := file, etag' := file'])
            && Obliging(server, Offer(etag, |file|, chunk, 0, Some(t)))
            && Obliging(server, Offer(etag', |file'|, chunk, t, None))
  {
    hide Truthful, Answers, ContentRange.Render;
    var server, files := ReplacedServer(etag, file, etag', file', chunk, t), map[etag := file, etag' := file'];
    forall n: nat, req: Request ensures Truthful(server(n, req), files) {
      if n < t { RangeTruthful(etag, file, chunk, n, req, files); }
      else { RangeTruthful(etag', file', chunk, n, req, files); }
    }
    forall n: nat, off: nat, last: nat, tag: string | n < t && off <= last && off < |file| && (tag == "" || tag == etag)
      ensures Answers(server(n, RangeGet(off, last, tag)), off, if last < |file| then last else |file| - 1,
                      Offer(etag, |file|, chunk, 0, Some(t)))
    {
      RangeAnswer(etag, file, chunk, n, off, last, tag);
      SameAnswer(server(n, RangeGet(off, last, tag)), off, if last < |file| then last else |file| - 1,
                 Offer(etag, |file|, chunk, 0, None), Offer(etag, |file|, chunk, 0, Some(t)));
    }
    forall n: nat, off: nat, last: nat | t <= n ensures Stale(server(n, RangeGet(off, last, etag)), etag) {
      OtherIsStale(etag', file', chunk, n, off, last, etag);
    }
    forall n: nat, off: nat, last: nat, tag: string |
      t <= n && off <= last && off < |file'| && (tag == "" || tag == etag')
      ensures Answers(server(n, RangeGet(off, last, tag)), off, if last < |file'| then last else |file'| - 1,
                      Offer(etag', |file'|, chunk, t, None))
    {
      RangeAnswer(etag', file', chunk, n, off, last, tag);
      SameAnswer(server(n, RangeGet(off, last, tag)), off, if last < |file'| then last else |file'| - 1,
                 Offer(etag', |file'|, chunk, 0, None), Offer(etag', |file'|, chunk, t, None));
    }
  }

  /** Another generation's validator is answered with the whole file. */
  lemma OtherIsStale(etag: string, file: seq<Byte>, chunk: nat, n: nat, off: nat, last: nat, other: string)
    requires other != "" && other != etag
    ensures Stale(RangeServer(etag, file, chunk)(n, RangeGet(off, last, other)), other)
  {
    hide ContentRange.Render;
  }

  lemma SameAnswer(r: Response, off: nat, last: nat, o: Offer, o': Offer)
    requires Answers(r, off, last, o) && o.etag == o'.etag && o.size == o'.size && o.chunk == o'.chunk
    ensures Answers(r, off, last, o')
  {
  }

  /** Bytes are kept from a partial response under the expected validator and from no other. */
  ghost predicate Kept(r: Response, buf: array<Byte>, off: nat, n: nat, etag: string)
    reads buf
  {
    && r.Http? && r.status == 206 && r.etag == etag && n <= |r.body| && off + n <= buf.Length
    && forall i :: off <= i < off + n ==> buf[i] == r.body[i - off]
  }

  /** io.ReadFull: as much of the window [off, off+want) as the body has. */
  method ReadFull(body: seq<Byte>, buf: array<Byte>, off: nat, want: nat) returns (n: nat)
    requires off + want <= buf.Length
    modifies buf
    ensures n == if |body| < want then |body| else want
    ensures forall i :: off <= i < off + n ==> buf[i] == body[i - off]
    ensures forall i :: 0 <= i < buf.Length && !(off <= i < off + n) ==> buf[i] == old(buf[i])
  {
    n := 0;
    while n < want && n < |body|
      invariant n <= want && n <= |body|
      invariant forall i :: off <= i < off + n ==> buf[i] == body[i - off]
      invariant forall i :: 0 <= i < buf.Length && !(off <= i < off + n) ==> buf[i] == old(buf[i])
    {
      buf[off + n] := body[n];
      n := n + 1;
    }
  }

  lemma SameBytes(r: Response, files: Generations, buf: array<Byte>, off: nat, n: nat)
    requires r.Http? && r.status == 206 && r.etag != "" && ContentRange.Parse(r.contentRange).Some?
    requires Truthful(r, files) && |files[r.etag]| == buf.Length && off + n <= buf.Length && n <= |r.body|
    requires ContentRange.Parse(r.contentRange).value.first == off
    requires off + n <= ContentRange.Parse(r.contentRange).value.last + 1
    requires forall i :: off <= i < off + n ==> buf[i] == r.body[i - off]
    ensures Holds(buf, off, off + n, files[r.etag])
  {
    forall i | off <= i < off + n ensures buf[i] == files[r.etag][i] {
      assert r.body[i - off] == files[r.etag][off + (i - off)];
    }
  }

  function Sum(ns: seq<nat>): nat {
    if ns == [] then 0 else Sum(ns[..|ns| - 1]) + ns[|ns| - 1]
  }

  /**
   A resumed stream's requests: each asks for the whole missing suffix and starts
   right after the bytes received so far, so no byte is ever asked for twice.
   */
  ghost predicate Resumes(reqs: seq<Request>, received: seq<nat>, from: nat, total: nat, etag: string) {
    && |reqs| == |received|
    && forall i :: 0 <= i < |reqs| ==> reqs[i] == RangeGet(from + Sum(received[..i]), total - 1, etag)
  }

  lemma ResumesSnoc(reqs: seq<Request>, received: seq<nat>, from: nat, total: nat, etag: string, n: nat)
    requires Resumes(reqs, received, from, total, etag)
    ensures Resumes(reqs + [RangeGet(from + Sum(received), total - 1, etag)], received + [n], from, total, etag)
    ensures Sum(received + [n]) == Sum(received) + n
  {
    var rs := received + [n];
    assert rs[..|received|] == received;
    forall i | 0 <= i < |reqs| ensures rs[..i] == received[..i] {
    }
  }

  /** The budget of requests for so many bytes: all attempts once for every part of them. */
  function Allowance(attempts: nat, missing: nat, partSize: nat): nat
    requires 1 <= partSize
  {
    attempts * CeilDiv(missing, partSize)
  }

  /** Refunds cost part-size progress, so they are fewer than the parts missing. */
  lemma RefundBound(refunds: nat, partSize: nat, got: nat, missing: nat)
    requires 1 <= partSize && refunds * partSize <= got < missing
    ensures refunds + 1 <= CeilDiv(missing, partSize)
  {
    assert (refunds + 1) * partSize <= missing + partSize - 1;
    DivLower(refunds + 1, partSize, missing + partSize - 1);
  }

  /**
   The books of a resumed stream: `sent` requests so far, `remaining` of the
   budget, and `got` bytes that paid for the refunds.
   */
  ghost predicate Budgeted(attempts: nat, remaining: nat, refunds: nat, sent: nat, partSize: nat, got: nat) {
    && remaining <= attempts
    && sent <= attempts * refunds + (attempts - remaining)
    && refunds * partSize <= got
    && (attempts == 1 ==> refunds == 0 && sent == 1 - remaining)
  }

  lemma BudgetBound(attempts: nat, remaining: nat, refunds: nat, sent: nat, partSize: nat, got: nat, missing: nat)
    requires Budgeted(attempts, remaining, refunds, sent, partSize, got) && 1 <= partSize && got < missing
    ensures sent + (if remaining > 0 then 1 else 0) <= Allowance(attempts, missing, partSize)
    ensures attempts == 1 ==> sent == 1 - remaining
  {
    RefundBound(refunds, partSize, got, missing);
    MulMono(refunds + 1, CeilDiv(missing, partSize), attempts);
    assert (refunds + 1) * attempts == attempts * refunds + attempts;
  }

  /** A failed request is either paid for out of the budget or, by a part's progress, refunds it. */
  lemma BudgetSpend(attempts: nat, remaining: nat, refunds: nat, sent: nat, partSize: nat, got: nat, n: nat)
    requires Budgeted(attempts, remaining, refunds, sent, partSize, got) && 0 < remaining
    ensures Budgeted(attempts, remaining - 1, refunds, sent + 1, partSize, got + n)
    ensures attempts > 1 && partSize <= n ==> Budgeted(attempts, attempts, refunds + 1, sent + 1, partSize, got + n)
  {
    assert attempts * (refunds + 1) == attempts * refunds + attempts;
    assert (refunds + 1) * partSize == refunds * partSize + partSize;
  }

  lemma DivLower(k: nat, p: nat, n: nat)
    requires 1 <= p && k * p <= n
    ensures k <= n / p
  {
    if n / p < k {
      assert (n / p + 1) * p <= k * p by { MulMono(n / p + 1, k, p); }
    }
  }

  class Fetcher {
    const server: Server
    const partSize: nat
    const stripes: int
    const attempts: nat
    var calls: nat
    ghost var requests: seq<Request>

    ghost predicate Valid()
      reads this
    {
      1 <= partSize && 1 <= attempts
    }

    constructor (server: Server, partSize: nat, stripes: int, maxAttempts: int)
      requires 1 <= partSize
      ensures Valid() && this.server == server && this.partSize == partSize && this.stripes == stripes
      ensures attempts == (if maxAttempts < 1 then 1 else maxAttempts)
    {
      this.server, this.partSize, this.stripes := server, partSize, stripes;
      attempts := if maxAttempts < 1 then 1 else maxAttempts;
      calls, requests := 0, [];
    }

    method Do(req: Request) returns (r: Response)
      modifies this
      ensures r == server(old(calls), req) && calls == old(calls) + 1
      ensures requests == old(requests) + [req]
    {
      r := server(calls, req);
      calls := calls + 1;
      requests := requests + [req];
    }

    /**
     One ranged request for [off, last]. Bytes are kept only from a partial
     response under the same validator and for exactly the range asked for.
     */
    method ReadRangeInto(buf: array<Byte>, off: nat, last: nat, etag: string, ghost files: Generations)
      returns (n: nat, err: Option<FetchError>)
      requires Valid() && off <= last < buf.Length && etag != ""
      modifies this, buf
      ensures Valid() && requests == old(requests) + [RangeGet(off, last, etag)]
      ensures n <= last + 1 - off
      ensures n > 0 ==> Kept(server(old(calls), RangeGet(off, last, etag)), buf, off, n, etag)
      ensures Serves(server, files, etag, buf.Length) ==> Holds(buf, off, off + n, files[etag])
      ensures forall i :: 0 <= i < buf.Length && !(off <= i <= last) ==> buf[i] == old(buf[i])
      ensures calls == old(calls) + 1
      ensures var r := server(old(calls), RangeGet(off, last, etag));
              n == Got(r, off, last, etag) && err == Outcome(r, off, last, etag)
    {
      var r := Do(RangeGet(off, last, etag));
      if r.Cancelled? { return 0, Some(Aborted); }
      if r.NetError? { return 0, Some(Transient); }
      if r.status == 206 {
        if r.etag != etag { return 0, Some(GenerationChanged); }
        var range := ContentRange.Parse(r.contentRange);
        if range.None? { return 0, Some(Transient); }
        if range.value.first != off || range.value.last != last { return 0, Some(Transient); }
        n := ReadFull(r.body, buf, off, last + 1 - off);
        if Serves(server, files, etag, buf.Length) {
          assert Truthful(r, files);
          SameBytes(r, files, buf, off, n);
        }
        return n, if n < last + 1 - off then Some(Transient) else None;
      } else if r.status == 200 || r.status == 416 {
        return 0, Some(GenerationChanged);
      } else {
        return 0, Some(if RetryableStatus(r.status) then Transient else Permanent);
      }
    }

    /** Enough at a time for what this fetcher counts as progress, or everything at once. */
    predicate Ample(o: Offer) {
      o.size <= o.chunk || (partSize <= o.chunk && attempts > 1)
    }

    /** The server offers these bytes under this validator from this call on. */
    ghost predicate Offered(o: Offer, etag: string, size: nat, first: nat) {
      Obliging(server, o) && Ample(o) && o.etag == etag && o.size == size && o.since <= first
    }

    /**
     Downloads buf[from..] as one stream, resuming where it died. The attempt
     budget is refunded by at least a part's worth of progress, and only by that.
     */
    method FetchRemainderResumable(buf: array<Byte>, from: nat, etag: string, ghost files: Generations, ghost o: Offer)
      returns (err: Option<FetchError>, ghost reqs: seq<Request>, ghost received: seq<nat>)
      requires Valid() && from <= buf.Length && etag != ""
      modifies this, buf
      ensures Valid() && requests == old(requests) + reqs && calls == old(calls) + |reqs|
      ensures Serves(server, files, etag, buf.Length) && old(Holds(buf, 0, from, files[etag])) && err.None? ==>
                Holds(buf, 0, buf.Length, files[etag])
      ensures Resumes(reqs, received, from, buf.Length, etag)
      ensures |received| <= Allowance(attempts, buf.Length - from, partSize)
      ensures attempts == 1 && from < buf.Length ==> |received| == 1
      ensures Streamed(server, old(calls), reqs, received, buf.Length, etag, partSize, attempts, err)
      ensures from < buf.Length ==> reqs != []
      ensures Offered(o, etag, buf.Length, old(calls)) ==> Served(err, o, calls)
    {
      hide Budgeted, Resumes, Sum, Allowance, TruthfulServer, Obliging, Kept, Streaming,
           Streamed, Got, Outcome;
      ghost var serves := Serves(server, files, etag, buf.Length) && Holds(buf, 0, from, files[etag]);
      ghost var offered, first := Offered(o, etag, buf.Length, calls), calls;
      var total, off, remaining := buf.Length, from, attempts;
      ghost var before, refunds := requests, 0;
      reqs, received := [], [];
      BooksOpen(attempts, partSize, from, total, etag);
      StreamOpens(server, first, total, etag, partSize, attempts);
      while off < total
        invariant Valid() && from <= off <= total && 0 <= remaining <= attempts
        invariant serves ==> Holds(buf, 0, off, files[etag])
        invariant requests == before + reqs && calls == first + |reqs| && Resumes(reqs, received, from, total, etag)
        invariant off == from + Sum(received) && |reqs| == |received|
        invariant Budgeted(attempts, remaining, refunds, |received|, partSize, off - from)
        invariant off < total || received == []
        invariant Streaming(server, first, reqs, received, total, etag, partSize, attempts, remaining)
        invariant offered ==> remaining == attempts
        decreases total - off, remaining
      {
        BudgetBound(attempts, remaining, refunds, |received|, partSize, off - from, total - from);
        if remaining <= 0 {
          StreamStalled(server, first, reqs, received, total, etag, partSize, attempts);
          err := Some(Transient);
          return;
        }
        var want := total - off;
        ghost var bytes, call := buf[..], calls;
        var n: nat;
        n, err := ReadRangeInto(buf, off, total - 1, etag, files);
        if serves { ExtendHolds(bytes, buf, off, n, files[etag]); }
        if offered { OfferProgress(server, o, call, off, partSize, attempts); }
        GotAll(server(call, RangeGet(off, total - 1, etag)), off, total - 1, etag);
        StreamStep(server, first, reqs, received, total, etag, partSize, attempts, remaining, off);
        ResumesSnoc(reqs, received, from, total, etag, n);
        BudgetSpend(attempts, remaining, refunds, |received|, partSize, off - from, n);
        reqs, received := reqs + [RangeGet(off, total - 1, etag)], received + [n];
        off := off + n;
        if err.None? { return; }
        if !err.value.Transient? { return; }
        if attempts > 1 && n >= (if partSize < want then partSize else want) {
          remaining := attempts;
          refunds := refunds + 1;
        } else {
          remaining := remaining - 1;
        }
      }
      err := None;
    }

    /** One range part with bounded retries, always over the same bytes. */
    method FetchPartAttempts(buf: array<Byte>, off: nat, last: nat, etag: string, budget: nat, ghost files: Generations)
      returns (err: Option<FetchError>)
      requires Valid() && off <= last < buf.Length && etag != ""
      modifies this, buf
      ensures Valid() && |requests| == |old(requests)| + (calls - old(calls)) && old(calls) <= calls
      ensures Tried(server, old(calls), calls - old(calls), budget, off, last, etag, err)
      ensures Serves(server, files, etag, buf.Length) && err.None? ==> Holds(buf, off, last + 1, files[etag])
      ensures forall i :: 0 <= i < buf.Length && !(off <= i <= last) ==> buf[i] == old(buf[i])
    {
      hide TruthfulServer, Obliging, Kept, Outcome, Got, AllTransient;
      err := Some(Transient);
      ghost var first := calls;
      NoneTransient(server, first, off, last, etag);
      for attempt := 0 to budget
        invariant Valid() && calls == first + attempt && |requests| == |old(requests)| + attempt
        invariant err == Some(Transient)
        invariant AllTransient(server, first, first + attempt, off, last, etag)
        invariant forall i :: 0 <= i < buf.Length && !(off <= i <= last) ==> buf[i] == old(buf[i])
      {
        var n: nat;
        n, err := ReadRangeInto(buf, off, last, etag, files);
        GotAll(server(first + attempt, RangeGet(off, last, etag)), off, last, etag);
        if err.None? || !err.value.Transient? { return; }
        TransientOn(server, first, first + attempt, off, last, etag);
      }
      if budget > 0 { TransientLast(server, first, first + budget, off, last, etag); }
    }

    /** A body without ranges: the declared length exactly, or everything up to a clean end. */
    method ReadFullBody(r: Response, ghost files: Generations) returns (res: Fetched)
      requires r.Http? && r.status == 200
      ensures res.Bytes? && Truthful(r, files) ==> r.generation in files && res.data == files[r.generation]
      ensures res == if FullBody(r).Some? then Bytes(FullBody(r).value) else Failed(Transient)
    {
      if r.contentLength.Some? {
        if r.contentLength.value > MAX_SEGMENT_BYTES { return Failed(Transient); }
        if |r.body| < r.contentLength.value { return Failed(Transient); }
        return Bytes(r.body[..r.contentLength.value]);
      }
      if !r.ended { return Failed(Transient); }
      if |r.body| > MAX_SEGMENT_BYTES { return Failed(Transient); }
      return Bytes(r.body);
    }

    /** The plain download with retries; every attempt starts from byte zero. */
    method FetchWholeFallback(budget: nat, ghost files: Generations) returns (res: Fetched)
      requires Valid()
      modifies this
      ensures Valid() && |requests| == |old(requests)| + (calls - old(calls)) && old(calls) <= calls
      ensures WholeTried(server, old(calls), calls - old(calls), budget, res)
      ensures TruthfulServer(server, files) && res.Bytes? ==> exists g :: g in files && res.data == files[g]
    {
      res := Failed(Transient);
      ghost var first := calls;
      for attempt := 0 to budget
        invariant Valid() && calls == first + attempt && |requests| == |old(requests)| + attempt
        invariant res == Failed(Transient)
        invariant forall n: nat :: first <= n < first + attempt ==>
                    WholeVerdict(server(n, WholeGet)) == Failed(Transient)
      {
        var r := Do(WholeGet);
        if r.Cancelled? { return Failed(Aborted); }
        if r.Http? && r.status == 200 {
          res := ReadFullBody(r, files);
          if res.Bytes? { return; }
        } else if r.Http? && !RetryableStatus(r.status) {
          return Failed(Permanent);
        }
      }
    }

    /** The opening range request, retried while the answer is worth retrying. */
    method ProbeWithRetry(ghost files: Generations) returns (r: Response)
      requires Valid()
      modifies this
      ensures Valid() && |requests| == |old(requests)| + (calls - old(calls)) && old(calls) <= calls
      ensures Probed(server, old(calls), calls - old(calls), attempts, RangeGet(0, partSize - 1, ""), r)
      ensures TruthfulServer(server, files) ==> Truthful(r, files)
    {
      r := NetError;
      ghost var first := calls;
      var req := RangeGet(0, partSize - 1, "");
      for attempt := 0 to attempts
        invariant Valid() && calls == first + attempt && |requests| == |old(requests)| + attempt
        invariant r.NetError?
        invariant forall n: nat :: first <= n < first + attempt ==> WorthRetry(server(n, req))
      {
        r := Do(req);
        if r.Cancelled? { return; }
        if r.Http? && !RetryableStatus(r.status) { return; }
        r := NetError;
      }
    }

    /** One part of a striped download: its own bytes and no others. */
    method FetchStripe(buf: array<Byte>, from: nat, k: nat, etag: string, ghost files: Generations, ghost o: Offer)
      returns (err: Option<FetchError>)
      requires Valid() && from <= buf.Length && etag != "" && k < CeilDiv(buf.Length - from, partSize)
      modifies this, buf
      ensures Valid() && |requests| <= |old(requests)| + attempts && old(calls) <= calls
      ensures forall i :: 0 <= i < buf.Length && (i < from || PartOf(i, from, partSize) != k) ==> buf[i] == old(buf[i])
      ensures Serves(server, files, etag, buf.Length) && err.None? ==>
                forall i :: from <= i < buf.Length && PartOf(i, from, partSize) == k ==> buf[i] == files[etag][i]
      ensures Offered(o, etag, buf.Length, old(calls)) ==> Served(err, o, calls)
    {
      hide TruthfulServer, Obliging, CeilDiv, PartOf, Tried;
      PartBounds(k, from, partSize, buf.Length);
      var off := from + k * partSize;
      var last := if off + partSize - 1 < buf.Length - 1 then off + partSize - 1 else buf.Length - 1;
      ghost var first := calls;
      err := FetchPartAttempts(buf, off, last, etag, attempts, files);
      TriedBound(server, first, calls - first, attempts, off, last, etag, err);
      if Offered(o, etag, buf.Length, first) { OfferedPart(server, o, first, calls - first, attempts, off, last, err); }
      forall i | from <= i < buf.Length ensures off <= i <= last <==> PartOf(i, from, partSize) == k {
        PartCovers(k, from, partSize, buf.Length, i);
      }
    }

    /**
     The remaining parts of a striped download: disjoint, together all the rest, and
     finished in whatever order the stripes get to them.
     */
    method FetchStripes(buf: array<Byte>, from: nat, etag: string, ghost files: Generations, ghost o: Offer)
      returns (err: Option<FetchError>)
      requires Valid() && from <= buf.Length && etag != ""
      modifies this, buf
      ensures Valid() && |requests| <= |old(requests)| + Allowance(attempts, buf.Length - from, partSize)
      ensures old(calls) <= calls
      ensures Serves(server, files, etag, buf.Length) && old(Holds(buf, 0, from, files[etag])) && err.None? ==>
                Holds(buf, 0, buf.Length, files[etag])
      ensures Offered(o, etag, buf.Length, old(calls)) ==> Served(err, o, calls)
    {
      assert Spent(0, attempts, 0);
      hide TruthfulServer, Obliging, CeilDiv, Allowance, PartOf, Spent, Below, Serves, Offered, Served, PartsHeld,
           Holds;
      ghost var serves := Serves(server, files, etag, buf.Length) && Holds(buf, 0, from, files[etag]);
      var parts := CeilDiv(buf.Length - from, partSize);
      var left := Below(parts);
      ghost var done := 0;
      if serves { PartsOpen(buf, from, partSize, left, files[etag]); }
      err := None;
      while left != {}
        invariant Valid() && old(calls) <= calls && err.None? && forall k :: k in left ==> k < parts
        invariant done + |left| == parts && Spent(|requests| - |old(requests)|, attempts, done)
        invariant serves ==> PartsHeld(buf[..], from, partSize, left, files[etag])
        decreases |left|
      {
        var k: nat :| k in left;
        ghost var before, bytes := requests, buf[..];
        err := FetchStripe(buf, from, k, etag, files, o);
        SpendPart(|before| - |old(requests)|, |requests| - |old(requests)|, attempts, done);
        if serves && err.None? { PartsStep(bytes, buf[..], from, partSize, left, k, files[etag]); }
        left, done := left - {k}, done + 1;
        if err.Some? { break; }
      }
      if serves && err.None? { PartsDone(buf, from, partSize, files[etag]); }
      SpentWithin(|requests| - |old(requests)|, attempts, done, parts, buf.Length - from, partSize);
    }

    /** What the probe left over: one resumable stream, or stripes. */
    method FetchRest(buf: array<Byte>, from: nat, etag: string, ghost files: Generations, ghost o: Offer)
      returns (err: Option<FetchError>)
      requires Valid() && from <= buf.Length <= MAX_SEGMENT_BYTES && etag != ""
      modifies this, buf
      ensures Valid() && |requests| <= |old(requests)| + Allowance(attempts, MAX_SEGMENT_BYTES, partSize)
      ensures old(calls) <= calls
      ensures Serves(server, files, etag, buf.Length) && old(Holds(buf, 0, from, files[etag])) && err.None? ==>
                Holds(buf, 0, buf.Length, files[etag])
      ensures Offered(o, etag, buf.Length, old(calls)) ==> Served(err, o, calls)
    {
      hide TruthfulServer, Obliging, Allowance, Sum, Streamed, Resumes;
      RestBound(attempts, partSize, buf.Length - from);
      if stripes <= 1 {
        ghost var reqs, received;
        err, reqs, received := FetchRemainderResumable(buf, from, etag, files, o);
        ResumesLength(reqs, received, from, buf.Length, etag);
      } else {
        err := FetchStripes(buf, from, etag, files, o);
      }
    }

    /** What one generation can cost: the probe, its gap or a plain download, and the rest of the largest file. */
    function RequestBound(): nat
      requires 1 <= partSize
    {
      2 * attempts + Allowance(attempts, MAX_SEGMENT_BYTES, partSize)
    }

    /** What a fetch comes to while an offer lasts: its bytes, or word that it is over. */
    ghost predicate Takes(o: Offer, files: Generations, first: nat, calls: nat, res: Fetched) {
      TruthfulServer(server, files) && Obliging(server, o) && Ample(o) && Current(o, first)
      && o.etag in files && |files[o.etag]| == o.size ==>
        || res == Bytes(files[o.etag])
        || (res == Failed(GenerationChanged) && o.until.Some? && o.until.value < calls)
    }

    /** One attempt at a consistent generation: probe, gap fill, then stripes or one stream. */
    method FetchSegmentGeneration(ghost files: Generations, ghost o: Offer, ghost data: seq<Byte>)
      returns (res: Fetched)
      requires Valid()
      modifies this
      ensures Valid() && |requests| <= |old(requests)| + RequestBound() && old(calls) <= calls
      ensures TruthfulServer(server, files) && res.Bytes? ==> exists g :: g in files && res.data == files[g]
      ensures Takes(o, files, old(calls), calls, res)
      ensures Plain(server, data, old(calls)) ==> res == Bytes(data)
    {
      hide TruthfulServer, ContentRange.Parse, Allowance, Obliging, Probed, WholeTried, Plain;
      ghost var first := calls;
      var probe := ProbeWithRetry(files);
      ProbedFacts(server, o, data, first, calls - first, attempts, partSize, probe);
      if probe.Cancelled? { return Failed(Aborted); }
      if probe.NetError? { return Failed(Transient); }
      if probe.status == 200 {
        res := ReadFullBody(probe, files);
        if res.Bytes? || attempts - 1 <= 0 { return; }
        ghost var again := calls;
        res := FetchWholeFallback(attempts - 1, files);
        WholeFacts(server, data, first, again, calls - again, attempts - 1, res);
        return;
      }
      if probe.status != 206 { return Failed(Permanent); }
      var range := ContentRange.Parse(probe.contentRange);
      if range.None? || range.value.first != 0 || range.value.total > MAX_SEGMENT_BYTES { return Failed(Transient); }
      if probe.etag == "" {
        ghost var again := calls;
        res := FetchWholeFallback(attempts, files);
        WholeFacts(server, data, first, again, calls - again, attempts, res);
        return;
      }
      res := FetchRanged(probe, range.value.last, range.value.total, files, o);
    }

    /** A generation of known size and validator: the probe's part, then the rest. */
    method FetchRanged(probe: Response, end: nat, total: nat, ghost files: Generations, ghost o: Offer)
      returns (res: Fetched)
      requires Valid() && total <= MAX_SEGMENT_BYTES
      requires probe.Http? && probe.status == 206 && probe.etag != ""
      requires ContentRange.Parse(probe.contentRange) == Some(ContentRange.Range(0, end, total))
      modifies this
      ensures Valid() && old(calls) <= calls
      ensures |requests| <= |old(requests)| + (attempts - 1) + Allowance(attempts, MAX_SEGMENT_BYTES, partSize)
      ensures TruthfulServer(server, files) && Truthful(probe, files) && res.Bytes? ==>
                probe.etag in files && res.data == files[probe.etag]
      ensures Offered(o, probe.etag, total, old(calls)) && end + 1 <= Least(o.chunk, |probe.body|) ==>
                res.Bytes? || (res.Failed? && Served(Some(res.why), o, calls))
    {
      hide TruthfulServer, ContentRange.Parse, Allowance, Obliging, Tried, Truthful;
      var buf := new Byte[total];
      var err := ReadProbeBody(probe, buf, end, files);
      if err.Some? { return Failed(err.value); }
      if end + 1 < total {
        err := FetchRest(buf, end + 1, probe.etag, files, o);
        if err.Some? { return Failed(err.value); }
      }
      assert TruthfulServer(server, files) && Truthful(probe, files) ==> buf[..] == files[probe.etag];
      res := Bytes(buf[..]);
    }

    /** The probe's own body; if it died early, the gap is filled under the same validator. */
    method ReadProbeBody(probe: Response, buf: array<Byte>, end: nat, ghost files: Generations)
      returns (err: Option<FetchError>)
      requires Valid()
      requires probe.Http? && probe.status == 206 && probe.etag != ""
      requires ContentRange.Parse(probe.contentRange) == Some(ContentRange.Range(0, end, buf.Length))
      modifies this, buf
      ensures Valid() && |requests| <= |old(requests)| + (attempts - 1) && old(calls) <= calls
      ensures end < buf.Length
      ensures TruthfulServer(server, files) && Truthful(probe, files) ==>
                && Serves(server, files, probe.etag, buf.Length)
                && (err.None? ==> Holds(buf, 0, end + 1, files[probe.etag]))
      ensures var n := Least(|probe.body|, end + 1);
              if n == end + 1 then err.None? && calls == old(calls)
              else Tried(server, old(calls), calls - old(calls), attempts - 1, n, end, probe.etag, err)
    {
      hide TruthfulServer, Tried;
      ghost var serves := TruthfulServer(server, files) && Truthful(probe, files);
      var n := ReadFull(probe.body, buf, 0, end + 1);
      if serves { SameBytes(probe, files, buf, 0, n); }
      if n == end + 1 { return None; }
      if attempts - 1 <= 0 {
        NotTried(server, calls, n, end, probe.etag);
        return Some(Transient);
      }
      ghost var bytes, first := buf[..], calls;
      err := FetchPartAttempts(buf, n, end, probe.etag, attempts - 1, files);
      TriedBound(server, first, calls - first, attempts - 1, n, end, probe.etag, err);
      if serves && err.None? { ExtendHolds(bytes, buf, n, end + 1 - n, files[probe.etag]); }
    }

    /**
     A whole segment. Whatever mix of short reads, full responses, generation
     changes and retries happened, returned bytes are one generation exactly; a
     generation that is replaced under way is followed by the one that replaces it.
     */
    method FetchSegment(ghost files: Generations, ghost o: Offer, ghost later: Offer, ghost data: seq<Byte>)
      returns (res: Fetched)
      requires Valid()
      modifies this
      ensures Valid() && |requests| <= |old(requests)| + MAX_GENERATION_ATTEMPTS * RequestBound()
      ensures TruthfulServer(server, files) && res.Bytes? ==> exists g :: g in files && res.data == files[g]
      ensures o.until.None? ==> Takes(o, files, old(calls), calls, res)
      ensures TruthfulServer(server, files) && Lasting(o, files) && Lasting(later, files) && Current(o, old(calls))
              && o.until.Some? && later.since <= o.until.value && later.until.None? ==>
                res == Bytes(files[o.etag]) || res == Bytes(files[later.etag])
      ensures Plain(server, data, old(calls)) ==> res == Bytes(data)
    {
      hide TruthfulServer, Obliging, Plain;
      ghost var first := calls;
      ghost var replaced := TruthfulServer(server, files) && Lasting(o, files) && Lasting(later, files)
                            && Current(o, first) && o.until.Some? && later.since <= o.until.value && later.until.None?;
      for attempt := 0 to MAX_GENERATION_ATTEMPTS
        invariant Valid() && |requests| <= |old(requests)| + attempt * RequestBound()
        invariant attempt == 0 ==> calls == first
        invariant attempt > 0 ==> !Plain(server, data, first)
        invariant attempt > 0 && o.until.None? ==> Takes(o, files, first, calls, Failed(GenerationChanged))
        invariant attempt > 0 && replaced ==> attempt == 1 && o.until.value < calls
      {
        res := FetchSegmentGeneration(files, if attempt == 0 then o else later, data);
        if res.Bytes? || !res.why.GenerationChanged? { return; }
      }
      res := Failed(GenerationChanged);
    }

    /** An offer of a known generation, enough at a time. */
    ghost predicate Lasting(o: Offer, files: Generations) {
      Obliging(server, o) && Ample(o) && o.etag in files && |files[o.etag]| == o.size
    }
  }

  // ---- plain downloads and the probe ----

  /** The whole file of a response without ranges, if it is all there. */
  function FullBody(r: Response): Option<seq<Byte>>
    requires r.Http?
  {
    match r.contentLength
    case Some(n) => if n <= MAX_SEGMENT_BYTES && n <= |r.body| then Some(r.body[..n]) else None
    case None => if r.ended && |r.body| <= MAX_SEGMENT_BYTES then Some(r.body) else None
  }

  /** The verdict on a plain download. */
  function WholeVerdict(r: Response): (res: Fetched)
    ensures res.Bytes? <==> r.Http? && r.status == 200 && FullBody(r).Some?
    ensures res.Bytes? ==> res.data == FullBody(r).value
    ensures res == Failed(Aborted) <==> r.Cancelled?
    ensures res == Failed(Permanent) <==> r.Http? && r.status != 200 && r.status != 429 && r.status < 500
    ensures res != Failed(GenerationChanged)
  {
    if r.Cancelled? then Failed(Aborted)
    else if r.NetError? then Failed(Transient)
    else if r.status == 200 then if FullBody(r).Some? then Bytes(FullBody(r).value) else Failed(Transient)
    else if RetryableStatus(r.status) then Failed(Transient)
    else Failed(Permanent)
  }

  /** Plain downloads until one is not worth a retry or the budget is used up. */
  ghost predicate WholeTried(server: Server, first: nat, k: nat, budget: nat, res: Fetched) {
    && k <= budget
    && (forall n: nat :: first <= n < first + k - 1 ==> WholeVerdict(server(n, WholeGet)) == Failed(Transient))
    && (if k == 0 then budget == 0 && res == Failed(Transient)
        else res == WholeVerdict(server(first + k - 1, WholeGet)))
    && (res == Failed(Transient) ==> k == budget)
  }

  /** No answer, or one that asks to come back: a server error or too many requests. */
  predicate WorthRetry(r: Response) {
    r.NetError? || (r.Http? && (r.status >= 500 || r.status == 429))
  }

  /** The first answer that is not worth a retry, if there is one within the budget. */
  ghost predicate Probed(server: Server, first: nat, k: nat, budget: nat, req: Request, r: Response) {
    && 0 < k <= budget
    && (forall n: nat :: first <= n < first + k - 1 ==> WorthRetry(server(n, req)))
    && (if r.NetError? then k == budget && WorthRetry(server(first + k - 1, req))
        else r == server(first + k - 1, req) && !WorthRetry(r))
  }

  /** A server without usable ranges, which sends these bytes in full whenever it is asked. */
  ghost predicate Plain(server: Server, data: seq<Byte>, since: nat) {
    && (forall n: nat :: since <= n ==> WholeVerdict(server(n, WholeGet)) == Bytes(data))
    && (forall n: nat, last: int :: since <= n ==> PlainAnswer(server(n, RangeGet(0, last, "")), data))
  }

  /** A full response, or a partial one that names no validator to go on with. */
  predicate PlainAnswer(r: Response, data: seq<Byte>) {
    || WholeVerdict(r) == Bytes(data)
    || (r.Http? && r.status == 206 && r.etag == ""
        && var range := ContentRange.Parse(r.contentRange);
           range.Some? && range.value.first == 0 && range.value.total <= MAX_SEGMENT_BYTES)
  }

  /** What the probe brings from an offer, and from a server without ranges. */
  lemma ProbedFacts(server: Server, o: Offer, data: seq<Byte>, first: nat, k: nat, budget: nat, partSize: nat,
                    r: Response)
    requires Probed(server, first, k, budget, RangeGet(0, partSize - 1, ""), r) && 1 <= partSize
    ensures k <= budget
    ensures Obliging(server, o) && Current(o, first) ==>
              k == 1 && Answers(r, 0, Least(partSize, o.size) - 1, o) && o.etag != "" && o.size <= MAX_SEGMENT_BYTES
    ensures Plain(server, data, first) ==> PlainAnswer(r, data)
  {
    hide ContentRange.Parse;
    var req := RangeGet(0, partSize - 1, "");
    if Obliging(server, o) && Current(o, first) {
      assert Answers(server(first, req), 0, if partSize - 1 < o.size then partSize - 1 else o.size - 1, o);
      assert k > 1 ==> WorthRetry(server(first, req));
    }
    if Plain(server, data, first) {
      assert PlainAnswer(server(first, req), data);
      assert k > 1 ==> WorthRetry(server(first, req));
    }
  }

  lemma WholeFacts(server: Server, data: seq<Byte>, since: nat, first: nat, k: nat, budget: nat, res: Fetched)
    requires WholeTried(server, first, k, budget, res) && since <= first
    ensures k <= budget
    ensures Plain(server, data, since) && 0 < budget ==> res == Bytes(data)
    ensures res != Failed(GenerationChanged)
  {
    assert k > 1 ==> WholeVerdict(server(first, WholeGet)) == Failed(Transient);
  }

  // ---- ranges ----

  /** A resumed stream under way: what is left of the budget is what the dry requests at the end left of it. */
  ghost predicate Streaming(server: Server, first: nat, reqs: seq<Request>, received: seq<nat>, total: nat,
                            etag: string, partSize: nat, attempts: nat, remaining: int)
  {
    && Heard(server, first, reqs, received, total, etag)
    && (reqs != [] ==> Verdict(server, first, reqs, total, etag) == Some(Transient))
    && (forall k :: 0 <= k < |received| && attempts > 1 ==> Dry(received[..k], partSize) < attempts)
    && (if attempts > 1 then remaining == attempts - Dry(received, partSize) else remaining == 1 - |received|)
  }

  lemma StreamOpens(server: Server, first: nat, total: nat, etag: string, partSize: nat, attempts: nat)
    requires 1 <= attempts
    ensures Streaming(server, first, [], [], total, etag, partSize, attempts, attempts)
    ensures Streamed(server, first, [], [], total, etag, partSize, attempts, None)
  {
  }

  lemma StreamStalled(server: Server, first: nat, reqs: seq<Request>, received: seq<nat>, total: nat, etag: string,
                      partSize: nat, attempts: nat)
    requires Streaming(server, first, reqs, received, total, etag, partSize, attempts, 0) && 1 <= attempts
    ensures Streamed(server, first, reqs, received, total, etag, partSize, attempts, Some(Transient)) && reqs != []
  {
    hide Verdict;
  }

  /** One more request ends the stream or, if it was worth resuming, changes the budget by its progress. */
  lemma StreamStep(server: Server, first: nat, reqs: seq<Request>, received: seq<nat>, total: nat, etag: string,
                   partSize: nat, attempts: nat, remaining: nat, off: nat)
    requires Streaming(server, first, reqs, received, total, etag, partSize, attempts, remaining)
    requires off < total && 0 < remaining && 1 <= attempts
    ensures var req := RangeGet(off, total - 1, etag);
            var r := server(first + |reqs|, req);
            var n, err := Got(r, off, total - 1, etag), Outcome(r, off, total - 1, etag);
            if err == Some(Transient) then
              Streaming(server, first, reqs + [req], received + [n], total, etag, partSize, attempts,
                        if attempts > 1 && partSize <= n then attempts else remaining - 1)
            else Streamed(server, first, reqs + [req], received + [n], total, etag, partSize, attempts, err)
  {
    hide Got, Outcome, Dry, Heard, Verdict;
    var req := RangeGet(off, total - 1, etag);
    var n := Got(server(first + |reqs|, req), off, total - 1, etag);
    HeardSnoc(server, first, reqs, received, total, etag, off);
    HeardLength(server, first, reqs, received, total, etag);
    DrySnoc(received, n, partSize);
    DryBefore(received, n, partSize, attempts);
  }

  lemma HeardLength(server: Server, first: nat, reqs: seq<Request>, received: seq<nat>, total: nat, etag: string)
    requires Heard(server, first, reqs, received, total, etag)
    ensures |reqs| == |received|
  {
  }

  lemma GotAll(r: Response, off: nat, last: nat, etag: string)
    requires off <= last
    ensures Outcome(r, off, last, etag).None? <==> Got(r, off, last, etag) == last + 1 - off
    ensures Got(r, off, last, etag) <= last + 1 - off
  {
  }

  /** While an offer lasts every request is progress, and afterwards it is told so. */
  lemma OfferProgress(server: Server, o: Offer, n: nat, off: nat, partSize: nat, attempts: nat)
    requires Obliging(server, o) && off < o.size && o.since <= n
    requires o.size <= o.chunk || (partSize <= o.chunk && attempts > 1)
    ensures var r := server(n, RangeGet(off, o.size - 1, o.etag));
            var err := Outcome(r, off, o.size - 1, o.etag);
            Served(err, o, n + 1)
            || (err == Some(Transient) && attempts > 1 && partSize <= Got(r, off, o.size - 1, o.etag))
  {
    hide Obliging, Outcome, Got;
    OfferOutcome(server, o, n, off, o.size - 1);
    GotAll(server(n, RangeGet(off, o.size - 1, o.etag)), off, o.size - 1, o.etag);
  }

  lemma DryBefore(received: seq<nat>, n: nat, partSize: nat, attempts: nat)
    requires forall k :: 0 <= k < |received| && attempts > 1 ==> Dry(received[..k], partSize) < attempts
    requires attempts > 1 ==> Dry(received, partSize) < attempts
    ensures forall k :: 0 <= k < |received| + 1 && attempts > 1 ==> Dry((received + [n])[..k], partSize) < attempts
  {
    hide Dry;
    forall k | 0 <= k < |received| + 1 && attempts > 1 ensures Dry((received + [n])[..k], partSize) < attempts {
      if k < |received| {
        assert (received + [n])[..k] == received[..k];
      } else {
        assert (received + [n])[..k] == received;
      }
    }
  }

  lemma ResumesLength(reqs: seq<Request>, received: seq<nat>, from: nat, total: nat, etag: string)
    requires Resumes(reqs, received, from, total, etag)
    ensures |reqs| == |received|
  {
  }

  lemma TriedBound(server: Server, first: nat, k: nat, budget: nat, off: nat, last: nat, etag: string,
                   err: Option<FetchError>)
    requires off <= last && Tried(server, first, k, budget, off, last, etag, err)
    ensures k <= budget
  {
  }

  lemma NoneTransient(server: Server, first: nat, off: nat, last: nat, etag: string)
    requires off <= last
    ensures AllTransient(server, first, first, off, last, etag)
    ensures AllTransient(server, first, first - 1, off, last, etag)
  {
  }

  lemma TransientOn(server: Server, first: nat, end: nat, off: nat, last: nat, etag: string)
    requires off <= last && AllTransient(server, first, end, off, last, etag)
    requires Outcome(server(end, RangeGet(off, last, etag)), off, last, etag) == Some(Transient)
    ensures AllTransient(server, first, end + 1, off, last, etag)
  {
    hide Outcome;
  }

  lemma TransientLast(server: Server, first: nat, end: nat, off: nat, last: nat, etag: string)
    requires off <= last && first < end && AllTransient(server, first, end, off, last, etag)
    ensures AllTransient(server, first, end - 1, off, last, etag)
    ensures Outcome(server(end - 1, RangeGet(off, last, etag)), off, last, etag) == Some(Transient)
  {
    hide Outcome;
  }

  lemma NotTried(server: Server, first: nat, off: nat, last: nat, etag: string)
    requires off <= last
    ensures Tried(server, first, 0, 0, off, last, etag, Some(Transient))
  {
  }

  /** A part is answered in full at once, or found to be gone. */
  lemma OfferedPart(server: Server, o: Offer, first: nat, k: nat, budget: nat, off: nat, last: nat,
                    err: Option<FetchError>)
    requires off <= last < o.size && Obliging(server, o) && o.since <= first && last + 1 - off <= o.chunk && 0 < budget
    requires Tried(server, first, k, budget, off, last, o.etag, err)
    ensures Served(err, o, first + k)
  {
    hide Outcome, Got, Obliging;
    assert k > 1 ==> Outcome(server(first, RangeGet(off, last, o.etag)), off, last, o.etag) == Some(Transient);
    OfferOutcome(server, o, first, off, last);
    GotAll(server(first, RangeGet(off, last, o.etag)), off, last, o.etag);
  }

  lemma BooksOpen(attempts: nat, partSize: nat, from: nat, total: nat, etag: string)
    requires 1 <= attempts && 1 <= partSize && from <= total
    ensures Budgeted(attempts, attempts, 0, 0, partSize, 0)
    ensures Resumes([], [], from, total, etag) && Sum([]) == 0
    ensures 0 <= Allowance(attempts, total - from, partSize)
  {
  }

  /** Writing the next n bytes of a generation behind a held prefix extends the prefix. */
  lemma ExtendHolds(was: seq<Byte>, buf: array<Byte>, off: nat, n: nat, file: seq<Byte>)
    requires |was| == buf.Length <= |file| && off + n <= buf.Length
    requires forall i :: 0 <= i < off ==> was[i] == file[i] && buf[i] == was[i]
    requires Holds(buf, off, off + n, file)
    ensures Holds(buf, 0, off + n, file)
  {
  }

  /** The rest of a file costs no more than the largest file. */
  lemma RestBound(attempts: nat, partSize: nat, rest: nat)
    requires 1 <= partSize && rest <= MAX_SEGMENT_BYTES
    ensures Allowance(attempts, rest, partSize) <= Allowance(attempts, MAX_SEGMENT_BYTES, partSize)
  {
    var q := CeilDiv(rest, partSize);
    assert q * partSize <= rest + partSize - 1;
    DivLower(q, partSize, MAX_SEGMENT_BYTES + partSize - 1);
    MulMono(q, CeilDiv(MAX_SEGMENT_BYTES, partSize), attempts);
  }

  /** Which part a byte belongs to. */
  function PartOf(i: nat, from: nat, partSize: nat): nat
    requires from <= i && 1 <= partSize
  {
    (i - from) / partSize
  }

  lemma PartBounds(k: nat, from: nat, partSize: nat, total: nat)
    requires 1 <= partSize && from <= total && k < CeilDiv(total - from, partSize)
    ensures from + k * partSize < total
  {
    var n := total - from;
    var q := CeilDiv(n, partSize);
    assert q * partSize <= n + partSize - 1;
    MulMono(k + 1, q, partSize);
    assert (k + 1) * partSize == k * partSize + partSize;
  }

  lemma PartCovers(k: nat, from: nat, partSize: nat, total: nat, i: nat)
    requires 1 <= partSize && from <= i < total
    ensures PartOf(i, from, partSize) == k <==> from + k * partSize <= i < from + k * partSize + partSize
  {
    var d, q := i - from, PartOf(i, from, partSize);
    assert q * partSize <= d < q * partSize + partSize;
    if q < k { MulMono(q + 1, k, partSize); assert (q + 1) * partSize == q * partSize + partSize; }
    if k < q { MulMono(k + 1, q, partSize); assert (k + 1) * partSize == k * partSize + partSize; }
  }

  lemma PartExists(i: nat, from: nat, partSize: nat, total: nat)
    requires 1 <= partSize && from <= i < total
    ensures PartOf(i, from, partSize) < CeilDiv(total - from, partSize)
  {
    var q := PartOf(i, from, partSize);
    DivLower(q + 1, partSize, total - from + partSize - 1);
  }

  /** Everything before `from` and every part but those left is in place. */
  ghost predicate PartsHeld(bytes: seq<Byte>, from: nat, partSize: nat, left: set<nat>, file: seq<Byte>)
    requires 1 <= partSize
  {
    && from <= |bytes| == |file|
    && forall i :: 0 <= i < |bytes| && (i < from || PartOf(i, from, partSize) !in left) ==> bytes[i] == file[i]
  }

  lemma PartsOpen(buf: array<Byte>, from: nat, partSize: nat, left: set<nat>, file: seq<Byte>)
    requires 1 <= partSize && from <= buf.Length == |file| && Holds(buf, 0, from, file)
    requires left == Below(CeilDiv(buf.Length - from, partSize))
    ensures PartsHeld(buf[..], from, partSize, left, file)
  {
    hide CeilDiv, PartOf;
    forall i | from <= i < buf.Length ensures PartOf(i, from, partSize) in left {
      PartExists(i, from, partSize, buf.Length);
    }
  }

  lemma PartsStep(was: seq<Byte>, now: seq<Byte>, from: nat, partSize: nat, left: set<nat>, k: nat, file: seq<Byte>)
    requires 1 <= partSize && PartsHeld(was, from, partSize, left, file) && |now| == |was|
    requires forall i :: 0 <= i < |now| && (i < from || PartOf(i, from, partSize) != k) ==> now[i] == was[i]
    requires forall i :: from <= i < |now| && PartOf(i, from, partSize) == k ==> now[i] == file[i]
    ensures PartsHeld(now, from, partSize, left - {k}, file)
  {
    hide PartOf;
  }

  lemma PartsDone(buf: array<Byte>, from: nat, partSize: nat, file: seq<Byte>)
    requires 1 <= partSize && PartsHeld(buf[..], from, partSize, {}, file)
    ensures Holds(buf, 0, buf.Length, file)
  {
    hide PartOf;
    assert forall i :: 0 <= i < buf.Length ==> buf[..][i] == file[i];
  }

  /** So many requests for so many parts. */
  ghost predicate Spent(requests: int, attempts: nat, parts: nat) {
    requests <= attempts * parts
  }

  lemma SpentWithin(requests: int, attempts: nat, done: nat, parts: nat, rest: nat, partSize: nat)
    requires Spent(requests, attempts, done) && 1 <= partSize && done <= parts == CeilDiv(rest, partSize)
    ensures requests <= Allowance(attempts, rest, partSize)
  {
    MulMono(done, parts, attempts);
  }

  lemma SpendPart(was: int, now: int, attempts: nat, done: nat)
    requires Spent(was, attempts, done) && now <= was + attempts
    ensures Spent(now, attempts, done + 1)
  {
    assert attempts * (done + 1) == attempts * done + attempts;
  }

  function Below(n: nat): (r: set<nat>)
    ensures |r| == n && forall k: nat :: k in r <==> k < n
  {
    if n == 0 then {} else Below(n - 1) + {n - 1}
  }
}
