/**
 The logs a subscriber plays back from: the in-memory persister (events/persist.go)
 and the chunked ring buffer of the splitter (splitter/ringbuf.go).
 */
module Persisters {
  import opened Common
  import opened Fanout

  /** The naive log: sequence numbers 1, 2, 3 and so on, used as slice positions. */
  class MemPersister {
    var buf: seq<int>
    var seqNo: nat

    ghost predicate Valid()
      reads this
    {
      seqNo == |buf| && forall i :: 0 <= i < |buf| ==> buf[i] == i + 1
    }

    constructor ()
      ensures Valid() && buf == []
    {
      buf, seqNo := [], 0;
    }

    method Persist() returns (event: int)
      requires Valid()
      modifies this
      ensures Valid() && buf == old(buf) + [event] && Tip(old(buf)) < event
    {
      seqNo := seqNo + 1;
      event := seqNo;
      buf := buf + [event];
    }

    /** The slice from `since` on is what was asked for; a negative cursor has no slice. */
    method Playback(since: int) returns (out: Option<seq<int>>)
      requires Valid()
      ensures out.None? <==> since < 0
      ensures out.Some? ==> out.value == After(buf, since)
    {
      if since >= |buf| {
        NothingAfter(buf, since);
        return Some([]);
      }
      if since < 0 { return None; }
      var events := [];
      for i := since to |buf|
        invariant events == buf[since..i]
      {
        events := events + [buf[i]];
      }
      AllAfter(buf, since);
      assert buf[since..|buf|] == buf[since..];
      out := Some(events);
    }
  }

  lemma {:induction false} NothingAfter(log: seq<int>, since: int)
    requires forall i :: 0 <= i < |log| ==> log[i] <= since
    ensures After(log, since) == []
  {
    if log != [] { NothingAfter(log[..|log| - 1], since); }
  }

  lemma {:induction false} EverythingAfter(log: seq<int>, since: int)
    requires forall i :: 0 <= i < |log| ==> since < log[i]
    ensures After(log, since) == log
  {
    if log != [] { EverythingAfter(log[..|log| - 1], since); assert log == log[..|log| - 1] + [log[|log| - 1]]; }
  }

  lemma {:induction false} AfterConcat(a: seq<int>, b: seq<int>, since: int)
    ensures After(a + b, since) == After(a, since) + After(b, since)
  {
    if b == [] {
      assert a + b == a;
    } else {
      AfterConcat(a, b[..|b| - 1], since);
      assert (a + b)[..|a + b| - 1] == a + b[..|b| - 1];
    }
  }

  lemma AllAfter(log: seq<int>, since: nat)
    requires since <= |log| && forall i :: 0 <= i < |log| ==> log[i] == i + 1
    ensures After(log, since) == log[since..]
  {
    NothingAfter(log[..since], since);
    EverythingAfter(log[since..], since);
    AfterConcat(log[..since], log[since..], since);
    assert log == log[..since] + log[since..];
  }

  function Flat(chunks: seq<seq<int>>): seq<int> {
    if chunks == [] then [] else Flat(chunks[..|chunks| - 1]) + chunks[|chunks| - 1]
  }

  function Min(a: int, b: int): int { if a < b then a else b }

  /** Full chunks, then one partly filled chunk that is never empty. */
  ghost predicate WellChunked(chunks: seq<seq<int>>, chunkSize: nat) {
    && (forall i :: 0 <= i < |chunks| - 1 ==> |chunks[i]| == chunkSize)
    && (chunks != [] ==> 1 <= |chunks[|chunks| - 1]| <= chunkSize)
  }

  lemma {:induction false} FlatLength(chunks: seq<seq<int>>, chunkSize: nat)
    requires forall i :: 0 <= i < |chunks| ==> |chunks[i]| == chunkSize
    ensures |Flat(chunks)| == |chunks| * chunkSize
  {
    if chunks != [] {
      var n := |chunks| - 1;
      FlatLength(chunks[..n], chunkSize);
      FlatSnoc(chunks, n);
      hide Flat;
      assert |Flat(chunks[..n])| == n * chunkSize;
      assert (n + 1) * chunkSize == n * chunkSize + chunkSize;
    }
  }

  lemma FlatSnoc(chunks: seq<seq<int>>, n: nat)
    requires |chunks| == n + 1
    ensures Flat(chunks) == Flat(chunks[..n]) + chunks[n]
  {
  }

  lemma {:induction false} FlatTail(chunks: seq<seq<int>>)
    requires chunks != []
    ensures Flat(chunks) == chunks[0] + Flat(chunks[1..])
  {
    var n := |chunks| - 1;
    if n == 0 {
      assert chunks[..0] == [] && chunks[1..] == [] && [] + chunks[0] == chunks[0] + [];
    } else {
      var init, rest, last := chunks[..n], chunks[1..], chunks[n];
      FlatTail(init);
      assert init[1..] == rest[..n - 1] && rest[n - 1] == last && init[0] == chunks[0];
      FlatSnoc(chunks, n);
      FlatSnoc(rest, n - 1);
      hide Flat;
      Assoc(chunks[0], Flat(rest[..n - 1]), last);
    }
  }

  lemma CeilAt(k: nat, c: nat, r: nat)
    requires 1 <= c && 1 <= r <= c
    ensures CeilDiv(k * c + r, c) == k + 1
  {
    assert k * c + r + c - 1 == (k + 1) * c + (r - 1);
    DivExact(k + 1, c, r - 1);
  }

  lemma DivExact(q: nat, c: nat, r: nat)
    requires r < c
    ensures (q * c + r) / c == q
  {
    var n := q * c + r;
    assert n == (n / c) * c + n % c;
    if n / c < q { MulGap(n / c, q, c); }
    if q < n / c { MulGap(q, n / c, c); }
  }

  lemma MulGap(a: nat, b: nat, c: nat)
    requires a < b
    ensures a * c + c <= b * c
  {
    assert (a + 1) * c == a * c + c;
    MulMono(a + 1, b, c);
  }

  lemma Distribute(a: nat, b: nat, c: nat)
    ensures (a + b) * c == a * c + b * c
  {
  }

  /** How many chunks the whole log takes, given how full the last one is. */
  lemma ChunkCount(chunks: seq<seq<int>>, persisted: seq<int>, evicted: nat, c: nat)
    requires 1 <= c && WellChunked(chunks, c) && chunks != []
    requires |Flat(chunks)| == |persisted| - evicted * c
    ensures |persisted| == (evicted + |chunks| - 1) * c + |chunks[|chunks| - 1]|
    ensures CeilDiv(|persisted|, c) == evicted + |chunks|
  {
    hide CeilDiv;
    var full, last := chunks[..|chunks| - 1], chunks[|chunks| - 1];
    FlatLength(full, c);
    Distribute(evicted, |full|, c);
    CeilAt(evicted + |full|, c, |last|);
  }

  /** The retained chunks: the log after `evicted` whole chunks. */
  ghost predicate Retains(chunks: seq<seq<int>>, persisted: seq<int>, evicted: nat, c: nat) {
    && 1 <= c && WellChunked(chunks, c)
    && evicted * c <= |persisted|
    && Flat(chunks) == persisted[evicted * c..]
    && (chunks == [] ==> persisted == [] && evicted == 0)
  }

  /** Appending to a chunk with room. */
  lemma AppendToLast(chunks: seq<seq<int>>, persisted: seq<int>, evicted: nat, c: nat, e: int)
    requires Retains(chunks, persisted, evicted, c) && chunks != [] && |chunks[|chunks| - 1]| < c
    ensures Retains(chunks[..|chunks| - 1] + [chunks[|chunks| - 1] + [e]], persisted + [e], evicted, c)
  {
    var n := |chunks| - 1;
    var after := chunks[..n] + [chunks[n] + [e]];
    assert after[..n] == chunks[..n];
    assert Flat(after) == Flat(chunks) + [e];
    assert (persisted + [e])[evicted * c..] == persisted[evicted * c..] + [e];
  }

  /** Starting a new chunk behind full ones. */
  lemma AppendChunk(chunks: seq<seq<int>>, persisted: seq<int>, evicted: nat, c: nat, e: int)
    requires Retains(chunks, persisted, evicted, c) && (chunks != [] ==> |chunks[|chunks| - 1]| == c)
    ensures Retains(chunks + [[e]], persisted + [e], evicted, c)
  {
    var after := chunks + [[e]];
    assert after[..|chunks|] == chunks;
    assert (persisted + [e])[evicted * c..] == persisted[evicted * c..] + [e];
  }

  /** Letting the oldest chunk go. */
  lemma DropFirst(chunks: seq<seq<int>>, persisted: seq<int>, evicted: nat, c: nat)
    requires Retains(chunks, persisted, evicted, c) && |chunks| > 1
    ensures Retains(chunks[1..], persisted, evicted + 1, c)
  {
    FlatTail(chunks);
    assert |chunks[0]| == c;
    assert (evicted + 1) * c == evicted * c + c;
    assert persisted[evicted * c..][c..] == persisted[(evicted + 1) * c..];
    assert Flat(chunks)[c..] == Flat(chunks[1..]);
  }

  class EventRingBuffer {
    const chunkSize: nat
    const maxChunkCount: nat
    var chunks: seq<seq<int>>
    ghost var persisted: seq<int>  // everything ever persisted
    ghost var evicted: nat         // whole chunks let go

    /** The chunks are the newest part of the log, and only as much was let go as had to be. */
    ghost predicate Valid()
      reads this
    {
      && 1 <= chunkSize && 1 <= maxChunkCount
      && IsLog(persisted)
      && Retains(chunks, persisted, evicted, chunkSize)
      && |chunks| <= maxChunkCount
      && (evicted > 0 ==> |chunks| == maxChunkCount)
    }

    constructor (chunkSize: nat, nchunks: nat)
      requires 1 <= chunkSize && 1 <= nchunks
      ensures Valid() && persisted == [] && this.chunkSize == chunkSize && maxChunkCount == nchunks
    {
      this.chunkSize, maxChunkCount := chunkSize, nchunks;
      chunks, persisted, evicted := [], [], 0;
    }

    method Persist(e: int)
      requires Valid() && Tip(persisted) < e
      modifies this
      ensures Valid() && persisted == old(persisted) + [e] && evicted >= old(evicted)
    {
      hide Retains, Flat;
      LogSnoc(persisted, e);
      var n := |chunks|;
      RetainedShape(chunks, persisted, evicted, chunkSize);
      if n == 0 || |chunks[n - 1]| >= chunkSize {
        AppendChunk(chunks, persisted, evicted, chunkSize, e);
        chunks := chunks + [[e]];
        if |chunks| > maxChunkCount {
          DropFirst(chunks, persisted + [e], evicted, chunkSize);
          chunks := chunks[1..];
          evicted := evicted + 1;
        }
      } else {
        AppendToLast(chunks, persisted, evicted, chunkSize, e);
        chunks := chunks[..n - 1] + [chunks[n - 1] + [e]];
      }
      persisted := persisted + [e];
    }

    /** The number of chunks is what the log needs, up to the limit. */
    lemma ChunksHeld()
      requires Valid()
      ensures |chunks| == Min(CeilDiv(|persisted|, chunkSize), maxChunkCount)
      ensures forall i :: 0 <= i < |chunks| ==> chunks[i] != []
    {
      if chunks != [] {
        ChunkCount(chunks, persisted, evicted, chunkSize);
      } else {
        assert CeilDiv(0, chunkSize) == 0 by { DivExact(0, chunkSize, chunkSize - 1); }
      }
    }

    /**
     Where the backward scan stops: behind the last chunk that lies entirely before
     the cursor. The newest chunk is looked at as it stands after `grown` more events.
     */
    method ScanBack(since: int, grown: seq<int>) returns (i: nat)
      requires Valid()
      ensures i <= |chunks|
      ensures 0 < i < |chunks| ==> chunks[i - 1] != [] && since > chunks[i - 1][|chunks[i - 1]| - 1]
      ensures chunks != [] ==> (i == |chunks| <==> since > Tip(chunks[|chunks| - 1] + grown))
      ensures forall k :: i <= k < |chunks| - 1 ==> chunks[k] != [] && since <= chunks[k][|chunks[k]| - 1]
    {
      hide Flat, Retains, IsLog, CeilDiv;
      ChunksHeld();
      var k := |chunks| - 1;
      while k >= 0
        invariant -1 <= k < |chunks|
        invariant k < |chunks| - 1 ==> since <= Tip(chunks[|chunks| - 1] + grown)
        invariant forall j :: k < j < |chunks| - 1 ==> chunks[j] != [] && since <= chunks[j][|chunks[j]| - 1]
      {
        var evts := if k == |chunks| - 1 then chunks[k] + grown else chunks[k];
        if since > evts[|evts| - 1] { return k + 1; }
        k := k - 1;
      }
      i := 0;
    }

    /** Hands on what a chunk holds from position `from` on. */
    method ReadOn(evts: seq<int>, from: nat, since: int, sofar: seq<int>) returns (out: seq<int>)
      requires from <= |evts|
      ensures out == sofar + After(evts[from..], since)
    {
      out := sofar;
      assert sofar + [] == sofar && evts[from..from] == [];
      for j := from to |evts|
        invariant out == sofar + After(evts[from..j], since)
      {
        assert evts[from..j + 1][..j - from] == evts[from..j];
        if evts[j] > since { out := out + [evts[j]]; }
      }
      assert evts[from..|evts|] == evts[from..];
    }

    /**
     One playback round over a snapshot of the chunks while writers go on: `during`
     is what they persist meanwhile, as much of it as fits lands in the snapshot's
     newest chunk, and `seen(r)` of it is there at the r-th look. The round hands on
     everything up to the first look that found nothing more.
     */
    method PlaybackRound(since: int, during: seq<int>, seen: nat -> nat)
      returns (lastSeq: int, out: seq<int>, ghost m: nat)
      requires Valid() && IsLog(persisted + during)
      ensures m <= |during| && out == After(Flat(chunks) + during[..m], since)
      ensures m == Reach(chunks, chunkSize, during, seen, since)
      ensures lastSeq == LastOr(out, since)
    {
      hide Flat, After, Retains, IsLog, CeilDiv;
      var n := |chunks|;
      if n == 0 {
        EmptyRing(chunks, since);
        return since, [], 0;
      }
      ChunksHeld();
      var room := Min(chunkSize - |chunks[n - 1]|, |during|);
      RetainedShape(chunks, persisted, evicted, chunkSize);
      var g := Min(seen(0), room);
      var i := ScanBack(since, during[..g]);
      if i == n {
        AllOld(chunks, persisted, evicted, chunkSize, during, g, since);
        return since, [], g;
      }
      SkippedAreOld(chunks, persisted, evicted, chunkSize, since, i);
      out := [];
      PlayedNothing(chunks, i, since);
      for k := i to n - 1
        invariant out == After(Flat(chunks[i..k]), since)
      {
        PlayedChunk(chunks, i, k);
        AfterConcat(Flat(chunks[i..k]), chunks[k], since);
        out := ReadOn(chunks[k], 0, since, out);
        assert chunks[k][0..] == chunks[k];
      }
      PlayedChunk(chunks, i, n - 1);
      out, m := ReadNewest(chunks[n - 1], during, seen, g, room, since, out);
      assert chunks[i..n] == chunks[i..];
      Regrouped(Flat(chunks[i..n - 1]), chunks[n - 1], during[..m], since);
      AfterConcat(Flat(chunks[i..]), during[..m], since);
      AfterConcat(Flat(chunks), during[..m], since);
      lastSeq := LastOr(out, since);
    }

    /** The newest chunk, looked at again after each pass until nothing more has arrived. */
    method ReadNewest(chunk: seq<int>, during: seq<int>, seen: nat -> nat, grown: nat, room: nat, since: int,
                      sofar: seq<int>)
      returns (out: seq<int>, m: nat)
      requires grown <= room <= |during| && chunk != []
      ensures m == Settled(seen, room, grown, 1) && m <= |during| && out == sofar + After(chunk + during[..m], since)
    {
      hide After;
      var g, look, nread := grown, 0, 0;
      var evts := chunk + during[..g];
      out := sofar;
      NothingAfter([], since);
      assert sofar + [] == sofar;
      while nread < |evts|
        invariant g <= room && nread <= |evts| && evts == chunk + during[..g]
        invariant out == sofar + After(evts[..nread], since)
        invariant nread < |evts| ==> Settled(seen, room, g, look + 1) == Settled(seen, room, grown, 1)
        invariant nread == |evts| ==> g == Settled(seen, room, grown, 1)
        decreases |chunk| + room - nread
      {
        AfterConcat(evts[..nread], evts[nread..], since);
        assert evts[..nread] + evts[nread..] == evts;
        Assoc(sofar, After(evts[..nread], since), After(evts[nread..], since));
        out := ReadOn(evts, nread, since, out);
        nread, look := |evts|, look + 1;
        var more := Min(seen(look), room);
        if more > g {
          GrowsBehind(chunk, during, g, more);
          g := more;
          evts := chunk + during[..g];
        }
        assert evts[..|evts|] == evts;
      }
      assert evts[..nread] == evts;
      m := g;
    }

    method PersistAll(es: seq<int>)
      requires Valid() && IsLog(persisted + es)
      modifies this
      ensures Valid() && persisted == old(persisted) + es && evicted >= old(evicted)
    {
      hide IsLog, Retains;
      assert persisted + [] == persisted;
      for k := 0 to |es|
        invariant Valid() && persisted == old(persisted) + es[..k] && evicted >= old(evicted)
      {
        LogPrefix(old(persisted) + es, |old(persisted)| + k);
        assert (old(persisted) + es)[..|old(persisted)| + k] == persisted;
        Persist(es[k]);
        assert es[..k + 1] == es[..k] + [es[k]];
      }
      assert es[..|es|] == es;
    }

    /**
     Up to ten rounds, until one brings nothing new, with `traffic(r)` persisted
     during the r-th. If by the end nothing after the cursor has been evicted, what
     was handed on is exactly what the plain log held up to some point at or past
     where the last round began, and if that was not the tenth, up to just there.
     */
    method Playback(since: int, traffic: nat -> Traffic) returns (out: seq<int>, ghost n: nat, ghost rounds: nat)
      requires Valid() && forall k: nat :: IsLog(persisted + Written(traffic, k))
      modifies this
      ensures Valid() && 1 <= rounds <= 10 && persisted == old(persisted) + Written(traffic, rounds)
      ensures |old(persisted) + Written(traffic, rounds - 1)| <= n <= |persisted|
      ensures rounds < 10 && Kept(persisted, evicted, chunkSize, since) ==>
                out == After(old(persisted) + Written(traffic, rounds - 1), since)
      ensures Kept(persisted, evicted, chunkSize, since) ==>
                out == After(persisted[..n], since) && IsPlayback(old(persisted), persisted, since, out)
    {
      hide After, Flat, IsLog, Retains, Kept, IsPlayback;
      out, n, rounds := [], 0, 0;
      var cursor := since;
      ghost var start := persisted;
      assert persisted + Written(traffic, 0) == persisted;
      NothingAfter([], since);
      for round := 0 to 10
        invariant Valid() && persisted == start + Written(traffic, round)
        invariant n <= |persisted| && (round > 0 ==> |start + Written(traffic, round - 1)| <= n)
        invariant cursor == LastOr(out, since) && rounds == round
        invariant Kept(persisted, evicted, chunkSize, since) ==> out == After(persisted[..n], since)
      {
        assert IsLog(start + Written(traffic, round + 1));
        Assoc(start, Written(traffic, round), traffic(round).during);
        var last;
        last, out, n := PlayOn(since, cursor, traffic(round), out, n);
        rounds := round + 1;
        if last == cursor {
          Realised(start, Written(traffic, round + 1), since, n);
          return;
        }
        cursor := last;
      }
      Realised(start, Written(traffic, 10), since, n);
    }

    /** One more round of a playback, with what writers persist meanwhile. */
    method PlayOn(since: int, cursor: int, t: Traffic, sofar: seq<int>, ghost had: nat)
      returns (last: int, out: seq<int>, ghost n: nat)
      requires Valid() && IsLog(persisted + t.during) && had <= |persisted| && cursor == LastOr(sofar, since)
      requires Kept(persisted, evicted, chunkSize, since) ==> sofar == After(persisted[..had], since)
      modifies this
      ensures Valid() && persisted == old(persisted) + t.during
      ensures |old(persisted)| <= n <= |persisted| && last == LastOr(out, since)
      ensures Kept(persisted, evicted, chunkSize, since) ==>
                out == After(persisted[..n], since) && (last == cursor ==> out == After(old(persisted), since))
    {
      hide After, Flat, IsLog, Retains, Kept;
      ghost var before, gone, held, m := persisted, evicted, chunks, 0;
      var more;
      last, more, m := PlaybackRound(cursor, t.during, t.seen);
      PersistAll(t.during);
      PlaybackStep(before, held, gone, t.during, m, evicted, chunkSize, since, had, sofar);
      IdleRound(before, held, gone, t.during, m, evicted, chunkSize, since, had, sofar);
      LastOn(sofar, more, since);
      LastAbove(Flat(held) + t.during[..m], cursor);
      out, n := sofar + more, |before| + m;
    }

    /**
     The ring refines the plain log: a cursor gets from the chunks exactly what the
     whole log holds for it, if and only if nothing after it has been evicted.
     */
    lemma PlaybackRefines(since: int)
      requires Valid()
      ensures After(Flat(chunks), since) == After(persisted, since) <==> Kept(persisted, evicted, chunkSize, since)
    {
      hide Flat, After, WellChunked;
      var n := evicted * chunkSize;
      if evicted > 0 { MulMono(1, evicted, chunkSize); }
      AfterTail(persisted, n, since);
    }
  }

  /** What writers persist during one round, and how much of it the r-th look at the newest chunk finds. */
  datatype Traffic = Traffic(during: seq<int>, seen: nat -> nat)

  /** Everything written during the first k rounds. */
  function Written(traffic: nat -> Traffic, k: nat): seq<int> {
    if k == 0 then [] else Written(traffic, k - 1) + traffic(k - 1).during
  }

  function LastOr(out: seq<int>, since: int): int {
    if out == [] then since else out[|out| - 1]
  }

  /** How much of what is being written the looks at the newest chunk have found when one finds nothing more. */
  function Settled(seen: nat -> nat, room: nat, g: nat, look: nat): (m: nat)
    requires g <= room
    ensures g <= m <= room
    decreases room - g
  {
    var more := Min(seen(look), room);
    if more > g then Settled(seen, room, more, look + 1) else g
  }

  /** How far into `during` a round reads: not past the newest chunk, and not at all on if that one is old. */
  function Reach(chunks: seq<seq<int>>, c: nat, during: seq<int>, seen: nat -> nat, since: int): nat {
    if chunks == [] || c < |chunks[|chunks| - 1]| then 0
    else
      var newest := chunks[|chunks| - 1];
      var room := Min(c - |newest|, |during|);
      var g := Min(seen(0), room);
      if since > Tip(newest + during[..g]) then g else Settled(seen, room, g, 1)
  }

  /** Nothing after the cursor has been let go. */
  ghost predicate Kept(persisted: seq<int>, evicted: nat, c: nat, since: int) {
    evicted == 0 || (0 < evicted * c <= |persisted| && persisted[evicted * c - 1] <= since)
  }

  lemma Realised(log: seq<int>, more: seq<int>, since: int, n: nat)
    requires IsLog(log + more) && |log| <= n <= |log + more|
    ensures IsPlayback(log, log + more, since, After((log + more)[..n], since))
  {
    hide After, Runs, Final, IsLog, IsPlayback;
    var steps := PlaybackRealised(log, more, since, n);
  }

  lemma KeptEarlier(before: seq<int>, gone: nat, persisted: seq<int>, evicted: nat, c: nat, since: int)
    requires IsLog(persisted) && before <= persisted && gone <= evicted && 1 <= c && gone * c <= |before|
    requires Kept(persisted, evicted, c, since)
    ensures Kept(before, gone, c, since)
  {
    if gone > 0 {
      MulMono(1, gone, c);
      MulMono(gone, evicted, c);
    }
  }

  lemma LogPrefix(log: seq<int>, n: nat)
    requires IsLog(log) && n < |log|
    ensures Tip(log[..n]) < log[n]
  {
  }

  lemma LastOn(out: seq<int>, more: seq<int>, since: int)
    ensures LastOr(out + more, since) == LastOr(more, LastOr(out, since))
  {
  }

  lemma GrowsBehind(chunk: seq<int>, during: seq<int>, g: nat, more: nat)
    requires g <= more <= |during|
    ensures (chunk + during[..more])[..|chunk + during[..g]|] == chunk + during[..g]
  {
  }

  lemma Regrouped(front: seq<int>, last: seq<int>, more: seq<int>, since: int)
    ensures After(front, since) + After(last + more, since) == After((front + last) + more, since)
  {
    AfterConcat(front, last + more, since);
    Assoc(front, last, more);
  }

  lemma EmptyRing(chunks: seq<seq<int>>, since: int)
    requires chunks == []
    ensures After(Flat(chunks) + [], since) == []
  {
  }

  /** A newest chunk that ends before the cursor leaves nothing to hand on. */
  lemma AllOld(chunks: seq<seq<int>>, persisted: seq<int>, evicted: nat, c: nat, during: seq<int>, g: nat, since: int)
    requires Retains(chunks, persisted, evicted, c) && chunks != [] && g <= |during| && IsLog(persisted + during)
    requires since > Tip(chunks[|chunks| - 1] + during[..g])
    ensures After(Flat(chunks) + during[..g], since) == []
  {
    var log, held := persisted + during[..g], Flat(chunks) + during[..g];
    assert held == log[evicted * c..];
    assert Tip(held) == Tip(chunks[|chunks| - 1] + during[..g]);
    forall i | 0 <= i < |held| ensures held[i] <= since {
      assert held[i] == (persisted + during)[evicted * c + i];
      assert Tip(held) == (persisted + during)[evicted * c + |held| - 1];
    }
    NothingAfter(held, since);
  }

  /** Going on from the last event handed on misses nothing and repeats nothing. */
  lemma Continue(log: seq<int>, n: nat, since: int)
    requires IsLog(log) && n <= |log|
    ensures var out := After(log[..n], since);
            out + After(log, LastOr(out, since)) == After(log, since)
  {
    hide After;
    var out := After(log[..n], since);
    assert log == log[..n] + log[n..];
    if out == [] { assert out + After(log, since) == After(log, since); } else { GoOn(log[..n], log[n..], since); }
  }

  lemma GoOn(head: seq<int>, rest: seq<int>, since: int)
    requires IsLog(head + rest) && After(head, since) != []
    ensures After(head, since) + After(head + rest, LastOr(After(head, since), since)) == After(head + rest, since)
  {
    hide After;
    LogHead(head, rest);
    LastIsIn(head, since);
    var cursor := head[|head| - 1];
    NothingAfter(head, cursor);
    EverythingAfter(rest, cursor);
    EverythingAfter(rest, since);
    AfterConcat(head, rest, since);
    AfterConcat(head, rest, cursor);
    assert [] + rest == rest;
  }

  lemma LogHead(head: seq<int>, rest: seq<int>)
    requires IsLog(head + rest)
    ensures IsLog(head) && forall i :: 0 <= i < |head| ==> head[i] <= head[|head| - 1]
    ensures head != [] ==> forall i :: 0 <= i < |rest| ==> head[|head| - 1] < rest[i]
  {
    var log := head + rest;
    assert forall i :: 0 <= i < |head| ==> log[i] == head[i];
    assert forall i :: 0 <= i < |rest| ==> log[|head| + i] == rest[i];
  }

  /** The last event handed on is the last one of the log read. */
  lemma LastIsIn(log: seq<int>, since: int)
    requires IsLog(log) && After(log, since) != []
    ensures log != [] && LastOr(After(log, since), since) == log[|log| - 1] > since
  {
    if log[|log| - 1] <= since {
      NothingAfter(log, since);
    }
  }

  lemma HeldIs(chunks: seq<seq<int>>, persisted: seq<int>, evicted: nat, c: nat, more: seq<int>)
    requires Retains(chunks, persisted, evicted, c)
    ensures evicted * c <= |persisted| && Flat(chunks) + more == (persisted + more)[evicted * c..]
  {
  }

  /** One round, from whatever an earlier one handed on. */
  lemma RoundStep(before: seq<int>, chunks: seq<seq<int>>, gone: nat, c: nat, during: seq<int>, m: nat, since: int,
                  n: nat, out: seq<int>)
    requires Retains(chunks, before, gone, c) && IsLog(before + during) && m <= |during| && n <= |before|
    requires Kept(before, gone, c, since) && out == After(before[..n], since)
    ensures out + After(Flat(chunks) + during[..m], LastOr(out, since)) == After(before + during[..m], since)
  {
    hide After, Flat, Retains, LastOr;
    var log := before + during[..m];
    assert log == (before + during)[..|log|] && log[..n] == before[..n];
    HeldIs(chunks, before, gone, c, during[..m]);
    LogStep(log, gone * c, n, since, out);
  }

  lemma PlaybackStep(before: seq<int>, chunks: seq<seq<int>>, gone: nat, during: seq<int>, m: nat, evicted: nat, c: nat,
                     since: int, n: nat, out: seq<int>)
    requires Retains(chunks, before, gone, c) && IsLog(before + during)
    requires m <= |during| && n <= |before| && gone <= evicted
    requires Kept(before, gone, c, since) ==> out == After(before[..n], since)
    ensures Kept(before + during, evicted, c, since) ==>
              out + After(Flat(chunks) + during[..m], LastOr(out, since))
              == After((before + during)[..|before| + m], since)
  {
    if Kept(before + during, evicted, c, since) {
      RetainedShape(chunks, before, gone, c);
      hide After, Flat, Retains;
      KeptEarlier(before, gone, before + during, evicted, c, since);
      RoundStep(before, chunks, gone, c, during, m, since, n, out);
      assert (before + during)[..|before| + m] == before + during[..m];
    }
  }

  /** A round that brings nothing shows that what was there when it began has all been handed on. */
  lemma IdleRound(before: seq<int>, chunks: seq<seq<int>>, gone: nat, during: seq<int>, m: nat, evicted: nat, c: nat,
                  since: int, n: nat, out: seq<int>)
    requires Retains(chunks, before, gone, c) && IsLog(before + during)
    requires m <= |during| && n <= |before| && gone <= evicted
    requires Kept(before, gone, c, since) ==> out == After(before[..n], since)
    ensures Kept(before + during, evicted, c, since) && After(Flat(chunks) + during[..m], LastOr(out, since)) == [] ==>
              out == After(before, since)
  {
    hide After, Flat, IsLog, Kept, CeilDiv;
    if Kept(before + during, evicted, c, since) && After(Flat(chunks) + during[..m], LastOr(out, since)) == [] {
      RetainedShape(chunks, before, gone, c);
      PlaybackStep(before, chunks, gone, during, m, evicted, c, since, n, out);
      assert out + [] == out;
      KeptEarlier(before, gone, before + during, evicted, c, since);
      assert (before + during)[..|before| + m] == before + during[..m];
      Between(before, n, during[..m], since);
    }
  }

  lemma Between(log: seq<int>, n: nat, more: seq<int>, since: int)
    requires n <= |log| && After(log + more, since) == After(log[..n], since)
    ensures After(log, since) == After(log[..n], since)
  {
    hide After;
    AfterConcat(log[..n], log[n..], since);
    assert log[..n] + log[n..] == log;
    AfterConcat(log, more, since);
  }

  lemma {:induction false} LastAbove(log: seq<int>, since: int)
    ensures After(log, since) != [] ==> LastOr(After(log, since), since) > since
  {
    if log != [] && log[|log| - 1] <= since { LastAbove(log[..|log| - 1], since); }
  }

  lemma LogStep(log: seq<int>, k: nat, n: nat, since: int, out: seq<int>)
    requires IsLog(log) && k <= |log| && n <= |log| && (k == 0 || log[k - 1] <= since)
    requires out == After(log[..n], since)
    ensures out + After(log[k..], LastOr(out, since)) == After(log, since)
  {
    if out != [] { LastIsIn(log[..n], since); }
    hide After;
    AfterTail(log, k, LastOr(out, since));
    Continue(log, n, since);
  }

  /** Dropping the first n events changes an answer exactly when one of them belonged to it. */
  lemma AfterTail(log: seq<int>, n: nat, since: int)
    requires IsLog(log) && n <= |log|
    ensures After(log[n..], since) == After(log, since) <==> n == 0 || log[n - 1] <= since
  {
    var gone, kept := log[..n], log[n..];
    assert log == gone + kept;
    AfterConcat(gone, kept, since);
    if n == 0 || log[n - 1] <= since {
      forall k | 0 <= k < n ensures gone[k] <= since {
        assert k == n - 1 || log[k] < log[n - 1];
      }
      NothingAfter(gone, since);
    } else {
      assert |After(gone, since)| > 0;
    }
  }

  lemma {:induction false} FlatSplit(chunks: seq<seq<int>>, i: nat)
    requires i <= |chunks|
    ensures Flat(chunks) == Flat(chunks[..i]) + Flat(chunks[i..])
    decreases |chunks| - i
  {
    if i == |chunks| {
      assert chunks[..i] == chunks;
    } else {
      FlatSplit(chunks, i + 1);
      FlatTail(chunks[i..]);
      assert chunks[i..][1..] == chunks[i + 1..];
      assert chunks[..i + 1][..i] == chunks[..i];
    }
  }

  /** Chunks skipped by the backward scan hold nothing after the cursor. */
  lemma SkippedAreOld(chunks: seq<seq<int>>, persisted: seq<int>, evicted: nat, c: nat, since: int, i: nat)
    requires Retains(chunks, persisted, evicted, c) && IsLog(persisted) && i <= |chunks|
    requires forall k :: 0 <= k < |chunks| ==> chunks[k] != []
    requires i == 0 || since > chunks[i - 1][|chunks[i - 1]| - 1]
    ensures After(Flat(chunks), since) == After(Flat(chunks[i..]), since)
  {
    FlatSplit(chunks, i);
    var front, rest := Flat(chunks[..i]), Flat(chunks[i..]);
    if i == 0 {
      assert chunks[0..] == chunks;
    } else {
      assert front[|front| - 1] == chunks[i - 1][|chunks[i - 1]| - 1];
      forall k | 0 <= k < |front| ensures front[k] <= since {
        assert front[k] == persisted[evicted * c + k] && front[|front| - 1] == persisted[evicted * c + |front| - 1];
      }
      NothingAfter(front, since);
      AfterConcat(front, rest, since);
    }
  }

  lemma RetainedShape(chunks: seq<seq<int>>, persisted: seq<int>, evicted: nat, c: nat)
    requires Retains(chunks, persisted, evicted, c)
    ensures chunks != [] ==> 1 <= |chunks[|chunks| - 1]| <= c
    ensures evicted * c <= |persisted|
  {
  }

  lemma PlayedNothing(chunks: seq<seq<int>>, i: nat, since: int)
    requires i <= |chunks|
    ensures After(Flat(chunks[i..i]), since) == []
  {
  }

  lemma PlayedChunk(chunks: seq<seq<int>>, i: nat, k: nat)
    requires i <= k < |chunks|
    ensures Flat(chunks[i..k + 1]) == Flat(chunks[i..k]) + chunks[k]
    ensures Flat(chunks[i..k]) + chunks[k][..0] == Flat(chunks[i..k])
  {
    assert chunks[i..k + 1][..k - i] == chunks[i..k];
  }
}
