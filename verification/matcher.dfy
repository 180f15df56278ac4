/**
 The exact row filter of the client (jetstream/filter.go). One matcher object is
 shared by the downloader's row selector and the live tail's filter; a
 re-backfill raises its floor in place.
 */
module RowMatcher {
  import opened EventLog

  /** The exclusive lower bound: zero imposes nothing, since sequence numbers start at 1. */
  predicate AboveFloor(floor: Seq, s: Seq) {
    floor == 0 || floor < s
  }

  /** What a matcher with this floor lets through. */
  predicate Wanted(req: PlanRequest, floor: Seq, e: Event) {
    && AboveFloor(floor, e.seqNo)
    && (req.hasBeforeSeq ==> e.seqNo <= req.beforeSeq)
    && Passes(req, e)
  }

  class Matcher {
    const kinds: set<Kind>        // empty: match all kinds
    const dids: set<string>       // empty: match all DIDs
    const fullPaths: set<string>  // exact collection names
    const prefixes: seq<string>   // wildcard prefixes, each ending in a dot
    const hasBeforeSeq: bool
    const beforeSeq: Seq
    var afterSeq: Seq

    /** The resolved filters say the same as the request's lists. */
    ghost predicate Represents(req: PlanRequest) {
      && kinds == (set k | k in req.kinds)
      && dids == (set d | d in req.dids)
      && ResolvedCollections(req.collections, fullPaths, prefixes)
      && hasBeforeSeq == req.hasBeforeSeq && beforeSeq == req.beforeSeq
    }

    constructor (req: PlanRequest)
      ensures Represents(req) && afterSeq == req.afterSeq
    {
      var full: set<string>, pre: seq<string> := {}, [];
      for i := 0 to |req.collections|
        invariant ResolvedCollections(req.collections[..i], full, pre)
      {
        ghost var before := req.collections[..i];
        var c := req.collections[i];
        assert req.collections[..i + 1] == before + [c];
        if IsWildcard(c) {
          assert c[..|c| - 1] + "*" == c;
          pre := pre + [c[..|c| - 1]];
        } else {
          full := full + {c};
        }
      }
      assert req.collections[..|req.collections|] == req.collections;
      kinds := set k | k in req.kinds;
      dids := set d | d in req.dids;
      fullPaths, prefixes := full, pre;
      hasBeforeSeq, beforeSeq := req.hasBeforeSeq, req.beforeSeq;
      afterSeq := req.afterSeq;
    }

    method WantsSeq(s: Seq) returns (ok: bool)
      ensures ok <==> AboveFloor(afterSeq, s) && (hasBeforeSeq ==> s <= beforeSeq)
    {
      if afterSeq > 0 && s <= afterSeq { return false; }
      if hasBeforeSeq && s > beforeSeq { return false; }
      return true;
    }

    /** The filter chain decides exactly the request's predicate above the current floor. */
    method Wants(e: Event, ghost req: PlanRequest) returns (ok: bool)
      requires Represents(req)
      ensures ok <==> Wanted(req, afterSeq, e)
    {
      var inWindow := WantsSeq(e.seqNo);
      if !inWindow { return false; }
      if kinds != {} && e.kind !in kinds {
        assert e.kind !in req.kinds && req.kinds != [];
        return false;
      }
      assert req.kinds == [] || e.kind in req.kinds by { if req.kinds != [] { assert req.kinds[0] in kinds; } }
      if dids != {} && e.did !in dids {
        assert e.did !in req.dids && req.dids != [];
        return false;
      }
      assert req.dids == [] || e.did in req.dids by { if req.dids != [] { assert req.dids[0] in dids; } }
      ResolvedEmpty(req.collections, fullPaths, prefixes);
      if fullPaths == {} && prefixes == [] { return true; }
      if e.kind != Commit { return true; }
      if e.collection == "" { return true; }
      ResolvedDecides(req.collections, fullPaths, prefixes, e.collection);
      if e.collection in fullPaths { return true; }
      for i := 0 to |prefixes|
        invariant forall j :: 0 <= j < i ==> !HasPrefix(e.collection, prefixes[j])
      {
        if HasPrefix(e.collection, prefixes[i]) { return true; }
      }
      return false;
    }

    method SetAfterSeq(s: Seq)
      modifies this`afterSeq
      ensures afterSeq == s
    {
      afterSeq := s;
    }
  }

  /** The collection list split into exact names and wildcard prefixes. */
  ghost predicate ResolvedCollections(cs: seq<string>, full: set<string>, pre: seq<string>) {
    && (forall c :: c in full <==> c in cs && !IsWildcard(c))
    && (forall i :: 0 <= i < |cs| && IsWildcard(cs[i]) ==> cs[i][..|cs[i]| - 1] in pre)
    && (forall j :: 0 <= j < |pre| ==> pre[j] + "*" in cs && IsWildcard(pre[j] + "*"))
  }

  lemma ResolvedEmpty(cs: seq<string>, full: set<string>, pre: seq<string>)
    requires ResolvedCollections(cs, full, pre)
    ensures full == {} && pre == [] <==> cs == []
  {
    if cs != [] && !IsWildcard(cs[0]) { assert cs[0] in full; }
    if full != {} { var c :| c in full; assert c in cs; }
    if pre != [] { assert pre[0] + "*" in cs; }
    if cs != [] && IsWildcard(cs[0]) { assert cs[0][..|cs[0]| - 1] in pre; }
  }

  /** Splitting the list does not change which collections match. */
  lemma ResolvedDecides(cs: seq<string>, full: set<string>, pre: seq<string>, collection: string)
    requires ResolvedCollections(cs, full, pre)
    ensures (exists i :: 0 <= i < |cs| && EntryMatches(cs[i], collection))
       <==> collection in full || exists j :: 0 <= j < |pre| && HasPrefix(collection, pre[j])
  {
    if i :| 0 <= i < |cs| && EntryMatches(cs[i], collection) {
      if IsWildcard(cs[i]) {
        var p := cs[i][..|cs[i]| - 1];
        var j :| 0 <= j < |pre| && pre[j] == p;
      } else {
        assert cs[i] in full;
      }
    }
    if collection in full && !IsWildcard(collection) {
      var i :| 0 <= i < |cs| && cs[i] == collection;
      assert EntryMatches(cs[i], collection);
    }
    if j :| 0 <= j < |pre| && HasPrefix(collection, pre[j]) {
      var entry := pre[j] + "*";
      var i :| 0 <= i < |cs| && cs[i] == entry;
      assert entry[..|entry| - 1] == pre[j];
      assert EntryMatches(cs[i], collection);
    }
  }
}
