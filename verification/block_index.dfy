/**
 The block index a segment is sealed with (jetstream/segment/seal.go, sentinel.go)
 and the planner's selection by it (jetstream/internal/manifest/plan.go:293-448).
 The index may let through too much; whether it can lose a row the client's own
 filter wants is settled here exactly.
 */
module BlockIndex {
  import opened Common
  import opened EventLog
  import RowMatcher
  import Planner
  import Framing

  const MAX_UINT32: nat := Framing.MAX_UINT32

  // ---- what a row is indexed under ----

  /** The reserved name of a DID-level marker, empty for kinds that carry a collection. */
  function Sentinel(k: Kind): string {
    match k
    case Account => "$account"
    case Identity => "$identity"
    case Sync => "$sync"
    case _ => ""
  }

  function SentinelKind(name: string): Option<Kind> {
    if name == "$account" then Some(Account)
    else if name == "$identity" then Some(Identity)
    else if name == "$sync" then Some(Sync)
    else None
  }

  function NamesOf(e: Event): set<string> {
    (if e.collection != "" then {e.collection} else {}) + (if Sentinel(e.kind) != "" then {Sentinel(e.kind)} else {})
  }

  function Names(rows: seq<Event>): set<string> {
    if rows == [] then {} else Names(rows[..|rows| - 1]) + NamesOf(rows[|rows| - 1])
  }

  function DidOf(e: Event): set<string> {
    if e.did != "" then {e.did} else {}
  }

  function Dids(rows: seq<Event>): set<string> {
    if rows == [] then {} else Dids(rows[..|rows| - 1]) + DidOf(rows[|rows| - 1])
  }

  lemma {:induction false} NamesMembers(rows: seq<Event>, name: string)
    ensures name in Names(rows) <==> exists i :: 0 <= i < |rows| && name in NamesOf(rows[i])
  {
    hide NamesOf;
    if rows != [] { NamesMembers(rows[..|rows| - 1], name); }
  }

  lemma {:induction false} DidsMembers(rows: seq<Event>, e: Event)
    requires e in rows && e.did != ""
    ensures e.did in Dids(rows)
  {
    if e != rows[|rows| - 1] {
      assert rows == rows[..|rows| - 1] + [rows[|rows| - 1]];
      DidsMembers(rows[..|rows| - 1], e);
    }
  }

  // ---- the seal walk ----

  /** The string table and its inverse. */
  ghost predicate IsTable(table: seq<string>, ids: map<string, nat>) {
    && |table| <= MAX_UINT32
    && (forall i :: 0 <= i < |table| ==> table[i] in ids && ids[table[i]] == i)
    && (forall n :: n in ids ==> ids[n] < |table| && table[ids[n]] == n)
  }

  /** The ids are those of the names, and every name has one. */
  ghost predicate Tags(ids: set<nat>, table: seq<string>, names: set<string>) {
    && (forall id: nat :: id in ids <==> id < |table| && table[id] in names)
    && (forall n :: n in names ==> n in table)
  }

  /** Names that came later do not touch the ids of earlier blocks. */
  lemma TagsGrow(ids: set<nat>, before: seq<string>, table: seq<string>, byName: map<string, nat>, names: set<string>)
    requires Tags(ids, before, names) && before <= table && IsTable(table, byName)
    ensures Tags(ids, table, names)
  {
    forall id: nat | id < |table| && table[id] in names ensures id in ids {
      var i :| 0 <= i < |before| && before[i] == table[id];
      assert table[i] == table[id] && byName[table[i]] == i && byName[table[id]] == id;
    }
    forall n | n in names ensures n in table {
      var i :| 0 <= i < |before| && before[i] == n;
      assert table[i] == n;
    }
  }

  lemma TagOne(ids: set<nat>, table: seq<string>, byName: map<string, nat>, names: set<string>, name: string)
    requires Tags(ids, table, names) && IsTable(table, byName) && name in byName
    ensures Tags(ids + {byName[name]}, table, names + {name})
  {
    forall id: nat | id < |table| && table[id] == name ensures id == byName[name] {
    }
  }

  function TableSet(table: seq<string>): set<string> {
    set n | n in table
  }

  /** Entries are distinct, so there are as many names as places. */
  lemma {:induction false} TableSize(table: seq<string>, byName: map<string, nat>, k: nat)
    requires IsTable(table, byName) && k <= |table|
    ensures |TableSet(table[..k])| == k
  {
    if k == 0 {
      assert TableSet(table[..0]) == {};
    } else {
      TableSize(table, byName, k - 1);
      assert table[..k] == table[..k - 1] + [table[k - 1]];
      assert table[k - 1] !in table[..k - 1];
      assert TableSet(table[..k]) == TableSet(table[..k - 1]) + {table[k - 1]};
    }
  }

  /** The table is full, and some of the names did not get in. */
  ghost predicate Full(table: seq<string>, names: set<string>) {
    |table| == MAX_UINT32 && TableSet(table) < names
  }

  lemma FullWiden(table: seq<string>, before: set<string>, some: set<string>, all: set<string>)
    requires Full(table, before + some) && some <= all
    ensures Full(table, before + all)
  {
  }

  lemma UnionAssoc(a: set<string>, b: set<string>, c: set<string>)
    ensures (a + b) + c == a + (b + c)
  {
  }

  /** Then the names are more than 32 bits can number. */
  lemma FullExceeds(table: seq<string>, byName: map<string, nat>, names: set<string>, all: set<string>)
    requires IsTable(table, byName) && Full(table, names) && names <= all
    ensures MAX_UINT32 < |all|
  {
    TableSize(table, byName, |table|);
    assert table[..|table|] == table;
    Fewer(TableSet(table), all);
  }

  lemma {:induction false} Fewer(a: set<string>, b: set<string>)
    requires a < b
    ensures |a| < |b|
  {
    var x :| x in b && x !in a;
    NoMore(a, b - {x});
  }

  lemma {:induction false} NoMore(a: set<string>, b: set<string>)
    requires a <= b
    ensures |a| <= |b|
  {
    if a != {} {
      var x :| x in a;
      NoMore(a - {x}, b - {x});
    }
  }

  function FrameNames(frames: seq<seq<Event>>): set<string> {
    if frames == [] then {} else FrameNames(frames[..|frames| - 1]) + Names(frames[|frames| - 1])
  }

  function FrameDids(frames: seq<seq<Event>>): set<string> {
    if frames == [] then {} else FrameDids(frames[..|frames| - 1]) + Dids(frames[|frames| - 1])
  }

  lemma FrameSnoc(frames: seq<seq<Event>>, b: nat)
    requires b < |frames|
    ensures FrameNames(frames[..b + 1]) == FrameNames(frames[..b]) + Names(frames[b])
    ensures FrameDids(frames[..b + 1]) == FrameDids(frames[..b]) + Dids(frames[b])
  {
    assert frames[..b + 1][..b] == frames[..b];
  }

  lemma {:induction false} FrameNamesGrow(frames: seq<seq<Event>>, b: nat)
    requires b <= |frames|
    ensures FrameNames(frames[..b]) <= FrameNames(frames)
    decreases |frames|
  {
    if b == |frames| {
      assert frames[..b] == frames;
    } else {
      assert frames[..|frames| - 1][..b] == frames[..b];
      FrameNamesGrow(frames[..|frames| - 1], b);
    }
  }

  /** How many blocks a segment has: those before the first empty one. */
  function Leading(frames: seq<seq<Event>>): (n: nat)
    ensures n <= |frames| && (n == |frames| || frames[n] == [])
    ensures forall b :: 0 <= b < n ==> frames[b] != []
  {
    if frames == [] || frames[0] == [] then 0 else 1 + Leading(frames[1..])
  }

  /** Neither the blocks nor the distinct names are more than 32 bits can number. */
  predicate Sealable(frames: seq<seq<Event>>) {
    Leading(frames) <= MAX_UINT32 && |FrameNames(frames[..Leading(frames)])| <= MAX_UINT32
  }

  /** One segment being indexed, block by block. */
  class SegmentWalk {
    const seg: Planner.Index
    var infos: seq<Planner.BlockInfo>
    var uniqueDids: set<string>
    var blockDids: seq<set<string>>
    var blockCollections: seq<set<nat>>
    var table: seq<string>
    var idByName: map<string, nat>

    ghost predicate Valid()
      reads this
    {
      IsTable(table, idByName) && IsWalk(seg, infos, uniqueDids, blockDids, blockCollections, table)
    }

    constructor (seg: Planner.Index)
      ensures Valid() && infos == [] && table == [] && uniqueDids == {} && this.seg == seg
    {
      this.seg := seg;
      infos, uniqueDids, blockDids, blockCollections, table, idByName := [], {}, [], [], [], map[];
    }

    /** Gives a name its id, new at the end of the table, and adds it to a block's set. */
    method InternCollection(name: string, ids: set<nat>, ghost names: set<string>) returns (ok: bool, tagged: set<nat>)
      requires IsTable(table, idByName) && Tags(ids, table, names)
      modifies `table, `idByName
      ensures IsTable(table, idByName) && old(table) <= table
      ensures ok ==> Tags(tagged, table, names + {name}) && TableSet(table) == TableSet(old(table)) + {name}
      ensures ok <==> name in old(table) || |old(table)| < MAX_UINT32
      ensures !ok ==> Full(table, TableSet(old(table)) + {name})
    {
      ghost var before := table;
      assert name in idByName <==> name in table;
      if name !in idByName {
        if |table| >= MAX_UINT32 { return false, ids; }
        idByName := idByName[name := |table|];
        table := table + [name];
      }
      TagsGrow(ids, before, table, idByName, names);
      TagOne(ids, table, idByName, names, name);
      ok, tagged := true, ids + {idByName[name]};
    }

    /** A row is indexed under its collection, if any, and under its marker, if it is one. */
    method IndexEventCollection(e: Event, ids: set<nat>, ghost names: set<string>) returns (ok: bool, tagged: set<nat>)
      requires IsTable(table, idByName) && Tags(ids, table, names)
      modifies `table, `idByName
      ensures IsTable(table, idByName) && old(table) <= table
      ensures ok ==> Tags(tagged, table, names + NamesOf(e)) && TableSet(table) == TableSet(old(table)) + NamesOf(e)
      ensures !ok ==> Full(table, TableSet(old(table)) + NamesOf(e))
    {
      hide IsTable, Tags, TableSet, Sentinel;
      ok, tagged := true, ids;
      ghost var seen := names;
      if e.collection != "" {
        ok, tagged := InternCollection(e.collection, tagged, seen);
        seen := seen + {e.collection};
        if !ok { return; }
      }
      if Sentinel(e.kind) != "" {
        ok, tagged := InternCollection(Sentinel(e.kind), tagged, seen);
        seen := seen + {Sentinel(e.kind)};
      }
      assert seen == names + NamesOf(e);
    }

    /** A DID counts once for the segment and once for the block; a row without one counts for neither. */
    method SeeDid(e: Event, dids: set<string>) returns (seen: set<string>)
      requires dids <= uniqueDids
      modifies `uniqueDids
      ensures seen == dids + DidOf(e) && uniqueDids == old(uniqueDids) + DidOf(e) && seen <= uniqueDids
    {
      seen := dids;
      if e.did != "" {
        if e.did !in uniqueDids {
          uniqueDids, seen := uniqueDids + {e.did}, seen + {e.did};
        } else if e.did !in seen {
          seen := seen + {e.did};
        }
      }
    }

    /** The rows of a block: their sequence range, their DIDs and their collection ids. */
    method ScanRows(events: seq<Event>) returns (ok: bool, lo: nat, hi: nat, dids: set<string>, ids: set<nat>)
      requires IsTable(table, idByName) && events != []
      modifies `uniqueDids, `table, `idByName
      ensures IsTable(table, idByName) && old(table) <= table
      ensures ok ==>
                && Spanned(events, lo, hi) && dids == Dids(events) && uniqueDids == old(uniqueDids) + dids
                && Tags(ids, table, Names(events)) && TableSet(table) == TableSet(old(table)) + Names(events)
      ensures !ok ==> Full(table, TableSet(old(table)) + Names(events))
    {
      dids, ids, lo, hi, ok := {}, {}, events[0].seqNo, events[0].seqNo, true;
      ghost var before, known := TableSet(table), uniqueDids;
      SeenNone(events, known, table);
      hide Tags, IsTable, Names, NamesOf, Spanned, Dids, DidOf, TableSet, Full, Seen;
      for i := 0 to |events|
        invariant IsTable(table, idByName) && old(table) <= table && Tags(ids, table, Names(events[..i]))
        invariant Seen(events, i, known, uniqueDids, dids, before, table) && dids <= uniqueDids
        invariant if i == 0 then lo == hi == events[0].seqNo else Spanned(events[..i], lo, hi)
        invariant ok
      {
        var e := events[i];
        SpannedSnoc(events, i, lo, hi);
        RowSnoc(events, i);
        if e.seqNo < lo { lo := e.seqNo; }
        if e.seqNo > hi { hi := e.seqNo; }
        ghost var was, dids0, table0 := uniqueDids, dids, table;
        dids := SeeDid(e, dids);
        ok, ids := IndexEventCollection(e, ids, Names(events[..i]));
        if !ok {
          FullLater(events, i, known, was, dids0, before, table0, table);
          return;
        }
        SeenSnoc(events, i, known, was, dids0, before, table0, uniqueDids, dids, table);
      }
      SeenAll(events, known, uniqueDids, dids, before, table);
    }

    /** One block joins the index, and the earlier ones stay described. */
    method AddBlock(events: seq<Event>) returns (ok: bool)
      requires Valid() && events != [] && forall e :: e in events ==> e.seqNo <= MAX_INT64
      modifies this
      ensures ok ==>
                && Valid() && |infos| == |old(infos)| + 1 && infos[..|old(infos)|] == old(infos)
                && infos[|old(infos)|].rows == events
                && TableSet(table) == TableSet(old(table)) + Names(events)
                && uniqueDids == old(uniqueDids) + Dids(events)
      ensures !ok ==>
                || |old(infos)| == MAX_UINT32
                || (IsTable(table, idByName) && Full(table, TableSet(old(table)) + Names(events)))
    {
      hide Tags, IsTable, Names, Dids, Spanned, TableSet, Full;
      if |infos| >= MAX_UINT32 { return false; }
      ghost var before, known := table, uniqueDids;
      var lo, hi, dids, ids;
      ok, lo, hi, dids, ids := ScanRows(events);
      if !ok { return; }
      WalkGrows(seg, infos, known, blockDids, blockCollections, before, uniqueDids, table, idByName);
      SpannedPos(events, lo, hi);
      infos := infos + [Planner.BlockInfo(seg, |infos|, lo, hi, events)];
      blockDids, blockCollections := blockDids + [dids], blockCollections + [ids];
    }

    /** Every block up to an empty one, which ends the walk. */
    method Walk(frames: seq<seq<Event>>) returns (ok: bool)
      requires Valid() && infos == [] && table == [] && uniqueDids == {}
      requires forall b, e :: 0 <= b < |frames| && e in frames[b] ==> e.seqNo <= MAX_INT64
      modifies this
      ensures ok <==> Sealable(frames)
      ensures ok ==>
                && Valid() && |infos| == Leading(frames)
                && (forall b :: 0 <= b < |infos| ==> infos[b].rows == frames[b])
                && TableSet(table) == FrameNames(frames[..|infos|]) && uniqueDids == FrameDids(frames[..|infos|])
    {
      NothingWalked(frames, table);
      hide IsTable, IsWalk, TableSet, FrameNames, FrameDids, Names, Dids, Full, Sealable, Walked, Leading;
      ok := true;
      for b := 0 to |frames|
        invariant ok && Valid() && |infos| == b && Walked(frames, infos, table, uniqueDids)
      {
        if frames[b] == [] { break; }
        ghost var was, table0, dids0 := infos, table, uniqueDids;
        ok := AddBlock(frames[b]);
        if !ok {
          TooMany(frames, was, table0, dids0, table, idByName);
          return;
        }
        WalkedOn(frames, was, table0, dids0, infos, table, uniqueDids);
      }
      WalkedAll(this, frames);
    }

    /** The footer: the table, the ids of each block, and the DIDs as bloom filters. */
    method BuildFooter(hash: nat -> (string -> set<nat>)) returns (index: Index)
      requires Valid()
      ensures Describes(index, infos) && |index.blockCollections| == |index.blockBlooms| == |infos|
      ensures index.collections == table && index.blockCollections == blockCollections
      ensures index.segmentBloom.Some? && Exactly(index.segmentBloom.value, uniqueDids, hash(|uniqueDids|))
      ensures forall b :: 0 <= b < |infos| ==>
                && index.blockBlooms[b].Some?
                && Exactly(index.blockBlooms[b].value, blockDids[b], hash(Largest(blockDids)))
    {
      assert |infos| == |blockDids| == |blockCollections| && |table| <= MAX_UINT32;
      hide IsWalk, Holds, Exactly;
      var whole := Filled(uniqueDids, hash(|uniqueDids|));
      var blooms := BlockBlooms(blockDids, hash);
      index := Index(table, blockCollections, Some(whole), blooms);
      FooterDescribes(seg, infos, uniqueDids, blockDids, index);
    }
  }

  /** The blocks walked so far, none of them empty, with their DIDs and names. */
  ghost predicate Walked(frames: seq<seq<Event>>, infos: seq<Planner.BlockInfo>, table: seq<string>,
                         dids: set<string>)
  {
    var b := |infos|;
    && b <= |frames| && (forall k :: 0 <= k < b ==> frames[k] != [] && infos[k].rows == frames[k])
    && TableSet(table) == FrameNames(frames[..b]) && dids == FrameDids(frames[..b])
  }

  lemma NothingWalked(frames: seq<seq<Event>>, table: seq<string>)
    requires table == []
    ensures Walked(frames, [], table, {})
  {
    assert frames[..0] == [];
  }

  lemma WalkedOn(frames: seq<seq<Event>>, infos: seq<Planner.BlockInfo>, table: seq<string>, dids: set<string>,
                 infos': seq<Planner.BlockInfo>, table': seq<string>, dids': set<string>)
    requires Walked(frames, infos, table, dids) && |infos| < |frames| && frames[|infos|] != []
    requires |infos'| == |infos| + 1 && infos'[..|infos|] == infos && infos'[|infos|].rows == frames[|infos|]
    requires TableSet(table') == TableSet(table) + Names(frames[|infos|]) && dids' == dids + Dids(frames[|infos|])
    ensures Walked(frames, infos', table', dids')
  {
    hide FrameNames, FrameDids, TableSet, Names, Dids;
    FrameSnoc(frames, |infos|);
    assert forall k :: 0 <= k < |infos| ==> infos'[k] == infos[k];
  }

  lemma LeadingAtLeast(frames: seq<seq<Event>>, b: nat)
    requires b <= |frames| && forall k :: 0 <= k < b ==> frames[k] != []
    ensures b <= Leading(frames)
  {
    var n := Leading(frames);
    assert n < |frames| ==> frames[n] == [];
  }

  lemma LeadingIs(frames: seq<seq<Event>>, b: nat)
    requires b <= |frames| && (forall k :: 0 <= k < b ==> frames[k] != []) && (b == |frames| || frames[b] == [])
    ensures Leading(frames) == b
  {
    LeadingAtLeast(frames, b);
  }

  /** A walk that fails at a block fails because the segment is too large to be numbered. */
  lemma TooMany(frames: seq<seq<Event>>, infos: seq<Planner.BlockInfo>, table: seq<string>, dids: set<string>,
                table': seq<string>, byName: map<string, nat>)
    requires Walked(frames, infos, table, dids) && |infos| < |frames| && frames[|infos|] != []
    requires |infos| == MAX_UINT32
             || (IsTable(table', byName) && Full(table', TableSet(table) + Names(frames[|infos|])))
    ensures !Sealable(frames)
  {
    hide FrameNames, Full, IsTable, FrameDids, TableSet, Names;
    var b, lead := |infos|, Leading(frames);
    LeadingAtLeast(frames, b + 1);
    FrameSnoc(frames, b);
    if b != MAX_UINT32 {
      assert frames[..lead][..b + 1] == frames[..b + 1];
      FrameNamesGrow(frames[..lead], b + 1);
      FullExceeds(table', byName, FrameNames(frames[..b + 1]), FrameNames(frames[..lead]));
    }
  }

  lemma WalkedAll(w: SegmentWalk, frames: seq<seq<Event>>)
    requires w.Valid() && Walked(frames, w.infos, w.table, w.uniqueDids)
    requires |w.infos| == |frames| || frames[|w.infos|] == []
    ensures Sealable(frames) && |w.infos| == Leading(frames)
    ensures forall b :: 0 <= b < |w.infos| ==> w.infos[b].rows == frames[b]
    ensures TableSet(w.table) == FrameNames(frames[..|w.infos|]) && w.uniqueDids == FrameDids(frames[..|w.infos|])
  {
    LeadingIs(frames, |w.infos|);
    hide FrameNames, FrameDids, TableSet, IsWalk, Leading;
    TableSize(w.table, w.idByName, |w.table|);
    assert w.table[..|w.table|] == w.table;
    IsWalkSize(w.seg, w.infos, w.uniqueDids, w.blockDids, w.blockCollections, w.table);
  }

  lemma IsWalkSize(seg: Planner.Index, infos: seq<Planner.BlockInfo>, unique: set<string>,
                   dids: seq<set<string>>, ids: seq<set<nat>>, table: seq<string>)
    requires IsWalk(seg, infos, unique, dids, ids, table)
    ensures |infos| <= MAX_UINT32
  {
  }

  /** What i rows of a block have added to the segment's DIDs and names. */
  ghost predicate Seen(events: seq<Event>, i: nat, known: set<string>, unique: set<string>, dids: set<string>,
                       before: set<string>, table: seq<string>)
  {
    && i <= |events| && dids == Dids(events[..i]) && unique == known + dids
    && TableSet(table) == before + Names(events[..i])
  }

  lemma SeenNone(events: seq<Event>, known: set<string>, table: seq<string>)
    ensures Seen(events, 0, known, known, {}, TableSet(table), table) && Tags({}, table, Names(events[..0]))
  {
    assert events[..0] == [];
  }

  lemma SeenSnoc(events: seq<Event>, i: nat, known: set<string>, unique: set<string>, dids: set<string>,
                 before: set<string>, table: seq<string>, unique': set<string>, dids': set<string>, table': seq<string>)
    requires Seen(events, i, known, unique, dids, before, table) && i < |events|
    requires dids' == dids + DidOf(events[i]) && unique' == unique + DidOf(events[i])
    requires TableSet(table') == TableSet(table) + NamesOf(events[i])
    ensures Seen(events, i + 1, known, unique', dids', before, table')
  {
    hide Names, NamesOf, Dids, DidOf, TableSet;
    RowSnoc(events, i);
    UnionAssoc(known, dids, DidOf(events[i]));
    UnionAssoc(before, Names(events[..i]), NamesOf(events[i]));
  }

  lemma FullLater(events: seq<Event>, i: nat, known: set<string>, unique: set<string>, dids: set<string>,
                  before: set<string>, table: seq<string>, table': seq<string>)
    requires Seen(events, i, known, unique, dids, before, table) && i < |events|
    requires Full(table', TableSet(table) + NamesOf(events[i]))
    ensures Full(table', before + Names(events))
  {
    hide Names, NamesOf, Dids, DidOf, TableSet, Full;
    RowSnoc(events, i);
    UnionAssoc(before, Names(events[..i]), NamesOf(events[i]));
    NamesGrow(events, i + 1);
    FullWiden(table', before, Names(events[..i + 1]), Names(events));
  }

  lemma SeenAll(events: seq<Event>, known: set<string>, unique: set<string>, dids: set<string>, before: set<string>,
                table: seq<string>)
    requires Seen(events, |events|, known, unique, dids, before, table)
    ensures events[..|events|] == events
    ensures dids == Dids(events) && unique == known + dids && TableSet(table) == before + Names(events)
  {
    assert events[..|events|] == events;
  }

  /** Block b is described by what was recorded of it. */
  ghost predicate Indexed(seg: Planner.Index, b: nat, info: Planner.BlockInfo, unique: set<string>, dids: set<string>,
                          ids: set<nat>, table: seq<string>)
  {
    && info.seg == seg && info.idx == b && Bounds(info)
    && dids == Dids(info.rows) && dids <= unique && Tags(ids, table, Names(info.rows))
  }

  ghost predicate IsWalk(seg: Planner.Index, infos: seq<Planner.BlockInfo>, unique: set<string>,
                         dids: seq<set<string>>, ids: seq<set<nat>>, table: seq<string>)
  {
    && |infos| == |dids| == |ids| <= MAX_UINT32
    && forall b :: 0 <= b < |infos| ==> Indexed(seg, b, infos[b], unique, dids[b], ids[b], table)
  }

  lemma WalkGrows(seg: Planner.Index, infos: seq<Planner.BlockInfo>, unique: set<string>, dids: seq<set<string>>,
                  ids: seq<set<nat>>, table: seq<string>, unique': set<string>, table': seq<string>,
                  byName: map<string, nat>)
    requires IsWalk(seg, infos, unique, dids, ids, table)
    requires unique <= unique' && table <= table' && IsTable(table', byName)
    ensures IsWalk(seg, infos, unique', dids, ids, table')
  {
    hide Tags, Names, Dids, Spanned, IsTable;
    forall b | 0 <= b < |infos| ensures Indexed(seg, b, infos[b], unique', dids[b], ids[b], table') {
      assert Indexed(seg, b, infos[b], unique, dids[b], ids[b], table);
      TagsGrow(ids[b], table, table', byName, Names(infos[b].rows));
    }
  }

  lemma FooterDescribes(seg: Planner.Index, infos: seq<Planner.BlockInfo>, unique: set<string>, dids: seq<set<string>>,
                        index: Index)
    requires IsWalk(seg, infos, unique, dids, index.blockCollections, index.collections)
    requires |index.collections| <= MAX_UINT32 && index.segmentBloom.Some? && |index.blockBlooms| == |dids|
    requires Holds(index.segmentBloom.value, unique)
    requires forall k :: 0 <= k < |dids| ==> index.blockBlooms[k].Some? && Holds(index.blockBlooms[k].value, dids[k])
    ensures Describes(index, infos)
  {
    hide Tags, Names, Dids, Bounds;
    forall b | 0 <= b < |infos| ensures DescribesBlock(index, infos[b].rows, b) {
      assert Indexed(seg, b, infos[b], unique, dids[b], index.blockCollections[b], index.collections);
      TagsNames(index.blockCollections[b], index.collections, Names(infos[b].rows));
    }
    forall b | 0 <= b < |infos| ensures forall id :: id in index.blockCollections[b] ==> id < |index.collections| {
      assert Indexed(seg, b, infos[b], unique, dids[b], index.blockCollections[b], index.collections);
      TagsNames(index.blockCollections[b], index.collections, Names(infos[b].rows));
    }
  }

  lemma TagsNames(ids: set<nat>, table: seq<string>, names: set<string>)
    requires Tags(ids, table, names)
    ensures (forall n :: n in names ==> n in table) && forall id :: id in ids ==> id < |table|
  {
  }

  lemma {:induction false} NamesGrow(rows: seq<Event>, i: nat)
    requires i <= |rows|
    ensures Names(rows[..i]) <= Names(rows)
    decreases |rows|
  {
    if i == |rows| {
      assert rows[..i] == rows;
    } else {
      assert rows[..|rows| - 1][..i] == rows[..i];
      NamesGrow(rows[..|rows| - 1], i);
    }
  }

  lemma RowSnoc(rows: seq<Event>, i: nat)
    requires i < |rows|
    ensures Names(rows[..i + 1]) == Names(rows[..i]) + NamesOf(rows[i])
    ensures Dids(rows[..i + 1]) == Dids(rows[..i]) + DidOf(rows[i])
  {
    assert rows[..i + 1][..i] == rows[..i];
  }

  /** The least and the greatest sequence number. */
  ghost predicate Spanned(rows: seq<Event>, lo: nat, hi: nat) {
    && (forall i :: 0 <= i < |rows| ==> lo <= rows[i].seqNo <= hi)
    && (exists i :: 0 <= i < |rows| && rows[i].seqNo == lo) && (exists i :: 0 <= i < |rows| && rows[i].seqNo == hi)
  }

  lemma SpannedSnoc(rows: seq<Event>, i: nat, lo: nat, hi: nat)
    requires i < |rows| && (0 < i ==> Spanned(rows[..i], lo, hi)) && (i == 0 ==> lo == hi == rows[0].seqNo)
    ensures var e := rows[i].seqNo;
            Spanned(rows[..i + 1], if e < lo then e else lo, if e > hi then e else hi)
  {
    var now := rows[..i + 1];
    assert now[i] == rows[i];
    if 0 < i {
      var was := rows[..i];
      var j, k :| 0 <= j < i && was[j].seqNo == lo && 0 <= k < i && was[k].seqNo == hi;
      assert now[j] == was[j] && now[k] == was[k];
      assert forall n :: 0 <= n < i ==> now[n] == was[n];
    }
  }

  lemma SpannedPos(rows: seq<Event>, lo: nat, hi: nat)
    requires Spanned(rows, lo, hi) && forall e :: e in rows ==> e.seqNo <= MAX_INT64
    ensures lo <= hi <= MAX_INT64
  {
  }

  /** The sequence range of a block is that of its rows. */
  ghost predicate Bounds(b: Planner.BlockInfo) {
    b.rows != [] && Spanned(b.rows, b.lo, b.hi)
  }

  // ---- the sealed index ----

  /** A bloom filter: the bits that are set, and the positions a string hashes to. */
  datatype Bloom = Bloom(bits: set<nat>, at: string -> set<nat>)

  predicate TestString(f: Bloom, s: string) {
    f.at(s) <= f.bits
  }

  ghost predicate Holds(f: Bloom, strings: set<string>) {
    forall s :: s in strings ==> TestString(f, s)
  }

  /** Nothing else was added: the bits are those the strings hash to. */
  ghost predicate Exactly(f: Bloom, strings: set<string>, at: string -> set<nat>) {
    f.at == at && forall p :: p in f.bits <==> exists s :: s in strings && p in at(s)
  }

  /** A filter with these strings added, in whatever order, has exactly their bits. */
  method Filled(strings: set<string>, at: string -> set<nat>) returns (f: Bloom)
    ensures Holds(f, strings) && Exactly(f, strings, at)
  {
    var left := strings;
    f := Bloom({}, at);
    while left != {}
      invariant left <= strings && f.at == at && Holds(f, strings - left)
      invariant forall p :: p in f.bits <==> exists s :: s in strings - left && p in at(s)
    {
      var s :| s in left;
      f := Bloom(f.bits + at(s), at);
      left := left - {s};
    }
  }

  /** The capacity that every block's filter is given. */
  function Largest(dids: seq<set<string>>): (n: nat)
    ensures 1 <= n && forall k :: 0 <= k < |dids| ==> |dids[k]| <= n
    ensures n == 1 || exists k :: 0 <= k < |dids| && |dids[k]| == n
  {
    if dids == [] then 1
    else
      var n, last := Largest(dids[..|dids| - 1]), |dids[|dids| - 1]|;
      if last > n then last else n
  }

  /** One filter a block, all of the size the largest needs. */
  method BlockBlooms(dids: seq<set<string>>, hash: nat -> (string -> set<nat>)) returns (blooms: seq<Option<Bloom>>)
    ensures |blooms| == |dids|
    ensures forall k :: 0 <= k < |dids| ==>
              && blooms[k].Some? && Holds(blooms[k].value, dids[k])
              && Exactly(blooms[k].value, dids[k], hash(Largest(dids)))
  {
    hide Holds, Exactly;
    var capacity: nat := 1;
    for b := 0 to |dids|
      invariant capacity == Largest(dids[..b])
    {
      assert dids[..b + 1][..b] == dids[..b];
      if |dids[b]| > capacity { capacity := |dids[b]|; }
    }
    assert dids[..|dids|] == dids;
    blooms := [];
    for b := 0 to |dids|
      invariant |blooms| == b
      invariant forall k :: 0 <= k < b ==>
                  && blooms[k].Some? && Holds(blooms[k].value, dids[k])
                  && Exactly(blooms[k].value, dids[k], hash(capacity))
    {
      var f := Filled(dids[b], hash(capacity));
      blooms := blooms + [Some(f)];
    }
  }

  /** What the manifest keeps of a segment; missing parts mean that nothing is known. */
  datatype Index = Index(
    collections: seq<string>,
    blockCollections: seq<set<nat>>,
    segmentBloom: Option<Bloom>,
    blockBlooms: seq<Option<Bloom>>)

  ghost predicate DescribesBlock(index: Index, rows: seq<Event>, b: nat) {
    && (forall n :: n in Names(rows) ==> n in index.collections)
    && (b < |index.blockCollections| ==> Tags(index.blockCollections[b], index.collections, Names(rows)))
    && (index.segmentBloom.Some? ==> Holds(index.segmentBloom.value, Dids(rows)))
    && (b < |index.blockBlooms| && index.blockBlooms[b].Some? ==> Holds(index.blockBlooms[b].value, Dids(rows)))
  }

  /** The index tells the truth about the blocks. */
  ghost predicate Describes(index: Index, infos: seq<Planner.BlockInfo>) {
    && WellIndexed(index)
    && forall b :: 0 <= b < |infos| ==> DescribesBlock(index, infos[b].rows, b)
  }

  /** Ids refer to the table, which 32 bits can address. */
  ghost predicate WellIndexed(index: Index) {
    && |index.collections| <= MAX_UINT32
    && forall b, id :: 0 <= b < |index.blockCollections| && id in index.blockCollections[b] ==> id < |index.collections|
  }

  /** The DIDs of each of the first `n` blocks. */
  function EachDids(frames: seq<seq<Event>>, n: nat): seq<set<string>>
    requires n <= |frames|
  {
    seq(n, b requires 0 <= b < n => Dids(frames[b]))
  }

  /** What a walk over these blocks holds, block by block. */
  lemma WalkHolds(seg: Planner.Index, infos: seq<Planner.BlockInfo>, unique: set<string>, dids: seq<set<string>>,
                  ids: seq<set<nat>>, table: seq<string>, frames: seq<seq<Event>>)
    requires IsWalk(seg, infos, unique, dids, ids, table) && |infos| <= |frames|
    requires forall b :: 0 <= b < |infos| ==> infos[b].rows == frames[b]
    ensures |ids| == |infos| && dids == EachDids(frames, |infos|)
    ensures forall b :: 0 <= b < |infos| ==>
              infos[b].seg == seg && infos[b].idx == b && Bounds(infos[b]) && Tags(ids[b], table, Names(frames[b]))
  {
    hide Tags, Bounds, Names, Dids;
    assert forall b :: 0 <= b < |infos| ==> Indexed(seg, b, infos[b], unique, dids[b], ids[b], table);
  }

  /** Sealing a segment: what it holds is the blocks before the first empty one, and its index describes them. */
  method Seal(seg: Planner.Index, frames: seq<seq<Event>>, hash: nat -> (string -> set<nat>))
    returns (sealed: Option<(seq<Planner.BlockInfo>, Index)>)
    requires forall b, e :: 0 <= b < |frames| && e in frames[b] ==> e.seqNo <= MAX_INT64
    ensures sealed.Some? <==> Sealable(frames)
    ensures sealed.Some? ==>
              var (infos, index) := sealed.value;
              && Describes(index, infos)
              && |index.blockCollections| == |index.blockBlooms| == |infos| == Leading(frames)
              && TableSet(index.collections) == FrameNames(frames[..|infos|])
              && forall b :: 0 <= b < |infos| ==>
                   infos[b].seg == seg && infos[b].idx == b && infos[b].rows == frames[b] && Bounds(infos[b])
    ensures sealed.Some? ==>
              var (infos, index) := sealed.value;
              var dids, each := FrameDids(frames[..|infos|]), EachDids(frames, |infos|);
              && index.segmentBloom.Some? && Exactly(index.segmentBloom.value, dids, hash(|dids|))
              && forall b :: 0 <= b < |infos| ==>
                   && Tags(index.blockCollections[b], index.collections, Names(frames[b]))
                   && index.blockBlooms[b].Some?
                   && Exactly(index.blockBlooms[b].value, each[b], hash(Largest(each)))
  {
    hide Describes, IsTable, IsWalk, Tags, Bounds, Names, Dids, FrameDids, FrameNames, TableSet, EachDids, Exactly,
         Largest, Sealable;
    var walk := new SegmentWalk(seg);
    var ok := walk.Walk(frames);
    if !ok { return None; }
    var index := walk.BuildFooter(hash);
    WalkHolds(seg, walk.infos, walk.uniqueDids, walk.blockDids, walk.blockCollections, walk.table, frames);
    sealed := Some((walk.infos, index));
  }

  // ---- the planner's selection ----

  predicate Admits(req: PlanRequest, k: Kind) {
    req.kinds == [] || k in req.kinds
  }

  predicate AnyEntry(req: PlanRequest, name: string) {
    exists i :: 0 <= i < |req.collections| && EntryMatches(req.collections[i], name)
  }

  /** No kind and no collection is asked for, so the collection index is not consulted. */
  predicate MatchAll(req: PlanRequest) {
    req.kinds == [] && req.collections == []
  }

  /** A name the request asks for: a marker of an admitted kind, or a commit's collection. */
  predicate NameWanted(req: PlanRequest, name: string) {
    match SentinelKind(name)
    case Some(k) => Admits(req, k)
    case None => Admits(req, Commit) && (req.collections == [] || AnyEntry(req, name))
  }

  predicate AnyTest(f: Bloom, dids: seq<string>) {
    exists i :: 0 <= i < |dids| && TestString(f, dids[i])
  }

  /** What is known of block b does not rule it out. */
  predicate BlockWanted(index: Index, req: PlanRequest, b: nat) {
    b < |index.blockCollections| ==>
      exists id :: id in index.blockCollections[b] && id < |index.collections| && NameWanted(req, index.collections[id])
  }

  predicate BloomsAllow(index: Index, req: PlanRequest, b: nat) {
    req.dids == []
    || ((index.segmentBloom.Some? ==> AnyTest(index.segmentBloom.value, req.dids))
        && (b < |index.blockBlooms| && index.blockBlooms[b].Some? ==> AnyTest(index.blockBlooms[b].value, req.dids)))
  }

  /** Block b is selected. */
  predicate Selects(index: Index, req: PlanRequest, b: nat) {
    && BloomsAllow(index, req, b)
    && (MatchAll(req)
        || ((exists id :: 0 <= id < |index.collections| && NameWanted(req, index.collections[id]))
            && BlockWanted(index, req, b)))
  }

  /** The ids of the table that a block may have to be selected. */
  datatype Candidates = Candidates(included: set<nat>, sentinels: set<nat>, allReal: bool, hasReal: bool)

  ghost predicate Sorts(c: Candidates, table: seq<string>, req: PlanRequest) {
    && c.allReal == (req.collections == [] && Admits(req, Commit))
    && (forall id :: id in c.included || id in c.sentinels ==> id < |table|)
    && (forall id :: 0 <= id < |table| ==> (id in c.sentinels <==> SentinelKind(table[id]).Some?))
    && (forall id :: 0 <= id < |table| ==>
          (id in c.included <==>
             NameWanted(req, table[id]) && (SentinelKind(table[id]).Some? || req.collections != [])))
    && (c.hasReal <==> Admits(req, Commit) && exists id :: 0 <= id < |table| && SentinelKind(table[id]).None?)
  }

  /** One more name of the table; `listed` says whether a collection entry matches it. */
  function Sift(c: Candidates, id: nat, name: string, req: PlanRequest, listed: bool): Candidates {
    if SentinelKind(name).Some? then
      var marked := c.(sentinels := c.sentinels + {id});
      if Admits(req, SentinelKind(name).value) then marked.(included := c.included + {id}) else marked
    else if !Admits(req, Commit) then c
    else if req.collections != [] && listed then c.(hasReal := true, included := c.included + {id})
    else c.(hasReal := true)
  }

  lemma SiftSorts(c: Candidates, table: seq<string>, k: nat, req: PlanRequest)
    requires k < |table| && Sorts(c, table[..k], req)
    ensures Sorts(Sift(c, k, table[k], req, AnyEntry(req, table[k])), table[..k + 1], req)
  {
    hide AnyEntry, Admits;
    var was, now := table[..k], table[..k + 1];
    assert now[k] == table[k] && forall id :: 0 <= id < k ==> now[id] == was[id];
    var d := Sift(c, k, table[k], req, AnyEntry(req, table[k]));
    assert forall id :: 0 <= id < k ==>
        (id in d.included <==> id in c.included) && (id in d.sentinels <==> id in c.sentinels);
  }

  lemma SortsNone(req: PlanRequest)
    ensures Sorts(Candidates({}, {}, req.collections == [] && Admits(req, Commit), false), [], req)
  {
    hide NameWanted, SentinelKind;
  }

  /** An exact name of the request, or one below a requested namespace. */
  predicate Listed(name: string, want: set<string>, prefixes: seq<string>) {
    name in want || exists j :: 0 <= j < |prefixes| && HasPrefix(name, prefixes[j])
  }

  lemma ListedDecides(req: PlanRequest, want: set<string>, prefixes: seq<string>, name: string)
    requires RowMatcher.ResolvedCollections(req.collections, want, prefixes)
    ensures Listed(name, want, prefixes) <==> AnyEntry(req, name)
  {
    hide HasPrefix, EntryMatches;
    RowMatcher.ResolvedDecides(req.collections, want, prefixes, name);
  }

  method CollectionCandidates(index: Index, req: PlanRequest, want: set<string>, prefixes: seq<string>)
    returns (c: Candidates)
    requires RowMatcher.ResolvedCollections(req.collections, want, prefixes) && |index.collections| <= MAX_UINT32
    ensures Sorts(c, index.collections, req)
  {
    c := Candidates({}, {}, req.collections == [] && Admits(req, Commit), false);
    var table := index.collections;
    SortsNone(req);
    assert table[..0] == [];
    hide Sorts, Sift, Listed, AnyEntry, RowMatcher.ResolvedCollections;
    for id := 0 to |table|
      invariant Sorts(c, table[..id], req)
    {
      ListedDecides(req, want, prefixes, table[id]);
      SiftSorts(c, table, id, req);
      c := Sift(c, id, table[id], req, Listed(table[id], want, prefixes));
    }
    assert table[..|table|] == table;
  }

  predicate Empty(c: Candidates) {
    c.included == {} && (!c.allReal || !c.hasReal)
  }

  lemma EmptyExactly(c: Candidates, table: seq<string>, req: PlanRequest)
    requires Sorts(c, table, req)
    ensures Empty(c) <==> forall id :: 0 <= id < |table| ==> !NameWanted(req, table[id])
  {
    if id :| 0 <= id < |table| && NameWanted(req, table[id]) && id !in c.included {
      assert SentinelKind(table[id]).None?;
    }
  }

  method BlockHasAnyCandidate(index: Index, b: nat, c: Candidates, ghost req: PlanRequest) returns (ok: bool)
    requires WellIndexed(index) && Sorts(c, index.collections, req)
    ensures ok <==> BlockWanted(index, req, b)
  {
    if b >= |index.blockCollections| { return true; }
    var left := index.blockCollections[b];
    while left != {}
      invariant left <= index.blockCollections[b]
      invariant forall id :: id in index.blockCollections[b] - left ==> !NameWanted(req, index.collections[id])
    {
      var id :| id in left;
      if id in c.included { return true; }
      if c.allReal && id !in c.sentinels { return true; }
      left := left - {id};
    }
    return false;
  }

  /** The blocks of a segment that a page may ship, in order. */
  method SelectPlanBlocks(infos: seq<Planner.BlockInfo>, index: Index, req: PlanRequest, want: set<string>,
                          prefixes: seq<string>, after: Seq, before: Option<Seq>)
    returns (out: seq<nat>)
    requires RowMatcher.ResolvedCollections(req.collections, want, prefixes) && WellIndexed(index)
    ensures Lists(out, infos, index, req, after, before, |infos|)
  {
    out := [];
    if req.dids != [] && index.segmentBloom.Some? && !AnyTest(index.segmentBloom.value, req.dids) { return; }
    var c := CollectionCandidates(index, req, want, prefixes);
    EmptyExactly(c, index.collections, req);
    if !MatchAll(req) && Empty(c) { return; }
    hide Sorts, NameWanted, WellIndexed, AnyTest, BlockWanted, BloomsAllow, Lists, Planner.Overlaps;
    ListsNone(infos, index, req, after, before);
    for b := 0 to |infos|
      invariant Lists(out, infos, index, req, after, before, b)
    {
      var any := BlockHasAnyCandidate(index, b, c, req);
      var picked := Planner.Overlaps(infos[b], after, before) && (MatchAll(req) || any) && BloomsAllow(index, req, b);
      ListsSnoc(out, infos, index, req, after, before, b, picked);
      if picked { out := out + [b]; }
    }
  }

  /** Exactly the selected blocks in the window among the first n, ascending. */
  ghost predicate Lists(out: seq<nat>, infos: seq<Planner.BlockInfo>, index: Index, req: PlanRequest, after: Seq,
                        before: Option<Seq>, n: nat)
  {
    && (forall i, j :: 0 <= i < j < |out| ==> out[i] < out[j])
    && (forall b: nat :: b in out <==>
          b < n && b < |infos| && Planner.Overlaps(infos[b], after, before) && Selects(index, req, b))
  }

  lemma ListsNone(infos: seq<Planner.BlockInfo>, index: Index, req: PlanRequest, after: Seq, before: Option<Seq>)
    ensures Lists([], infos, index, req, after, before, 0)
  {
  }

  lemma ListsSnoc(out: seq<nat>, infos: seq<Planner.BlockInfo>, index: Index, req: PlanRequest, after: Seq,
                  before: Option<Seq>, b: nat, picked: bool)
    requires Lists(out, infos, index, req, after, before, b) && b < |infos|
    requires picked <==> Planner.Overlaps(infos[b], after, before) && Selects(index, req, b)
    ensures Lists(if picked then out + [b] else out, infos, index, req, after, before, b + 1)
  {
    hide Selects, Planner.Overlaps;
    if picked {
      var now := out + [b];
      forall i, j | 0 <= i < j < |now| ensures now[i] < now[j] {
        assert now[i] == out[i] && out[i] in out;
      }
      forall k: nat ensures k in now <==> k in out || k == b {
        if k == b { assert now[|out|] == k; }
      }
    }
  }

  // ---- what the selection can lose ----

  /** The client's own filter wants a row of the block. */
  ghost predicate Wants(req: PlanRequest, rows: seq<Event>) {
    exists i :: 0 <= i < |rows| && Passes(req, rows[i])
  }

  /** The row is found under a name it is indexed by. */
  ghost predicate Shows(req: PlanRequest, e: Event) {
    exists n :: n in NamesOf(e) && NameWanted(req, n)
  }

  /** A row without a collection, of an unknown kind, or of a collection named like a marker. */
  predicate Hidden(req: PlanRequest, e: Event) {
    match e.kind
    case Commit =>
      e.collection == ""
      || (SentinelKind(e.collection).Some? && !Admits(req, SentinelKind(e.collection).value))
    case OtherKind => e.collection == "" || !NameWanted(req, e.collection)
    case _ => false
  }

  /** A wanted row is missing from the index's answer exactly when it is one of those. */
  lemma HiddenExactly(req: PlanRequest, e: Event)
    requires Passes(req, e) && !MatchAll(req)
    ensures Shows(req, e) <==> !Hidden(req, e)
  {
    hide EntryMatches;
    if e.kind == Commit || e.kind == OtherKind {
      assert NamesOf(e) == if e.collection != "" then {e.collection} else {};
    } else {
      assert Sentinel(e.kind) in NamesOf(e) && SentinelKind(Sentinel(e.kind)) == Some(e.kind);
    }
  }

  /** A DID the request asks for passes every filter that holds it. */
  lemma BloomsKeep(index: Index, rows: seq<Event>, b: nat, req: PlanRequest, e: Event)
    requires DescribesBlock(index, rows, b) && e in rows && Passes(req, e) && "" !in req.dids
    ensures BloomsAllow(index, req, b)
  {
    hide Tags, Names, Dids, TestString, EntryMatches;
    if req.dids != [] {
      var i :| 0 <= i < |req.dids| && req.dids[i] == e.did;
      DidsMembers(rows, e);
    }
  }

  /** The table names whatever shows, and the block's ids lead there. */
  lemma ShownExactly(index: Index, rows: seq<Event>, b: nat, req: PlanRequest)
    requires DescribesBlock(index, rows, b)
    ensures (exists i :: 0 <= i < |rows| && Shows(req, rows[i])) ==>
              (exists id :: 0 <= id < |index.collections| && NameWanted(req, index.collections[id]))
              && BlockWanted(index, req, b)
    ensures b < |index.blockCollections| && BlockWanted(index, req, b) ==>
              exists i :: 0 <= i < |rows| && Shows(req, rows[i])
  {
    hide NameWanted, NamesOf, Holds, Names;
    if i :| 0 <= i < |rows| && Shows(req, rows[i]) {
      var n :| n in NamesOf(rows[i]) && NameWanted(req, n);
      NamesMembers(rows, n);
      var id :| 0 <= id < |index.collections| && index.collections[id] == n;
    }
    if b < |index.blockCollections| && BlockWanted(index, req, b) {
      var id :| id in index.blockCollections[b] && id < |index.collections| && NameWanted(req, index.collections[id]);
      NamesMembers(rows, index.collections[id]);
    }
  }

  /**
   The one-sided contract, exactly: a block with a wanted row is lost if and only if
   the request names kinds or collections and no row of the block shows.
   */
  lemma LostExactly(index: Index, infos: seq<Planner.BlockInfo>, b: nat, req: PlanRequest)
    requires Describes(index, infos) && b < |infos| && b < |index.blockCollections| && "" !in req.dids
    ensures var rows := infos[b].rows;
            Wants(req, rows) && !Selects(index, req, b)
            <==> Wants(req, rows) && !MatchAll(req) && forall i :: 0 <= i < |rows| ==> !Shows(req, rows[i])
  {
    hide DescribesBlock, BloomsAllow, BlockWanted, NameWanted, MatchAll, Shows, Passes;
    var rows := infos[b].rows;
    if i :| 0 <= i < |rows| && Passes(req, rows[i]) {
      BloomsKeep(index, rows, b, req, rows[i]);
      ShownExactly(index, rows, b, req);
    }
  }

  /** Rows as the relay writes them: a known kind, and a commit has a collection that is no marker's name. */
  predicate Proper(e: Event) {
    && e.kind != OtherKind
    && (e.kind == Commit ==> e.collection != "" && SentinelKind(e.collection).None?)
  }

  /** No proper row is lost, whatever part of the index is missing. */
  lemma OneSided(index: Index, infos: seq<Planner.BlockInfo>, b: nat, req: PlanRequest, e: Event)
    requires Describes(index, infos) && b < |infos| && e in infos[b].rows && "" !in req.dids
    requires Passes(req, e) && Proper(e)
    ensures Selects(index, req, b)
  {
    hide DescribesBlock, BloomsAllow, BlockWanted, NameWanted, Shows, Passes, WellIndexed;
    BloomsKeep(index, infos[b].rows, b, req, e);
    if !MatchAll(req) {
      HiddenExactly(req, e);
      ShownExactly(index, infos[b].rows, b, req);
      var i :| 0 <= i < |infos[b].rows| && infos[b].rows[i] == e;
    }
  }

  /** The client lets a commit without a collection through its collection filter; its block is not selected. */
  lemma BareCommitIsLost()
    ensures var e := Event(1, "did:plc:a", Commit, "");
            var req := PlanRequest([], [], ["app.bsky.feed.post"], 0, false, 0);
            var index := Index([], [{}], None, []);
            && Describes(index, [Planner.BlockInfo(0, 0, 1, 1, [e])])
            && Passes(req, e) && !Selects(index, req, 0)
  {
    var e := Event(1, "did:plc:a", Commit, "");
    var index := Index([], [{}], None, []);
    assert [e][..0] == [] && Names([e]) == {};
    assert Tags(index.blockCollections[0], index.collections, Names([e]));
  }

  /** The planner's block filter over the sealed segments. */
  function FilterOf(indexes: map<nat, Index>, req: PlanRequest): Planner.BlockInfo -> bool {
    (b: Planner.BlockInfo) => b.seg in indexes ==> Selects(indexes[b.seg], req, b.idx)
  }

  /** Blocks in order, each listed in its segment, whose index describes it. */
  ghost predicate IsArchive(blocks: seq<Planner.BlockInfo>, segments: map<nat, seq<Planner.BlockInfo>>,
                            indexes: map<nat, Index>)
  {
    && (forall i :: 0 <= i < |blocks| ==> Planner.WellFormed(blocks[i]))
    && (forall i, j :: 0 <= i < j < |blocks| ==> blocks[i].hi < blocks[j].lo && blocks[i].seg <= blocks[j].seg)
    && (forall i :: 0 <= i < |blocks| ==> Listing(blocks[i], segments, indexes))
  }

  ghost predicate Listing(b: Planner.BlockInfo, segments: map<nat, seq<Planner.BlockInfo>>, indexes: map<nat, Index>) {
    && b.seg in segments && b.seg in indexes && Describes(indexes[b.seg], segments[b.seg])
    && b.idx < |segments[b.seg]| && segments[b.seg][b.idx] == b
  }

  /** An archive sealed from proper rows is one the planner can serve any request from. */
  lemma SealedArchiveQualifies(blocks: seq<Planner.BlockInfo>, segments: map<nat, seq<Planner.BlockInfo>>,
                               indexes: map<nat, Index>, threshold: real, cap: nat, req: PlanRequest)
    requires IsArchive(blocks, segments, indexes) && 0.0 < threshold && "" !in req.dids
    requires forall i, e :: 0 <= i < |blocks| && e in blocks[i].rows ==> Proper(e)
    ensures Planner.IsManifest(Planner.Manifest(blocks, FilterOf(indexes, req), threshold, cap), req)
  {
    hide Describes, Selects, Passes, Proper, Planner.WellFormed;
    forall i, e | 0 <= i < |blocks| && e in blocks[i].rows && Passes(req, e)
      ensures FilterOf(indexes, req)(blocks[i])
    {
      var b := blocks[i];
      assert Listing(b, segments, indexes);
      OneSided(indexes[b.seg], segments[b.seg], b.idx, req, e);
    }
  }
}
