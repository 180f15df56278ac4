/**
 The frames of the repository event stream: a header struct followed by a body
 struct (Serialize and Deserialize in events/events.go, with the generated codecs
 of events/cbor_gen.go and api/atproto/cbor_gen.go).
 */
module EventFrames {
  import opened Common
  import opened Cbor

  const OP_ERROR: Int64 := -1
  const OP_MESSAGE: Int64 := 1

  /** The events whose codec needs no content identifiers. */
  datatype StreamEvent =
    | ErrorFrame(error: Bytes, message: Bytes)
    | SyncEvent(did: Bytes, rev: Bytes, seqNo: Int64, time: Bytes, blocks: Option<Bytes>)
    | IdentityEvent(did: Bytes, seqNo: Int64, time: Bytes, handle: Option<Bytes>)
    | AccountEvent(did: Bytes, seqNo: Int64, time: Bytes, active: bool, status: Option<Bytes>)
    | InfoEvent(name: Bytes, note: Option<Bytes>)

  /** What a decoded frame holds; other message types are left to their own codecs. */
  datatype Decoded = Known(event: StreamEvent) | Other(kind: string)

  /** The body structs of the stream. */
  datatype Body = ErrorBody | SyncBody | IdentityBody | AccountBody | InfoBody

  const HEADER: Schema := Schema(map["t" := TextKind, "op" := IntKind], 2)
  const ERROR: Schema := Schema(map["error" := TextKind, "message" := TextKind], 7)
  const SYNC: Schema :=
    Schema(map["did" := TextKind, "rev" := TextKind, "seq" := IntKind, "time" := TextKind, "blocks" := BlobKind], 6)
  const IDENTITY: Schema :=
    Schema(map["did" := TextKind, "seq" := IntKind, "time" := TextKind, "handle" := OptTextKind], 6)
  const ACCOUNT: Schema :=
    Schema(map["did" := TextKind, "seq" := IntKind, "time" := TextKind, "active" := BoolKind,
               "status" := OptTextKind], 6)
  const INFO: Schema := Schema(map["name" := TextKind, "message" := OptTextKind], 7)

  function OpOf(e: StreamEvent): Int64 {
    if e.ErrorFrame? then OP_ERROR else OP_MESSAGE
  }

  function TypeOf(e: StreamEvent): string {
    match e
    case ErrorFrame(_, _) => ""
    case SyncEvent(_, _, _, _, _) => "#sync"
    case IdentityEvent(_, _, _, _) => "#identity"
    case AccountEvent(_, _, _, _, _) => "#account"
    case InfoEvent(_, _) => "#info"
  }

  function BodyOf(e: StreamEvent): Body {
    match e
    case ErrorFrame(_, _) => ErrorBody
    case SyncEvent(_, _, _, _, _) => SyncBody
    case IdentityEvent(_, _, _, _) => IdentityBody
    case AccountEvent(_, _, _, _, _) => AccountBody
    case InfoEvent(_, _) => InfoBody
  }

  function SchemaOf(body: Body): Schema {
    match body
    case ErrorBody => ERROR
    case SyncBody => SYNC
    case IdentityBody => IDENTITY
    case AccountBody => ACCOUNT
    case InfoBody => INFO
  }

  function OptText(name: string, v: Option<Bytes>): seq<Field> {
    if v.None? then [] else [Field(name, Text(v.value))]
  }

  function HeaderFields(op: Int64, t: string): seq<Field>
    requires IsName(t)
  {
    (if t == "" then [] else [Field("t", Text(NameBytes(t)))]) + [Field("op", Int(op))]
  }

  /** The fields in the order they are written; absent optional fields are left out. */
  function BodyFields(e: StreamEvent): seq<Field> {
    match e
    case ErrorFrame(error, message) => [Field("error", Text(error)), Field("message", Text(message))]
    case SyncEvent(did, rev, seqNo, time, blocks) =>
      [Field("did", Text(did)), Field("rev", Text(rev)), Field("seq", Int(seqNo)), Field("time", Text(time))]
      + (if blocks.None? then [] else [Field("blocks", Blob(blocks.value))])
    case IdentityEvent(did, seqNo, time, handle) =>
      [Field("did", Text(did)), Field("seq", Int(seqNo)), Field("time", Text(time))] + OptText("handle", handle)
    case AccountEvent(did, seqNo, time, active, status) =>
      [Field("did", Text(did)), Field("seq", Int(seqNo)), Field("time", Text(time)), Field("active", Bool(active))]
      + OptText("status", status)
    case InfoEvent(name, note) => [Field("name", Text(name))] + OptText("message", note)
  }

  predicate Short(t: Bytes) { |t| <= MAX_TEXT }

  predicate ShortOpt(t: Option<Bytes>) { t.Some? ==> Short(t.value) }

  predicate WithinLimits(e: StreamEvent) {
    match e
    case ErrorFrame(error, message) => Short(error) && Short(message)
    case SyncEvent(did, rev, _, time, blocks) =>
      Short(did) && Short(rev) && Short(time) && (blocks.Some? ==> |blocks.value| <= MAX_BLOB)
    case IdentityEvent(did, _, time, handle) => Short(did) && Short(time) && ShortOpt(handle)
    case AccountEvent(did, _, time, _, status) => Short(did) && Short(time) && ShortOpt(status)
    case InfoEvent(name, note) => Short(name) && ShortOpt(note)
  }

  /** A short name that the schema knows: only the value can be too long. */
  ghost predicate Listed(f: Field, schema: Schema, kind: Kind) {
    |f.name| <= schema.nameCap && f.name in schema.kinds && schema.kinds[f.name] == kind
  }

  lemma ListedFits(f: Field, schema: Schema, kind: Kind)
    requires Listed(f, schema, kind) && schema.nameCap <= 7
    requires forall i :: 0 <= i < |f.name| ==> f.name[i] as int < 128
    ensures FieldFits(f, schema) <==> Fits(f.value, kind)
  {
  }

  lemma HeaderFits(e: StreamEvent)
    ensures IsName(TypeOf(e)) && Writable(HeaderFields(OpOf(e), TypeOf(e)), HEADER)
  {
  }

  lemma ErrorFits(e: StreamEvent)
    requires e.ErrorFrame?
    ensures Writable(BodyFields(e), ERROR) <==> WithinLimits(e)
  {
    hide FieldFits;
    var fs := BodyFields(e);
    ListedFits(fs[0], ERROR, TextKind);
    ListedFits(fs[1], ERROR, TextKind);
  }

  lemma SyncFits(e: StreamEvent)
    requires e.SyncEvent?
    ensures Writable(BodyFields(e), SYNC) <==> WithinLimits(e)
  {
    hide FieldFits;
    var fs := BodyFields(e);
    ListedFits(fs[0], SYNC, TextKind);
    ListedFits(fs[1], SYNC, TextKind);
    ListedFits(fs[2], SYNC, IntKind);
    ListedFits(fs[3], SYNC, TextKind);
    if e.blocks.Some? { ListedFits(fs[4], SYNC, BlobKind); }
  }

  lemma IdentityFits(e: StreamEvent)
    requires e.IdentityEvent?
    ensures Writable(BodyFields(e), IDENTITY) <==> WithinLimits(e)
  {
    hide FieldFits;
    var fs := BodyFields(e);
    ListedFits(fs[0], IDENTITY, TextKind);
    ListedFits(fs[1], IDENTITY, IntKind);
    ListedFits(fs[2], IDENTITY, TextKind);
    if e.handle.Some? { ListedFits(fs[3], IDENTITY, OptTextKind); }
  }

  lemma AccountFits(e: StreamEvent)
    requires e.AccountEvent?
    ensures Writable(BodyFields(e), ACCOUNT) <==> WithinLimits(e)
  {
    hide FieldFits;
    var fs := BodyFields(e);
    ListedFits(fs[0], ACCOUNT, TextKind);
    ListedFits(fs[1], ACCOUNT, IntKind);
    ListedFits(fs[2], ACCOUNT, TextKind);
    ListedFits(fs[3], ACCOUNT, BoolKind);
    if e.status.Some? { ListedFits(fs[4], ACCOUNT, OptTextKind); }
  }

  lemma InfoFits(e: StreamEvent)
    requires e.InfoEvent?
    ensures Writable(BodyFields(e), INFO) <==> WithinLimits(e)
  {
    hide FieldFits;
    var fs := BodyFields(e);
    ListedFits(fs[0], INFO, TextKind);
    if e.note.Some? { ListedFits(fs[1], INFO, OptTextKind); }
  }

  /** A body can be written exactly when its fields are within the length limits. */
  lemma BodyFits(e: StreamEvent)
    ensures Writable(BodyFields(e), SchemaOf(BodyOf(e))) <==> WithinLimits(e)
  {
    hide WithinLimits, BodyFields, Writable;
    match e
    case ErrorFrame(_, _) => ErrorFits(e);
    case SyncEvent(_, _, _, _, _) => SyncFits(e);
    case IdentityEvent(_, _, _, _) => IdentityFits(e);
    case AccountEvent(_, _, _, _, _) => AccountFits(e);
    case InfoEvent(_, _) => InfoFits(e);
  }

  /** A frame: header bytes, then body bytes; refused when a field is too long. */
  function Serialize(e: StreamEvent): Option<Bytes> {
    HeaderFits(e);
    BodyFits(e);
    if !WithinLimits(e) then None
    else
      Some(EncodeStruct(HeaderFields(OpOf(e), TypeOf(e)), HEADER) + EncodeStruct(BodyFields(e), SchemaOf(BodyOf(e))))
  }

  function TextOf(m: map<string, Value>, name: string): Bytes {
    if name in m && m[name].Text? then m[name].text else []
  }

  function OptTextOf(m: map<string, Value>, name: string): Option<Bytes> {
    if name in m && m[name].Text? then Some(m[name].text) else None
  }

  function IntOf(m: map<string, Value>, name: string): Int64 {
    if name in m && m[name].Int? then m[name].num else 0
  }

  function BoolOf(m: map<string, Value>, name: string): bool {
    name in m && m[name].Bool? && m[name].flag
  }

  /** An empty byte string is read back as an absent one. */
  function BlobOf(m: map<string, Value>, name: string): Option<Bytes> {
    if name in m && m[name].Blob? && m[name].blob != [] then Some(m[name].blob) else None
  }

  function Rebuild(body: Body, m: map<string, Value>): StreamEvent {
    match body
    case ErrorBody => ErrorFrame(TextOf(m, "error"), TextOf(m, "message"))
    case SyncBody =>
      SyncEvent(TextOf(m, "did"), TextOf(m, "rev"), IntOf(m, "seq"), TextOf(m, "time"), BlobOf(m, "blocks"))
    case IdentityBody =>
      IdentityEvent(TextOf(m, "did"), IntOf(m, "seq"), TextOf(m, "time"), OptTextOf(m, "handle"))
    case AccountBody =>
      AccountEvent(TextOf(m, "did"), IntOf(m, "seq"), TextOf(m, "time"), BoolOf(m, "active"), OptTextOf(m, "status"))
    case InfoBody => InfoEvent(TextOf(m, "name"), OptTextOf(m, "message"))
  }

  function DecodeBody(bs: Bytes, body: Body, skip: Skipper): Parsed<Decoded> {
    match DecodeStruct(bs, SchemaOf(body), skip)
    case Bad => Bad
    case Ok(m, rest) => Ok(Known(Rebuild(body, m)), rest)
  }

  /** Where a header sends the rest of the frame. */
  datatype Route = ToBody(body: Body) | ToOther | Unrecognized

  function RouteOf(op: Int64, t: string): Route {
    if op == OP_ERROR then ToBody(ErrorBody)
    else if op != OP_MESSAGE then Unrecognized
    else if t == "#sync" then ToBody(SyncBody)
    else if t == "#identity" then ToBody(IdentityBody)
    else if t == "#account" then ToBody(AccountBody)
    else if t == "#info" then ToBody(InfoBody)
    else ToOther
  }

  function Deserialize(bs: Bytes, skip: Skipper): Parsed<Decoded> {
    match DecodeStruct(bs, HEADER, skip)
    case Bad => Bad
    case Ok(m, rest) =>
      var t := Latin(TextOf(m, "t"));
      match RouteOf(IntOf(m, "op"), t)
      case ToBody(body) => DecodeBody(rest, body, skip)
      case ToOther => Ok(Other(t), rest)
      case Unrecognized => Bad
  }

  lemma Routed(e: StreamEvent)
    ensures RouteOf(OpOf(e), TypeOf(e)) == ToBody(BodyOf(e))
  {
  }

  /** The one thing the wire does not keep: an empty byte string is not told from none. */
  function Normalized(e: StreamEvent): StreamEvent {
    if e.SyncEvent? && e.blocks == Some([]) then e.(blocks := None) else e
  }

  predicate DistinctNames(fs: seq<Field>) {
    forall i, j :: 0 <= i < j < |fs| ==> fs[i].name != fs[j].name
  }

  lemma {:induction false} AssignedKeeps(fs: seq<Field>, got: map<string, Value>, name: string)
    requires forall i :: 0 <= i < |fs| ==> fs[i].name != name
    ensures name in Assigned(fs, got) <==> name in got
    ensures name in got ==> Assigned(fs, got)[name] == got[name]
    decreases |fs|
  {
    if fs != [] { AssignedKeeps(fs[1..], got[fs[0].name := fs[0].value], name); }
  }

  lemma {:induction false} AssignedHolds(fs: seq<Field>, got: map<string, Value>, i: nat)
    requires DistinctNames(fs) && i < |fs|
    ensures fs[i].name in Assigned(fs, got) && Assigned(fs, got)[fs[i].name] == fs[i].value
    decreases |fs|
  {
    var got' := got[fs[0].name := fs[0].value];
    if i == 0 {
      AssignedKeeps(fs[1..], got', fs[0].name);
    } else {
      AssignedHolds(fs[1..], got', i - 1);
    }
  }

  lemma AssignedAll(fs: seq<Field>)
    requires DistinctNames(fs)
    ensures forall i :: 0 <= i < |fs| ==>
              fs[i].name in Assigned(fs, map[]) && Assigned(fs, map[])[fs[i].name] == fs[i].value
    ensures forall name :: name in Assigned(fs, map[]) ==> exists i :: 0 <= i < |fs| && fs[i].name == name
  {
    forall i | 0 <= i < |fs|
      ensures fs[i].name in Assigned(fs, map[]) && Assigned(fs, map[])[fs[i].name] == fs[i].value
    {
      AssignedHolds(fs, map[], i);
    }
    forall name | name in Assigned(fs, map[]) ensures exists i :: 0 <= i < |fs| && fs[i].name == name {
      if forall i :: 0 <= i < |fs| ==> fs[i].name != name { AssignedKeeps(fs, map[], name); }
    }
  }

  lemma RebuildsError(e: StreamEvent)
    requires e.ErrorFrame?
    ensures Rebuild(BodyOf(e), Assigned(BodyFields(e), map[])) == Normalized(e)
  {
    hide Assigned;
    var fs := BodyFields(e);
    AssignedAll(fs);
    var m := Assigned(fs, map[]);
    assert fs[0].name in m && fs[1].name in m;
  }

  lemma RebuildsSync(e: StreamEvent)
    requires e.SyncEvent?
    ensures Rebuild(BodyOf(e), Assigned(BodyFields(e), map[])) == Normalized(e)
  {
    hide Assigned;
    var fs := BodyFields(e);
    AssignedAll(fs);
    var m := Assigned(fs, map[]);
    assert fs[0].name in m && fs[1].name in m && fs[2].name in m && fs[3].name in m;
    if e.blocks.Some? { assert fs[4].name in m; } else { assert "blocks" !in m; }
  }

  lemma RebuildsIdentity(e: StreamEvent)
    requires e.IdentityEvent?
    ensures Rebuild(BodyOf(e), Assigned(BodyFields(e), map[])) == Normalized(e)
  {
    hide Assigned;
    var fs := BodyFields(e);
    AssignedAll(fs);
    var m := Assigned(fs, map[]);
    assert fs[0].name in m && fs[1].name in m && fs[2].name in m;
    if e.handle.Some? { assert fs[3].name in m; } else { assert "handle" !in m; }
  }

  lemma RebuildsAccount(e: StreamEvent)
    requires e.AccountEvent?
    ensures Rebuild(BodyOf(e), Assigned(BodyFields(e), map[])) == Normalized(e)
  {
    hide Assigned;
    var fs := BodyFields(e);
    AssignedAll(fs);
    var m := Assigned(fs, map[]);
    assert fs[0].name in m && fs[1].name in m && fs[2].name in m && fs[3].name in m;
    if e.status.Some? { assert fs[4].name in m; } else { assert "status" !in m; }
  }

  lemma RebuildsInfo(e: StreamEvent)
    requires e.InfoEvent?
    ensures Rebuild(BodyOf(e), Assigned(BodyFields(e), map[])) == Normalized(e)
  {
    hide Assigned;
    var fs := BodyFields(e);
    AssignedAll(fs);
    var m := Assigned(fs, map[]);
    assert fs[0].name in m;
    if e.note.Some? { assert fs[1].name in m; } else { assert "message" !in m; }
  }

  /** The body's fields rebuild the event. */
  lemma RebuildsBody(e: StreamEvent)
    ensures Rebuild(BodyOf(e), Assigned(BodyFields(e), map[])) == Normalized(e)
  {
    hide Assigned, BodyFields, Rebuild, Normalized;
    match e
    case ErrorFrame(_, _) => RebuildsError(e);
    case SyncEvent(_, _, _, _, _) => RebuildsSync(e);
    case IdentityEvent(_, _, _, _) => RebuildsIdentity(e);
    case AccountEvent(_, _, _, _, _) => RebuildsAccount(e);
    case InfoEvent(_, _) => RebuildsInfo(e);
  }

  lemma HeaderDecodes(op: Int64, t: string)
    requires IsName(t)
    ensures var m := Assigned(HeaderFields(op, t), map[]);
            IntOf(m, "op") == op && Latin(TextOf(m, "t")) == t
  {
    hide Assigned, Latin;
    var fs := HeaderFields(op, t);
    AssignedAll(fs);
    var m := Assigned(fs, map[]);
    assert fs[|fs| - 1].name in m;
    if t == "" {
      assert "t" !in m;
      EmptyName();
    } else {
      assert fs[0].name in m;
    }
  }

  lemma EmptyName()
    ensures Latin([]) == ""
  {
  }

  /**
   Deserialize undoes Serialize for every error, sync, identity, account and info
   event within the limits, up to an empty byte string, and leaves the bytes after
   the frame untouched; whatever way the library skips unknown fields.
   */
  lemma FrameRoundTrip(e: StreamEvent, skip: Skipper, rest: Bytes)
    ensures Serialize(e).Some? <==> WithinLimits(e)
    ensures WithinLimits(e) ==> Deserialize(Serialize(e).value + rest, skip) == Ok(Known(Normalized(e)), rest)
  {
    if WithinLimits(e) {
      hide EncodeStruct, DecodeStruct, Assigned, Rebuild, Normalized, BodyFields, HeaderFields, IntOf, TextOf,
           Latin, WithinLimits, TypeOf, OpOf, BodyOf, SchemaOf, RouteOf;
      Routed(e);
      HeaderFits(e);
      BodyFits(e);
      var header := HeaderFields(OpOf(e), TypeOf(e));
      var body, kind := EncodeStruct(BodyFields(e), SchemaOf(BodyOf(e))), BodyOf(e);
      Assoc(EncodeStruct(header, HEADER), body, rest);
      StructRoundTrip(header, HEADER, skip, body + rest);
      StructRoundTrip(BodyFields(e), SchemaOf(kind), skip, rest);
      HeaderDecodes(OpOf(e), TypeOf(e));
      RebuildsBody(e);
    }
  }

  /** The round trip is the identity exactly when no empty byte string is sent. */
  lemma FrameRoundTripExact(e: StreamEvent, skip: Skipper)
    requires WithinLimits(e)
    ensures Deserialize(Serialize(e).value, skip) == Ok(Known(e), []) <==> !(e.SyncEvent? && e.blocks == Some([]))
  {
    FrameRoundTrip(e, skip, []);
    assert Serialize(e).value + [] == Serialize(e).value;
  }

  /** Any other operation is refused, and a message of any other type is kept with its type and passed over. */
  lemma UnknownHeader(op: Int64, t: string, skip: Skipper, rest: Bytes)
    requires IsName(t) && Writable(HeaderFields(op, t), HEADER)
    ensures var p := Deserialize(EncodeStruct(HeaderFields(op, t), HEADER) + rest, skip);
            && (op != 1 && op != -1 ==> p.Bad?)
            && (op == 1 && t !in {"#sync", "#identity", "#account", "#info"} ==> p == Ok(Other(t), rest))
  {
    hide EncodeStruct, DecodeStruct, Assigned, HeaderFields, IntOf, TextOf, Latin, DecodeBody;
    StructRoundTrip(HeaderFields(op, t), HEADER, skip, rest);
    HeaderDecodes(op, t);
  }

  lemma DeserializeExtends(bs: Bytes, skip: Skipper, more: Bytes)
    requires Streams(skip)
    ensures var p := Deserialize(bs, skip);
            p.Ok? ==> Deserialize(bs + more, skip) == Ok(p.value, p.rest + more)
  {
    hide DecodeStruct, RouteOf, Rebuild, SchemaOf, Latin, TextOf, IntOf, Streams;
    StructExtends(bs, HEADER, skip, more);
    var p := DecodeStruct(bs, HEADER, skip);
    if p.Ok? {
      var route := RouteOf(IntOf(p.value, "op"), Latin(TextOf(p.value, "t")));
      if route.ToBody? { StructExtends(p.rest, SchemaOf(route.body), skip, more); }
    }
  }

  /** A frame that arrives cut short anywhere is refused. */
  lemma FrameTruncated(e: StreamEvent, skip: Skipper, bs: Bytes)
    requires WithinLimits(e) && Streams(skip) && Serialize(e).Some? && bs < Serialize(e).value
    ensures Deserialize(bs, skip).Bad?
  {
    hide Serialize, Deserialize, WithinLimits, Streams, Normalized;
    var whole := Serialize(e).value;
    var more := whole[|bs|..];
    assert whole == bs + more && whole + [] == whole;
    DeserializeExtends(bs, skip, more);
    FrameRoundTrip(e, skip, []);
  }

  // ---- the frames on the wire ----

  /** Text and integers as section 3.1 of RFC 8949 has them. */
  function WireText(t: Bytes): Bytes
    requires |t| <= MAX_TEXT
  {
    EncodeHead(3, |t|) + t
  }

  function WireBlob(b: Bytes): Bytes
    requires |b| <= MAX_BLOB
  {
    EncodeHead(2, |b|) + b
  }

  function WireInt(n: Int64): Bytes {
    if n >= 0 then EncodeHead(0, n) else EncodeHead(1, -1 - n)
  }

  /** A key: 0x60 plus its length, then its letters. */
  function Key(name: Bytes): Bytes
    requires |name| < 24
  {
    [0x60 + |name|] + name
  }

  const T_KEY: Bytes := [0x74]                                           // t
  const OP_KEY: Bytes := [0x6F, 0x70]                                    // op
  const ERROR_KEY: Bytes := [0x65, 0x72, 0x72, 0x6F, 0x72]               // error
  const MESSAGE_KEY: Bytes := [0x6D, 0x65, 0x73, 0x73, 0x61, 0x67, 0x65] // message
  const DID_KEY: Bytes := [0x64, 0x69, 0x64]                             // did
  const REV_KEY: Bytes := [0x72, 0x65, 0x76]                             // rev
  const SEQ_KEY: Bytes := [0x73, 0x65, 0x71]                             // seq
  const TIME_KEY: Bytes := [0x74, 0x69, 0x6D, 0x65]                      // time
  const BLOCKS_KEY: Bytes := [0x62, 0x6C, 0x6F, 0x63, 0x6B, 0x73]        // blocks
  const HANDLE_KEY: Bytes := [0x68, 0x61, 0x6E, 0x64, 0x6C, 0x65]        // handle
  const ACTIVE_KEY: Bytes := [0x61, 0x63, 0x74, 0x69, 0x76, 0x65]        // active
  const STATUS_KEY: Bytes := [0x73, 0x74, 0x61, 0x74, 0x75, 0x73]        // status
  const NAME_KEY: Bytes := [0x6E, 0x61, 0x6D, 0x65]                      // name

  const SYNC_TYPE: Bytes := [0x23, 0x73, 0x79, 0x6E, 0x63]                               // #sync
  const IDENTITY_TYPE: Bytes := [0x23, 0x69, 0x64, 0x65, 0x6E, 0x74, 0x69, 0x74, 0x79]   // #identity
  const ACCOUNT_TYPE: Bytes := [0x23, 0x61, 0x63, 0x63, 0x6F, 0x75, 0x6E, 0x74]          // #account
  const INFO_TYPE: Bytes := [0x23, 0x69, 0x6E, 0x66, 0x6F]                               // #info

  /** The header of a message is a map of two, its type and the operation 1; that of an error is the operation -1. */
  function HeaderOnWire(e: StreamEvent): Bytes {
    match e
    case ErrorFrame(_, _) => [0xA1] + (Key(OP_KEY) + [0x20])
    case SyncEvent(_, _, _, _, _) => MessageOnWire(SYNC_TYPE)
    case IdentityEvent(_, _, _, _) => MessageOnWire(IDENTITY_TYPE)
    case AccountEvent(_, _, _, _, _) => MessageOnWire(ACCOUNT_TYPE)
    case InfoEvent(_, _) => MessageOnWire(INFO_TYPE)
  }

  function MessageOnWire(t: Bytes): Bytes
    requires |t| < 24
  {
    [0xA2] + ((Key(T_KEY) + Key(t)) + (Key(OP_KEY) + [0x01]))
  }

  function OptOnWire(name: Bytes, v: Option<Bytes>): seq<Bytes>
    requires |name| < 24 && ShortOpt(v)
  {
    if v.None? then [] else [Key(name) + WireText(v.value)]
  }

  /** The entries of the body's map, in order. */
  function BodyOnWire(e: StreamEvent): seq<Bytes>
    requires WithinLimits(e)
  {
    match e
    case ErrorFrame(error, message) => [Key(ERROR_KEY) + WireText(error), Key(MESSAGE_KEY) + WireText(message)]
    case SyncEvent(did, rev, seqNo, time, blocks) =>
      [Key(DID_KEY) + WireText(did), Key(REV_KEY) + WireText(rev), Key(SEQ_KEY) + WireInt(seqNo),
       Key(TIME_KEY) + WireText(time)]
      + (if blocks.None? then [] else [Key(BLOCKS_KEY) + WireBlob(blocks.value)])
    case IdentityEvent(did, seqNo, time, handle) =>
      [Key(DID_KEY) + WireText(did), Key(SEQ_KEY) + WireInt(seqNo), Key(TIME_KEY) + WireText(time)]
      + OptOnWire(HANDLE_KEY, handle)
    case AccountEvent(did, seqNo, time, active, status) =>
      [Key(DID_KEY) + WireText(did), Key(SEQ_KEY) + WireInt(seqNo), Key(TIME_KEY) + WireText(time),
       Key(ACTIVE_KEY) + [if active then 0xF5 else 0xF4]]
      + OptOnWire(STATUS_KEY, status)
    case InfoEvent(name, note) => [Key(NAME_KEY) + WireText(name)] + OptOnWire(MESSAGE_KEY, note)
  }

  /** A field: its key, then its value. */
  lemma FieldOnWire(f: Field, schema: Schema, name: Bytes)
    requires FieldFits(f, schema)
    requires |f.name| == |name| < 24 && forall i :: 0 <= i < |name| ==> f.name[i] as int == name[i]
    ensures match f.value
            case Text(t) => |t| <= MAX_TEXT && EncodeField(f, schema) == Key(name) + WireText(t)
            case Blob(b) => |b| <= MAX_BLOB && EncodeField(f, schema) == Key(name) + WireBlob(b)
            case Int(n) => EncodeField(f, schema) == Key(name) + WireInt(n)
            case Bool(b) => EncodeField(f, schema) == Key(name) + [if b then 0xF5 else 0xF4]
            case Null => EncodeField(f, schema) == Key(name) + [0xF6]
  {
    hide EncodeHead, EncodeValue, EncodeText, NameBytes;
    NameOnWire(f.name, name);
    assert Fits(f.value, schema.kinds[f.name]);
    ValueOnWire(f.value);
  }

  function Together(parts: seq<Bytes>): Bytes {
    if parts == [] then [] else parts[0] + Together(parts[1..])
  }

  /** The fields one after another. */
  lemma {:induction false} FieldsOnWire(fs: seq<Field>, schema: Schema, parts: seq<Bytes>)
    requires |fs| == |parts|
    requires forall i :: 0 <= i < |fs| ==> FieldFits(fs[i], schema) && EncodeField(fs[i], schema) == parts[i]
    ensures EncodeFields(fs, schema) == Together(parts)
    decreases |fs|
  {
    hide EncodeField, FieldFits;
    if fs != [] { FieldsOnWire(fs[1..], schema, parts[1..]); }
  }

  ghost predicate Entries(e: StreamEvent)
    requires WithinLimits(e)
  {
    var fs, schema, parts := BodyFields(e), SchemaOf(BodyOf(e)), BodyOnWire(e);
    && |fs| == |parts| <= 5
    && forall i :: 0 <= i < |fs| ==> FieldFits(fs[i], schema) && EncodeField(fs[i], schema) == parts[i]
  }

  lemma ErrorEntries(e: StreamEvent)
    requires WithinLimits(e) && e.ErrorFrame?
    ensures Entries(e)
  {
    ErrorFits(e);
    hide FieldFits, EncodeField, WireText, Key, WithinLimits;
    var fs := BodyFields(e);
    FieldOnWire(fs[0], ERROR, ERROR_KEY);
    FieldOnWire(fs[1], ERROR, MESSAGE_KEY);
  }

  lemma SyncEntries(e: StreamEvent)
    requires WithinLimits(e) && e.SyncEvent?
    ensures Entries(e)
  {
    SyncFits(e);
    hide FieldFits, EncodeField, WireText, WireInt, WireBlob, Key, WithinLimits;
    var fs := BodyFields(e);
    FieldOnWire(fs[0], SYNC, DID_KEY);
    FieldOnWire(fs[1], SYNC, REV_KEY);
    FieldOnWire(fs[2], SYNC, SEQ_KEY);
    FieldOnWire(fs[3], SYNC, TIME_KEY);
    if e.blocks.Some? { FieldOnWire(fs[4], SYNC, BLOCKS_KEY); }
  }

  lemma IdentityEntries(e: StreamEvent)
    requires WithinLimits(e) && e.IdentityEvent?
    ensures Entries(e)
  {
    IdentityFits(e);
    hide FieldFits, EncodeField, WireText, WireInt, Key, WithinLimits;
    var fs := BodyFields(e);
    FieldOnWire(fs[0], IDENTITY, DID_KEY);
    FieldOnWire(fs[1], IDENTITY, SEQ_KEY);
    FieldOnWire(fs[2], IDENTITY, TIME_KEY);
    if e.handle.Some? { FieldOnWire(fs[3], IDENTITY, HANDLE_KEY); }
  }

  lemma AccountEntries(e: StreamEvent)
    requires WithinLimits(e) && e.AccountEvent?
    ensures Entries(e)
  {
    AccountFits(e);
    hide FieldFits, EncodeField, WireText, WireInt, Key, WithinLimits;
    var fs := BodyFields(e);
    FieldOnWire(fs[0], ACCOUNT, DID_KEY);
    FieldOnWire(fs[1], ACCOUNT, SEQ_KEY);
    FieldOnWire(fs[2], ACCOUNT, TIME_KEY);
    FieldOnWire(fs[3], ACCOUNT, ACTIVE_KEY);
    if e.status.Some? { FieldOnWire(fs[4], ACCOUNT, STATUS_KEY); }
  }

  lemma InfoEntries(e: StreamEvent)
    requires WithinLimits(e) && e.InfoEvent?
    ensures Entries(e)
  {
    InfoFits(e);
    hide FieldFits, EncodeField, WireText, Key, WithinLimits;
    var fs := BodyFields(e);
    FieldOnWire(fs[0], INFO, NAME_KEY);
    if e.note.Some? { FieldOnWire(fs[1], INFO, MESSAGE_KEY); }
  }

  lemma BodyEntries(e: StreamEvent)
    requires WithinLimits(e)
    ensures Entries(e)
  {
    hide WithinLimits, Entries;
    match e
    case ErrorFrame(_, _) => ErrorEntries(e);
    case SyncEvent(_, _, _, _, _) => SyncEntries(e);
    case IdentityEvent(_, _, _, _) => IdentityEntries(e);
    case AccountEvent(_, _, _, _, _) => AccountEntries(e);
    case InfoEvent(_, _) => InfoEntries(e);
  }

  lemma MessageHeaderBytes(t: string, bs: Bytes)
    requires t != "" && IsName(t) && |t| == |bs| < 24 && forall i :: 0 <= i < |bs| ==> t[i] as int == bs[i]
    ensures Writable(HeaderFields(OP_MESSAGE, t), HEADER)
    ensures EncodeStruct(HeaderFields(OP_MESSAGE, t), HEADER) == MessageOnWire(bs)
  {
    var fs := HeaderFields(OP_MESSAGE, t);
    assert FieldFits(fs[0], HEADER) && FieldFits(fs[1], HEADER);
    hide EncodeField, EncodeStruct, EncodeFields, NameBytes, FieldFits, WireText, WireInt, Key;
    StructOnWire(fs, HEADER);
    FieldOnWire(fs[0], HEADER, T_KEY);
    FieldOnWire(fs[1], HEADER, OP_KEY);
    ShortText(t, bs);
    OneOnWire();
    var parts := [Key(T_KEY) + Key(bs), Key(OP_KEY) + [0x01]];
    FieldsOnWire(fs, HEADER, parts);
    TogetherTwo(parts[0], parts[1]);
  }

  lemma ShortText(t: string, bs: Bytes)
    requires IsName(t) && |t| == |bs| < 24 && forall i :: 0 <= i < |bs| ==> t[i] as int == bs[i]
    ensures NameBytes(t) == bs && WireText(bs) == Key(bs)
  {
    HeadOnWire(3, |bs|);
    hide EncodeHead;
    assert EncodeHead(3, |bs|) == [0x60 + |bs|];
  }

  lemma OneOnWire()
    ensures WireInt(1) == [0x01]
  {
    HeadOnWire(0, 1);
  }

  lemma TogetherTwo(a: Bytes, b: Bytes)
    ensures Together([a, b]) == a + b && Together([a]) == a
  {
    assert [a, b][1..] == [b] && [b][1..] == [] && [a][1..] == [];
    assert Together([b]) == b + [];
  }

  lemma ErrorHeaderBytes()
    ensures Writable(HeaderFields(OP_ERROR, ""), HEADER)
    ensures EncodeStruct(HeaderFields(OP_ERROR, ""), HEADER) == [0xA1] + (Key(OP_KEY) + [0x20])
  {
    var fs := HeaderFields(OP_ERROR, "");
    assert Writable(fs, HEADER);
    StructOnWire(fs, HEADER);
    FieldOnWire(fs[0], HEADER, OP_KEY);
    HeadOnWire(1, 0);
    hide EncodeField, EncodeStruct, EncodeHead, FieldFits;
    assert WireInt(-1) == [0x20];
    FieldsOnWire(fs, HEADER, [Key(OP_KEY) + [0x20]]);
    TogetherTwo(Key(OP_KEY) + [0x20], []);
  }

  lemma HeaderBytes(e: StreamEvent)
    ensures IsName(TypeOf(e)) && Writable(HeaderFields(OpOf(e), TypeOf(e)), HEADER)
    ensures EncodeStruct(HeaderFields(OpOf(e), TypeOf(e)), HEADER) == HeaderOnWire(e)
  {
    HeaderFits(e);
    hide Writable, EncodeStruct, HeaderFields, MessageOnWire;
    match e
    case ErrorFrame(_, _) => ErrorHeaderBytes();
    case SyncEvent(_, _, _, _, _) => MessageHeaderBytes("#sync", SYNC_TYPE);
    case IdentityEvent(_, _, _, _) => MessageHeaderBytes("#identity", IDENTITY_TYPE);
    case AccountEvent(_, _, _, _, _) => MessageHeaderBytes("#account", ACCOUNT_TYPE);
    case InfoEvent(_, _) => MessageHeaderBytes("#info", INFO_TYPE);
  }

  /**
   Every frame, byte for byte: the header's map, then a map of the body's entries,
   keys and values in the order and under the major types any reader expects.
   */
  lemma FrameOnWire(e: StreamEvent)
    requires WithinLimits(e)
    ensures |BodyOnWire(e)| < 24
    ensures Serialize(e) == Some(HeaderOnWire(e) + ([0xA0 + |BodyOnWire(e)|] + Together(BodyOnWire(e))))
  {
    HeaderBytes(e);
    BodyFits(e);
    BodyEntries(e);
    hide WithinLimits, BodyOnWire, HeaderOnWire, HeaderFields, BodyFields, EncodeField, FieldFits, EncodeStruct,
         SchemaOf;
    var fs, schema := BodyFields(e), SchemaOf(BodyOf(e));
    StructOnWire(fs, schema);
    FieldsOnWire(fs, schema, BodyOnWire(e));
  }

  /** An info frame with a one-letter name. */
  lemma InfoFrameBytes()
    ensures Serialize(InfoEvent([0x78], None)) ==
            Some([0xA2, 0x61, 0x74, 0x65, 0x23, 0x69, 0x6E, 0x66, 0x6F, 0x62, 0x6F, 0x70, 0x01,
                  0xA1, 0x64, 0x6E, 0x61, 0x6D, 0x65, 0x61, 0x78])
  {
    hide Serialize, HeaderOnWire, BodyOnWire, Together;
    FrameOnWire(InfoEvent([0x78], None));
    InfoHeaderBytes();
    InfoBodyBytes();
    var header: Bytes := [0xA2, 0x61, 0x74, 0x65, 0x23, 0x69, 0x6E, 0x66, 0x6F, 0x62, 0x6F, 0x70, 0x01];
    var body: Bytes := [0x64, 0x6E, 0x61, 0x6D, 0x65, 0x61, 0x78];
    assert Serialize(InfoEvent([0x78], None)) == Some(header + ([0xA1] + body));
    assert header + ([0xA1] + body)
        == [0xA2, 0x61, 0x74, 0x65, 0x23, 0x69, 0x6E, 0x66, 0x6F, 0x62, 0x6F, 0x70, 0x01,
            0xA1, 0x64, 0x6E, 0x61, 0x6D, 0x65, 0x61, 0x78];
  }

  lemma InfoHeaderBytes()
    ensures HeaderOnWire(InfoEvent([0x78], None)) ==
            [0xA2, 0x61, 0x74, 0x65, 0x23, 0x69, 0x6E, 0x66, 0x6F, 0x62, 0x6F, 0x70, 0x01]
  {
    InfoKeys();
    hide Key;
    Spelled();
  }

  lemma InfoKeys()
    ensures Key(T_KEY) == [0x61, 0x74] && Key(INFO_TYPE) == [0x65, 0x23, 0x69, 0x6E, 0x66, 0x6F]
    ensures Key(OP_KEY) == [0x62, 0x6F, 0x70]
  {
  }

  lemma Spelled()
    ensures var t: Bytes, kind: Bytes := [0x61, 0x74], [0x65, 0x23, 0x69, 0x6E, 0x66, 0x6F];
            var op: Bytes := [0x62, 0x6F, 0x70];
            [0xA2] + ((t + kind) + (op + [0x01]))
            == [0xA2, 0x61, 0x74, 0x65, 0x23, 0x69, 0x6E, 0x66, 0x6F, 0x62, 0x6F, 0x70, 0x01]
  {
    var t: Bytes, kind: Bytes, op: Bytes := [0x61, 0x74], [0x65, 0x23, 0x69, 0x6E, 0x66, 0x6F], [0x62, 0x6F, 0x70];
    assert t + kind == [0x61, 0x74, 0x65, 0x23, 0x69, 0x6E, 0x66, 0x6F];
    assert op + [0x01] == [0x62, 0x6F, 0x70, 0x01];
  }

  lemma InfoBodyBytes()
    ensures var entries := BodyOnWire(InfoEvent([0x78], None));
            |entries| == 1 && Together(entries) == [0x64, 0x6E, 0x61, 0x6D, 0x65, 0x61, 0x78]
  {
    HeadOnWire(3, 1);
    hide EncodeHead;
    assert EncodeHead(3, 1) == [0x61];
    var entry := Key(NAME_KEY) + WireText([0x78]);
    assert entry == [0x64, 0x6E, 0x61, 0x6D, 0x65, 0x61, 0x78];
    hide Key, WireText, Together;
    TogetherTwo(entry, []);
    assert BodyOnWire(InfoEvent([0x78], None)) == [entry];
  }
}
