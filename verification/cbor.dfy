/**
 The CBOR subset of the event stream frames (section 3 of RFC 8949), and the
 struct codec that cbor-gen generates from it: a map of named fields, written in a
 fixed order and read back in any order, with unknown fields skipped.
 */
module Cbor {
  import opened Common

  type Byte = b: nat | b < 256

  type Bytes = seq<Byte>

  const MAX_TEXT: nat := 1_000_000
  const MAX_BLOB: nat := 2_097_152
  const MAX_FIELDS: nat := 8192

  const MAJ_UNSIGNED: nat := 0
  const MAJ_NEGATIVE: nat := 1
  const MAJ_BLOB: nat := 2
  const MAJ_TEXT: nat := 3
  const MAJ_MAP: nat := 5
  const MAJ_OTHER: nat := 7
  const NULL_BYTE: Byte := 0xF6

  /** A reader's outcome: a value and what is left of the input. */
  datatype Parsed<+T> = Ok(value: T, rest: Bytes) | Bad

  datatype Head = Head(major: nat, arg: nat)

  function Pow256(k: nat): (p: nat)
    ensures p >= 1
  {
    if k == 0 then 1 else 256 * Pow256(k - 1)
  }

  function BigEndian(n: nat, k: nat): (bs: Bytes)
    ensures |bs| == k
  {
    if k == 0 then [] else BigEndian(n / 256, k - 1) + [n % 256]
  }

  function FromBigEndian(bs: Bytes): nat {
    if bs == [] then 0 else 256 * FromBigEndian(bs[..|bs| - 1]) + bs[|bs| - 1]
  }

  lemma {:induction false} BigEndianReads(n: nat, k: nat)
    requires n < Pow256(k)
    ensures FromBigEndian(BigEndian(n, k)) == n
  {
    if k > 0 {
      BigEndianReads(n / 256, k - 1);
      var bs := BigEndian(n, k);
      assert bs[..k - 1] == BigEndian(n / 256, k - 1);
    }
  }

  /** The initial byte and the shortest argument that fits. */
  function EncodeHead(major: nat, n: nat): (bs: Bytes)
    requires major < 8 && n <= MAX_UINT64
    ensures 1 <= |bs| <= 9 && bs[0] / 32 == major
  {
    if n < 24 then [major * 32 + n]
    else if n < 0x100 then [major * 32 + 24] + BigEndian(n, 1)
    else if n < 0x1_0000 then [major * 32 + 25] + BigEndian(n, 2)
    else if n < 0x1_0000_0000 then [major * 32 + 26] + BigEndian(n, 4)
    else [major * 32 + 27] + BigEndian(n, 8)
  }

  function DecodeHead(bs: Bytes): Parsed<Head> {
    if bs == [] then Bad
    else
      var major, low := bs[0] / 32, bs[0] % 32;
      if low < 24 then Ok(Head(major, low), bs[1..])
      else if low > 27 then Bad
      else
        var k := if low == 24 then 1 else if low == 25 then 2 else if low == 26 then 4 else 8;
        if |bs| < 1 + k then Bad
        else
          var n := FromBigEndian(bs[1..1 + k]);
          if n < Shortest(k) then Bad else Ok(Head(major, n), bs[1 + k..])
  }

  /** The smallest argument that needs k bytes; the reader refuses a longer form than needed. */
  function Shortest(k: nat): nat {
    if k == 1 then 24 else if k == 2 then 0x100 else if k == 4 then 0x1_0000 else 0x1_0000_0000
  }

  lemma Widths()
    ensures Pow256(1) == 0x100 && Pow256(2) == 0x1_0000 && Pow256(4) == 0x1_0000_0000 && Pow256(8) == MAX_UINT64 + 1
  {
    assert Pow256(2) == 256 * Pow256(1);
    assert Pow256(3) == 256 * Pow256(2);
    assert Pow256(4) == 256 * Pow256(3);
    assert Pow256(5) == 256 * Pow256(4);
    assert Pow256(6) == 256 * Pow256(5);
    assert Pow256(7) == 256 * Pow256(6);
    assert Pow256(8) == 256 * Pow256(7);
  }

  /** A head is read back with nothing else consumed. */
  lemma HeadRoundTrip(major: nat, n: nat, rest: Bytes)
    requires major < 8 && n <= MAX_UINT64
    ensures DecodeHead(EncodeHead(major, n) + rest) == Ok(Head(major, n), rest)
  {
    Widths();
    hide BigEndian, FromBigEndian, Pow256;
    var bs := EncodeHead(major, n);
    if n < 24 {
      assert (bs + rest)[1..] == rest;
    } else {
      var k := |bs| - 1;
      assert (bs + rest)[1..1 + k] == BigEndian(n, k) && (bs + rest)[1 + k..] == rest;
      BigEndianReads(n, k);
    }
  }

  lemma {:induction false} BigEndianWrites(bs: Bytes)
    ensures BigEndian(FromBigEndian(bs), |bs|) == bs && FromBigEndian(bs) < Pow256(|bs|)
  {
    if bs != [] {
      var init := bs[..|bs| - 1];
      BigEndianWrites(init);
      assert FromBigEndian(bs) / 256 == FromBigEndian(init) && FromBigEndian(bs) % 256 == bs[|bs| - 1];
    }
  }

  /** Nothing but an encoding is accepted: a head that reads is the one that would be written. */
  lemma HeadCanonical(bs: Bytes)
    requires DecodeHead(bs).Ok?
    ensures var (head, rest) := (DecodeHead(bs).value, DecodeHead(bs).rest);
            head.major < 8 && head.arg <= MAX_UINT64 && bs == EncodeHead(head.major, head.arg) + rest
  {
    Widths();
    hide BigEndian, FromBigEndian, Pow256;
    var head, k := DecodeHead(bs).value, |bs| - |DecodeHead(bs).rest| - 1;
    if k == 0 {
      assert bs == [bs[0]] + bs[1..];
    } else {
      BigEndianWrites(bs[1..1 + k]);
      assert bs == [bs[0]] + bs[1..1 + k] + bs[1 + k..];
    }
  }

  /** Field names, byte for byte. */
  function Latin(bs: Bytes): (s: string)
    ensures |s| == |bs|
  {
    seq(|bs|, i requires 0 <= i < |bs| => bs[i] as char)
  }

  predicate IsName(s: string) {
    |s| <= MAX_TEXT && forall i :: 0 <= i < |s| ==> s[i] as int < 256
  }

  function NameBytes(s: string): (bs: Bytes)
    requires IsName(s)
    ensures |bs| == |s| && Latin(bs) == s
  {
    seq(|s|, i requires 0 <= i < |s| => s[i] as int)
  }

  datatype Value = Text(text: Bytes) | Int(num: Int64) | Bool(flag: bool) | Blob(blob: Bytes) | Null

  datatype Kind = TextKind | IntKind | BoolKind | OptTextKind | BlobKind

  /** What a field of this kind can hold and be written as. */
  predicate Fits(v: Value, kind: Kind) {
    match kind
    case TextKind => v.Text? && |v.text| <= MAX_TEXT
    case IntKind => v.Int?
    case BoolKind => v.Bool?
    case OptTextKind => v.Null? || (v.Text? && |v.text| <= MAX_TEXT)
    case BlobKind => v.Blob? && |v.blob| <= MAX_BLOB
  }

  function EncodeText(t: Bytes): Bytes
    requires |t| <= MAX_TEXT
  {
    EncodeHead(MAJ_TEXT, |t|) + t
  }

  /** The argument of a negative integer, computed in 64 bits as the writer does. */
  function NegativeArg(v: Int64): nat
    requires v < 0
  {
    Wrap64(Wrap64(-(v as int)) - 1) % (MAX_UINT64 + 1)
  }

  /** The wrap-around at the smallest integer cancels out. */
  lemma NegativeArgExact(v: Int64)
    requires v < 0
    ensures NegativeArg(v) == -(v as int) - 1 <= MAX_INT64
  {
    var x: int := v;
    if x == -0x8000_0000_0000_0000 {
      assert (-x) % (MAX_UINT64 + 1) == -x;
      assert Wrap64(-x) == x;
      assert (x - 1) % (MAX_UINT64 + 1) == MAX_INT64;
      assert Wrap64(x - 1) == MAX_INT64;
    } else {
      assert Wrap64(-x) == -x && Wrap64(-x - 1) == -x - 1;
    }
  }

  function EncodeInt(v: Int64): Bytes {
    if v >= 0 then EncodeHead(MAJ_UNSIGNED, v)
    else
      NegativeArgExact(v);
      EncodeHead(MAJ_NEGATIVE, NegativeArg(v))
  }

  function EncodeValue(v: Value): Bytes
    requires exists kind :: Fits(v, kind)
  {
    match v
    case Text(t) => EncodeText(t)
    case Int(n) => EncodeInt(n)
    case Bool(b) => if b then [0xF5] else [0xF4]
    case Blob(b) => EncodeHead(MAJ_BLOB, |b|) + b
    case Null => [NULL_BYTE]
  }

  /** A length-prefixed string of the given major type. */
  function ReadString(bs: Bytes, major: nat, max: nat): Parsed<Bytes> {
    match DecodeHead(bs)
    case Bad => Bad
    case Ok(head, rest) =>
      if head.major != major || head.arg > max || head.arg > |rest| then Bad
      else Ok(rest[..head.arg], rest[head.arg..])
  }

  function ReadInt(bs: Bytes): Parsed<Int64> {
    match DecodeHead(bs)
    case Bad => Bad
    case Ok(head, rest) =>
      if head.arg > MAX_INT64 then Bad
      else if head.major == MAJ_UNSIGNED then Ok(head.arg, rest)
      else if head.major == MAJ_NEGATIVE then Ok(-1 - head.arg, rest)
      else Bad
  }

  function ReadValue(bs: Bytes, kind: Kind): Parsed<Value> {
    match kind
    case TextKind => MapText(ReadString(bs, MAJ_TEXT, MAX_TEXT))
    case IntKind => (match ReadInt(bs) case Bad => Bad case Ok(n, rest) => Ok(Int(n), rest))
    case BoolKind =>
      (match DecodeHead(bs)
       case Bad => Bad
       case Ok(head, rest) =>
         if head.major == MAJ_OTHER && head.arg == 20 then Ok(Bool(false), rest)
         else if head.major == MAJ_OTHER && head.arg == 21 then Ok(Bool(true), rest)
         else Bad)
    case OptTextKind =>
      if bs == [] then Bad
      else if bs[0] == NULL_BYTE then Ok(Null, bs[1..])
      else MapText(ReadString(bs, MAJ_TEXT, MAX_TEXT))
    case BlobKind =>
      (match ReadString(bs, MAJ_BLOB, MAX_BLOB) case Bad => Bad case Ok(b, rest) => Ok(Blob(b), rest))
  }

  function MapText(p: Parsed<Bytes>): Parsed<Value> {
    match p case Bad => Bad case Ok(t, rest) => Ok(Text(t), rest)
  }

  lemma StringRoundTrip(major: nat, t: Bytes, max: nat, rest: Bytes)
    requires major < 8 && |t| <= max <= MAX_UINT64
    ensures ReadString(EncodeHead(major, |t|) + t + rest, major, max) == Ok(t, rest)
  {
    HeadRoundTrip(major, |t|, t + rest);
    Assoc(EncodeHead(major, |t|), t, rest);
    assert (t + rest)[..|t|] == t && (t + rest)[|t|..] == rest;
  }

  lemma IntRoundTrip(v: Int64, rest: Bytes)
    ensures ReadInt(EncodeInt(v) + rest) == Ok(v, rest)
  {
    if v >= 0 {
      HeadRoundTrip(MAJ_UNSIGNED, v, rest);
    } else {
      NegativeArgExact(v);
      HeadRoundTrip(MAJ_NEGATIVE, NegativeArg(v), rest);
    }
  }

  /** Every value is read back as written, whatever follows it. */
  lemma ValueRoundTrip(v: Value, kind: Kind, rest: Bytes)
    requires Fits(v, kind)
    ensures ReadValue(EncodeValue(v) + rest, kind) == Ok(v, rest)
  {
    match v {
      case Text(t) =>
        StringRoundTrip(MAJ_TEXT, t, MAX_TEXT, rest);
        assert (EncodeValue(v) + rest)[0] == EncodeHead(MAJ_TEXT, |t|)[0];
      case Int(n) => IntRoundTrip(n, rest);
      case Bool(b) => assert (EncodeValue(v) + rest)[1..] == rest;
      case Blob(b) => StringRoundTrip(MAJ_BLOB, b, MAX_BLOB, rest);
      case Null => assert (EncodeValue(v) + rest)[1..] == rest;
    }
  }

  // ---- the bytes themselves, as section 3 of RFC 8949 has them ----

  /** Most significant byte first, at every width. */
  lemma {:induction false} BigEndianAt(n: nat, k: nat, i: nat)
    requires i < k
    ensures BigEndian(n, k)[i] == n / Pow256(k - 1 - i) % 256
  {
    if i < k - 1 {
      BigEndianAt(n / 256, k - 1, i);
      DivDiv(n, Pow256(k - 2 - i));
    }
  }

  lemma DivDiv(n: nat, p: nat)
    requires 1 <= p
    ensures n / 256 / p == n / (256 * p)
  {
    var q, r := n / 256 / p, n / 256 % p;
    assert n == 256 * (q * p + r) + n % 256;
    assert 256 * (q * p) == q * (256 * p);
    QuotientIs(n, 256 * p, q, 256 * r + n % 256);
  }

  lemma QuotientIs(n: nat, d: nat, q: nat, r: nat)
    requires n == q * d + r && r < d
    ensures n / d == q
  {
    assert n == n / d * d + n % d;
    if n / d < q {
      MulMono(n / d + 1, q, d);
    } else if q < n / d {
      MulMono(q + 1, n / d, d);
    }
  }

  /** How many bytes the argument takes after the initial byte. */
  function ArgWidth(n: nat): nat {
    if n < 24 then 0 else if n <= 0xFF then 1 else if n <= 0xFFFF then 2 else if n <= 0xFFFF_FFFF then 4 else 8
  }

  /**
   The initial byte has the major type in its upper three bits and, in its lower five,
   the argument if it is below 24, else 24 to 27 for the width of what follows.
   */
  lemma HeadOnWire(major: nat, n: nat)
    requires major < 8 && n <= MAX_UINT64
    ensures var bs, k := EncodeHead(major, n), ArgWidth(n);
            && |bs| == 1 + k
            && bs[0] == 32 * major + (if k == 0 then n else if k == 1 then 24 else if k == 2 then 25
                                      else if k == 4 then 26 else 27)
            && forall j :: 1 <= j <= k ==> bs[j] == n / Pow256(k - j) % 256
  {
    var k := ArgWidth(n);
    forall i | 0 <= i < k ensures BigEndian(n, k)[i] == n / Pow256(k - 1 - i) % 256 {
      BigEndianAt(n, k, i);
    }
    hide BigEndian, Pow256;
  }

  /** Text is major type 3, byte strings 2, integers 0 and 1, and the simple values are single bytes. */
  lemma ValueOnWire(v: Value)
    requires exists kind :: Fits(v, kind)
    ensures match v
            case Text(t) => EncodeValue(v) == EncodeHead(3, |t|) + t && EncodeText(t) == EncodeHead(3, |t|) + t
            case Blob(b) => EncodeValue(v) == EncodeHead(2, |b|) + b
            case Int(n) => EncodeValue(v) == if n >= 0 then EncodeHead(0, n) else EncodeHead(1, -1 - n)
            case Bool(b) => EncodeValue(v) == [if b then 0xF5 else 0xF4]
            case Null => EncodeValue(v) == [0xF6]
  {
    if v.Int? && v.num < 0 { NegativeArgExact(v.num); }
  }

  /** A short name: 0x60 plus its length, then its characters. */
  lemma NameOnWire(name: string, bs: Bytes)
    requires |name| == |bs| < 24 && forall i :: 0 <= i < |bs| ==> name[i] as int == bs[i]
    ensures IsName(name) && EncodeText(NameBytes(name)) == [0x60 + |bs|] + bs
  {
    HeadOnWire(MAJ_TEXT, |bs|);
    hide EncodeHead;
    assert NameBytes(name) == bs && EncodeHead(MAJ_TEXT, |bs|) == [0x60 + |bs|];
  }

  datatype Field = Field(name: string, value: Value)

  /** The generated reader of one struct: its fields and the size of its name buffer. */
  datatype Schema = Schema(kinds: map<string, Kind>, nameCap: nat)

  predicate FieldFits(f: Field, schema: Schema) {
    && IsName(f.name) && |f.name| <= schema.nameCap
    && f.name in schema.kinds && Fits(f.value, schema.kinds[f.name])
  }

  predicate Writable(fs: seq<Field>, schema: Schema) {
    |fs| <= MAX_FIELDS && forall i :: 0 <= i < |fs| ==> FieldFits(fs[i], schema)
  }

  function EncodeFields(fs: seq<Field>, schema: Schema): Bytes
    requires forall i :: 0 <= i < |fs| ==> FieldFits(fs[i], schema)
  {
    if fs == [] then [] else EncodeField(fs[0], schema) + EncodeFields(fs[1..], schema)
  }

  function EncodeField(f: Field, schema: Schema): Bytes
    requires FieldFits(f, schema)
  {
    EncodeText(NameBytes(f.name)) + EncodeValue(f.value)
  }

  /** The struct on the wire: a map head with the field count, then the fields. */
  function EncodeStruct(fs: seq<Field>, schema: Schema): Bytes
    requires Writable(fs, schema)
  {
    EncodeHead(MAJ_MAP, |fs|) + EncodeFields(fs, schema)
  }

  /** A struct of fewer than 24 fields: 0xA0 plus their number, then each name and value in turn. */
  lemma StructOnWire(fs: seq<Field>, schema: Schema)
    requires Writable(fs, schema) && |fs| < 24
    ensures EncodeStruct(fs, schema) == [0xA0 + |fs|] + EncodeFields(fs, schema)
  {
    HeadOnWire(MAJ_MAP, |fs|);
    hide EncodeHead, EncodeFields;
    assert EncodeHead(MAJ_MAP, |fs|) == [0xA0 + |fs|];
  }

  /** How the library steps over the value of a field this struct does not have. */
  type Skipper = Bytes -> Option<Bytes>

  /** Reads `n` entries into the struct's fields; a repeated field keeps its last value. */
  function DecodeFields(bs: Bytes, n: nat, schema: Schema, skip: Skipper, got: map<string, Value>)
    : Parsed<map<string, Value>>
    decreases n
  {
    if n == 0 then Ok(got, bs)
    else
      match ReadString(bs, MAJ_TEXT, MAX_TEXT)
      case Bad => Bad
      case Ok(nameBytes, rest) =>
        var name := Latin(nameBytes);
        if |name| > schema.nameCap || name !in schema.kinds then
          match skip(rest)
          case None => Bad
          case Some(after) => DecodeFields(after, n - 1, schema, skip, got)
        else
          match ReadValue(rest, schema.kinds[name])
          case Bad => Bad
          case Ok(v, after) => DecodeFields(after, n - 1, schema, skip, got[name := v])
  }

  function DecodeStruct(bs: Bytes, schema: Schema, skip: Skipper): Parsed<map<string, Value>> {
    match DecodeHead(bs)
    case Bad => Bad
    case Ok(head, rest) =>
      if head.major != MAJ_MAP || head.arg > MAX_FIELDS then Bad
      else DecodeFields(rest, head.arg, schema, skip, map[])
  }

  function Assigned(fs: seq<Field>, got: map<string, Value>): map<string, Value> {
    if fs == [] then got else Assigned(fs[1..], got[fs[0].name := fs[0].value])
  }

  lemma {:induction false} FieldsRoundTrip(fs: seq<Field>, schema: Schema, skip: Skipper, got: map<string, Value>,
                                           rest: Bytes)
    requires forall i :: 0 <= i < |fs| ==> FieldFits(fs[i], schema)
    ensures DecodeFields(EncodeFields(fs, schema) + rest, |fs|, schema, skip, got) == Ok(Assigned(fs, got), rest)
    decreases |fs|
  {
    if fs == [] {
      assert EncodeFields(fs, schema) + rest == rest;
    } else {
      hide ReadString, ReadValue, EncodeField, EncodeValue, FieldFits, Latin, NameBytes;
      var f, tail := fs[0], fs[1..];
      FieldRoundTrip(f, schema, EncodeFields(tail, schema) + rest);
      Assoc(EncodeField(f, schema), EncodeFields(tail, schema), rest);
      FieldsRoundTrip(tail, schema, skip, got[f.name := f.value], rest);
    }
  }

  /** One field: its name, then its value, whatever follows. */
  lemma FieldRoundTrip(f: Field, schema: Schema, rest: Bytes)
    requires FieldFits(f, schema)
    ensures f.name in schema.kinds && |f.name| <= schema.nameCap && IsName(f.name)
    ensures exists nameBytes, after ::
              && ReadString(EncodeField(f, schema) + rest, MAJ_TEXT, MAX_TEXT) == Ok(nameBytes, after)
              && Latin(nameBytes) == f.name
              && ReadValue(after, schema.kinds[f.name]) == Ok(f.value, rest)
  {
    var name, value := NameBytes(f.name), EncodeValue(f.value);
    StringRoundTrip(MAJ_TEXT, name, MAX_TEXT, value + rest);
    Assoc(EncodeText(name), value, rest);
    ValueRoundTrip(f.value, schema.kinds[f.name], rest);
    assert ReadString(EncodeField(f, schema) + rest, MAJ_TEXT, MAX_TEXT) == Ok(name, value + rest);
  }

  /** A written struct is read back field by field, and exactly its bytes are consumed. */
  lemma StructRoundTrip(fs: seq<Field>, schema: Schema, skip: Skipper, rest: Bytes)
    requires Writable(fs, schema)
    ensures DecodeStruct(EncodeStruct(fs, schema) + rest, schema, skip) == Ok(Assigned(fs, map[]), rest)
  {
    var head, body := EncodeHead(MAJ_MAP, |fs|), EncodeFields(fs, schema);
    Assoc(head, body, rest);
    HeadRoundTrip(MAJ_MAP, |fs|, body + rest);
    FieldsRoundTrip(fs, schema, skip, map[], rest);
  }

  // ---- fields of a newer writer ----

  /** A field of this struct, or one it does not have, with its value as it stands on the wire. */
  datatype Entry = Mine(f: Field) | Foreign(name: Bytes, raw: Bytes)

  ghost predicate EntryFits(e: Entry, schema: Schema, skip: Skipper) {
    match e
    case Mine(f) => FieldFits(f, schema)
    case Foreign(name, raw) =>
      && |name| <= MAX_TEXT && (|name| > schema.nameCap || Latin(name) !in schema.kinds)
      && forall rest :: skip(raw + rest) == Some(rest)
  }

  ghost function EncodeEntry(e: Entry, schema: Schema, skip: Skipper): Bytes
    requires EntryFits(e, schema, skip)
  {
    match e
    case Mine(f) => EncodeField(f, schema)
    case Foreign(name, raw) => EncodeText(name) + raw
  }

  ghost function EncodeEntries(es: seq<Entry>, schema: Schema, skip: Skipper): Bytes
    requires forall i :: 0 <= i < |es| ==> EntryFits(es[i], schema, skip)
  {
    if es == [] then [] else EncodeEntry(es[0], schema, skip) + EncodeEntries(es[1..], schema, skip)
  }

  /** The fields among them that this struct has. */
  function Own(es: seq<Entry>): seq<Field> {
    if es == [] then []
    else if es[0].Mine? then [es[0].f] + Own(es[1..])
    else Own(es[1..])
  }

  lemma ForeignSkipped(e: Entry, schema: Schema, skip: Skipper, rest: Bytes)
    requires EntryFits(e, schema, skip) && e.Foreign?
    ensures ReadString(EncodeEntry(e, schema, skip) + rest, MAJ_TEXT, MAX_TEXT) == Ok(e.name, e.raw + rest)
    ensures |Latin(e.name)| > schema.nameCap || Latin(e.name) !in schema.kinds
    ensures skip(e.raw + rest) == Some(rest)
  {
    StringRoundTrip(MAJ_TEXT, e.name, MAX_TEXT, e.raw + rest);
    Assoc(EncodeText(e.name), e.raw, rest);
  }

  lemma {:induction false} EntriesRead(es: seq<Entry>, schema: Schema, skip: Skipper, got: map<string, Value>,
                                       rest: Bytes)
    requires forall i :: 0 <= i < |es| ==> EntryFits(es[i], schema, skip)
    ensures DecodeFields(EncodeEntries(es, schema, skip) + rest, |es|, schema, skip, got)
         == Ok(Assigned(Own(es), got), rest)
    decreases |es|
  {
    if es == [] {
      assert EncodeEntries(es, schema, skip) + rest == rest;
    } else {
      hide ReadString, ReadValue, EncodeField, EncodeEntry, EntryFits, EncodeValue, FieldFits, Latin, NameBytes;
      var e, tail := es[0], es[1..];
      var after := EncodeEntries(tail, schema, skip) + rest;
      Assoc(EncodeEntry(e, schema, skip), EncodeEntries(tail, schema, skip), rest);
      match e {
        case Mine(f) =>
          MineRead(f, schema, skip, after);
          EntriesRead(tail, schema, skip, got[f.name := f.value], rest);
          assert Own(es)[0] == f && Own(es)[1..] == Own(tail);
        case Foreign(_, _) =>
          ForeignSkipped(e, schema, skip, after);
          EntriesRead(tail, schema, skip, got, rest);
      }
    }
  }

  lemma MineRead(f: Field, schema: Schema, skip: Skipper, rest: Bytes)
    requires EntryFits(Mine(f), schema, skip)
    ensures f.name in schema.kinds && |f.name| <= schema.nameCap
    ensures exists nameBytes, after ::
              && ReadString(EncodeEntry(Mine(f), schema, skip) + rest, MAJ_TEXT, MAX_TEXT) == Ok(nameBytes, after)
              && Latin(nameBytes) == f.name
              && ReadValue(after, schema.kinds[f.name]) == Ok(f.value, rest)
  {
    hide ReadString, ReadValue, EncodeField, EncodeValue, Latin;
    FieldRoundTrip(f, schema, rest);
  }

  /** Fields the struct does not have change nothing: wherever they stand, the others are read as written. */
  lemma ForwardCompatible(es: seq<Entry>, schema: Schema, skip: Skipper, rest: Bytes)
    requires |es| <= MAX_FIELDS && forall i :: 0 <= i < |es| ==> EntryFits(es[i], schema, skip)
    ensures DecodeStruct(EncodeHead(MAJ_MAP, |es|) + EncodeEntries(es, schema, skip) + rest, schema, skip)
         == Ok(Assigned(Own(es), map[]), rest)
  {
    hide EncodeEntries, EntryFits, Own, Assigned, DecodeFields;
    var head, body := EncodeHead(MAJ_MAP, |es|), EncodeEntries(es, schema, skip);
    Assoc(head, body, rest);
    HeadRoundTrip(MAJ_MAP, |es|, body + rest);
    EntriesRead(es, schema, skip, map[], rest);
  }

  // ---- truncated input ----

  lemma HeadExtends(bs: Bytes, more: Bytes)
    ensures DecodeHead(bs).Ok? ==> DecodeHead(bs + more) == Ok(DecodeHead(bs).value, DecodeHead(bs).rest + more)
  {
    hide DecodeHead, EncodeHead;
    if DecodeHead(bs).Ok? {
      HeadCanonical(bs);
      var head, rest := DecodeHead(bs).value, DecodeHead(bs).rest;
      Assoc(EncodeHead(head.major, head.arg), rest, more);
      HeadRoundTrip(head.major, head.arg, rest + more);
    }
  }

  lemma StringExtends(bs: Bytes, major: nat, max: nat, more: Bytes)
    ensures var p := ReadString(bs, major, max);
            p.Ok? ==> ReadString(bs + more, major, max) == Ok(p.value, p.rest + more)
  {
    hide DecodeHead;
    HeadExtends(bs, more);
    if ReadString(bs, major, max).Ok? {
      var rest, n := DecodeHead(bs).rest, DecodeHead(bs).value.arg;
      assert (rest + more)[..n] == rest[..n] && (rest + more)[n..] == rest[n..] + more;
    }
  }

  lemma ValueExtends(bs: Bytes, kind: Kind, more: Bytes)
    ensures var p := ReadValue(bs, kind);
            p.Ok? ==> ReadValue(bs + more, kind) == Ok(p.value, p.rest + more)
  {
    hide DecodeHead, ReadString;
    HeadExtends(bs, more);
    StringExtends(bs, MAJ_TEXT, MAX_TEXT, more);
    StringExtends(bs, MAJ_BLOB, MAX_BLOB, more);
    assert bs != [] ==> (bs + more)[0] == bs[0] && (bs + more)[1..] == bs[1..] + more;
  }

  /** Skipping a value does not depend on what follows it. */
  ghost predicate Streams(skip: Skipper) {
    forall bs: Bytes, more: Bytes :: skip(bs).Some? ==> skip(bs + more) == Some(skip(bs).value + more)
  }

  lemma {:induction false} FieldsExtend(bs: Bytes, n: nat, schema: Schema, skip: Skipper, got: map<string, Value>,
                                        more: Bytes)
    requires Streams(skip)
    ensures var p := DecodeFields(bs, n, schema, skip, got);
            p.Ok? ==> DecodeFields(bs + more, n, schema, skip, got) == Ok(p.value, p.rest + more)
    decreases n
  {
    hide ReadString, ReadValue, Latin;
    if n > 0 && DecodeFields(bs, n, schema, skip, got).Ok? {
      StringExtends(bs, MAJ_TEXT, MAX_TEXT, more);
      var key := ReadString(bs, MAJ_TEXT, MAX_TEXT);
      var name := Latin(key.value);
      if |name| > schema.nameCap || name !in schema.kinds {
        assert skip(key.rest + more) == Some(skip(key.rest).value + more);
        FieldsExtend(skip(key.rest).value, n - 1, schema, skip, got, more);
      } else {
        ValueExtends(key.rest, schema.kinds[name], more);
        var v := ReadValue(key.rest, schema.kinds[name]);
        FieldsExtend(v.rest, n - 1, schema, skip, got[name := v.value], more);
      }
    }
  }

  /** What a struct is read as does not depend on what follows it. */
  lemma StructExtends(bs: Bytes, schema: Schema, skip: Skipper, more: Bytes)
    requires Streams(skip)
    ensures var p := DecodeStruct(bs, schema, skip);
            p.Ok? ==> DecodeStruct(bs + more, schema, skip) == Ok(p.value, p.rest + more)
  {
    hide DecodeHead, DecodeFields, Streams;
    HeadExtends(bs, more);
    if DecodeHead(bs).Ok? {
      FieldsExtend(DecodeHead(bs).rest, DecodeHead(bs).value.arg, schema, skip, map[], more);
    }
  }

  /** No part of a written struct reads as a struct: whatever is cut off, it is refused. */
  lemma TruncatedRefused(fs: seq<Field>, schema: Schema, skip: Skipper, bs: Bytes)
    requires Writable(fs, schema) && Streams(skip) && bs < EncodeStruct(fs, schema)
    ensures DecodeStruct(bs, schema, skip).Bad?
  {
    hide EncodeStruct, DecodeStruct, Writable, Assigned, Streams;
    var whole := EncodeStruct(fs, schema);
    var more := whole[|bs|..];
    assert whole == bs + more && whole + [] == whole;
    StructExtends(bs, schema, skip, more);
    StructRoundTrip(fs, schema, skip, []);
  }

  /** The generated reader: a loop over the map's entries that assigns fields as it goes. */
  method UnmarshalStruct(bs: Bytes, schema: Schema, skip: Skipper) returns (r: Parsed<map<string, Value>>)
    ensures r == DecodeStruct(bs, schema, skip)
  {
    var head := DecodeHead(bs);
    if head.Bad? { return Bad; }
    if head.value.major != MAJ_MAP { return Bad; }
    if head.value.arg > MAX_FIELDS { return Bad; }
    var n, i := head.value.arg, 0;
    var got: map<string, Value>, rest := map[], head.rest;
    while i < n
      invariant i <= n
      invariant DecodeFields(rest, n - i, schema, skip, got) == DecodeStruct(bs, schema, skip)
    {
      var key := ReadString(rest, MAJ_TEXT, MAX_TEXT);
      if key.Bad? { return Bad; }
      var name := Latin(key.value);
      if |name| > schema.nameCap || name !in schema.kinds {
        var after := skip(key.rest);
        if after.None? { return Bad; }
        rest := after.value;
      } else {
        var v := ReadValue(key.rest, schema.kinds[name]);
        if v.Bad? { return Bad; }
        got, rest := got[name := v.value], v.rest;
      }
      i := i + 1;
    }
    return Ok(got, rest);
  }

  /** The generated writer: the map head, then name and value of each field, refusing what is too long. */
  method MarshalStruct(fs: seq<Field>, schema: Schema) returns (w: Option<Bytes>)
    requires |fs| <= MAX_FIELDS
    requires forall i :: 0 <= i < |fs| ==>
               IsName(fs[i].name) && |fs[i].name| <= schema.nameCap && fs[i].name in schema.kinds
    ensures w.Some? <==> Writable(fs, schema)
    ensures w.Some? ==> w.value == EncodeStruct(fs, schema)
  {
    hide EncodeFields, EncodeValue, EncodeText, EncodeHead, NameBytes;
    var out := EncodeHead(MAJ_MAP, |fs|);
    NoFields(fs, schema);
    for i := 0 to |fs|
      invariant forall j :: 0 <= j < i ==> FieldFits(fs[j], schema)
      invariant out == EncodeHead(MAJ_MAP, |fs|) + EncodeFields(fs[..i], schema)
    {
      var f := fs[i];
      if !Fits(f.value, schema.kinds[f.name]) { return None; }
      EncodeFieldsSnoc(fs, i, schema);
      Regroup(EncodeHead(MAJ_MAP, |fs|), EncodeFields(fs[..i], schema), EncodeText(NameBytes(f.name)),
              EncodeValue(f.value));
      out := out + EncodeText(NameBytes(f.name));
      out := out + EncodeValue(f.value);
    }
    assert fs[..|fs|] == fs;
    w := Some(out);
  }

  lemma NoFields(fs: seq<Field>, schema: Schema)
    ensures EncodeFields(fs[..0], schema) == []
    ensures |fs| <= MAX_FIELDS ==> EncodeHead(MAJ_MAP, |fs|) + [] == EncodeHead(MAJ_MAP, |fs|)
  {
  }

  lemma Regroup(a: Bytes, b: Bytes, c: Bytes, d: Bytes)
    ensures a + b + c + d == a + (b + (c + d))
  {
  }

  lemma {:induction false} EncodeFieldsConcat(a: seq<Field>, b: seq<Field>, schema: Schema)
    requires forall i :: 0 <= i < |a| ==> FieldFits(a[i], schema)
    requires forall i :: 0 <= i < |b| ==> FieldFits(b[i], schema)
    ensures forall i :: 0 <= i < |a + b| ==> FieldFits((a + b)[i], schema)
    ensures EncodeFields(a + b, schema) == EncodeFields(a, schema) + EncodeFields(b, schema)
  {
    hide EncodeField, FieldFits;
    if a == [] {
      assert a + b == b;
    } else {
      assert (a + b)[1..] == a[1..] + b;
      EncodeFieldsConcat(a[1..], b, schema);
      Assoc(EncodeField(a[0], schema), EncodeFields(a[1..], schema), EncodeFields(b, schema));
    }
  }

  lemma EncodeFieldsSnoc(fs: seq<Field>, i: nat, schema: Schema)
    requires i < |fs| && forall j :: 0 <= j <= i ==> FieldFits(fs[j], schema)
    ensures EncodeFields(fs[..i + 1], schema)
         == EncodeFields(fs[..i], schema) + (EncodeText(NameBytes(fs[i].name)) + EncodeValue(fs[i].value))
  {
    assert fs[..i + 1] == fs[..i] + [fs[i]];
    EncodeFieldsConcat(fs[..i], [fs[i]], schema);
    assert EncodeFields([fs[i]], schema) == EncodeField(fs[i], schema);
  }
}
