/** The Protocol Buffers wire format as protowire reads and writes it: varints, tags, length-delimited records,
    groups. */
module ProtoWire {
  import opened Common
  import opened LittleEndian

  const MAX_FIELD := 0x7fff_ffff
  const RECURSION_LIMIT := 10000

  const VARINT := 0
  const FIXED64 := 1
  const BYTES := 2
  const START_GROUP := 3
  const END_GROUP := 4
  const FIXED32 := 5

  /** A value with the number of bytes it took, or a parse error. */
  datatype Parsed<+T> = Parsed(value: T, n: nat) | Bad

  // ---------------------------------------------------------------- base-128 varints

  function AppendVarint(v: nat): (bs: seq<byte>)
    ensures |bs| >= 1
  {
    if v < 128 then [v] else [v % 128 + 128] + AppendVarint(v / 128)
  }

  /** Reads from byte `i` of a varint on: ten bytes at most, and the tenth carries a single bit. */
  function VarintFrom(b: seq<byte>, i: nat): (r: Parsed<nat>)
    requires i < 10
    ensures r.Parsed? ==> 1 <= r.n <= |b|
    decreases 10 - i
  {
    if b == [] then Bad
    else if i == 9 then (if b[0] < 2 then Parsed(b[0], 1) else Bad)
    else if b[0] < 128 then Parsed(b[0], 1)
    else
      var r := VarintFrom(b[1..], i + 1);
      if r.Bad? then Bad else Parsed(b[0] - 128 + 128 * r.value, r.n + 1)
  }

  function ConsumeVarint(b: seq<byte>): (r: Parsed<nat>)
    ensures r.Parsed? ==> 1 <= r.n <= |b|
  {
    VarintFrom(b, 0)
  }

  /** What is left for the bytes from `i` on: 2^(64 - 7i). */
  function Room(i: nat): nat
    requires i < 10
    decreases 10 - i
  {
    if i == 9 then 2 else 128 * Room(i + 1)
  }

  lemma RoomOf0()
    ensures Room(0) == TWO64
  {
    assert Room(5) == 128 * 128 * 128 * 128 * 2;
    assert Room(0) == 128 * 128 * 128 * 128 * 128 * Room(5);
  }

  lemma {:induction false} VarintFromRoundTrip(v: nat, rest: seq<byte>, i: nat)
    requires i < 10 && v < Room(i)
    ensures VarintFrom(AppendVarint(v) + rest, i) == Parsed(v, |AppendVarint(v)|)
    decreases 10 - i
  {
    if v >= 128 {
      var tail := AppendVarint(v / 128);
      VarintFromRoundTrip(v / 128, rest, i + 1);
      assert (AppendVarint(v) + rest)[1..] == tail + rest;
    }
  }

  lemma {:induction false} VarintRoundTrip(v: uint64, rest: seq<byte>)
    ensures ConsumeVarint(AppendVarint(v) + rest) == Parsed(v, |AppendVarint(v)|)
  {
    RoomOf0();
    VarintFromRoundTrip(v, rest, 0);
  }

  // ---------------------------------------------------------------- tags and lengths

  datatype Tag = Tag(num: nat, typ: nat)

  function AppendTag(num: nat, typ: nat): (bs: seq<byte>)
    ensures |bs| >= 1
  {
    AppendVarint(num * 8 + typ)
  }

  function ConsumeTag(b: seq<byte>): (r: Parsed<Tag>)
    ensures r.Parsed? ==> 1 <= r.n <= |b|
  {
    var r := ConsumeVarint(b);
    if r.Bad? || r.value / 8 > MAX_FIELD || r.value / 8 < 1 then Bad
    else Parsed(Tag(r.value / 8, r.value % 8), r.n)
  }

  /** The bytes themselves: low seven bits first, the eighth bit set while more follow, and the field number above three
      bits of wire type. */
  lemma {:induction false} WireBytes(v: nat, num: nat, typ: nat)
    requires num < 16 && typ < 8
    ensures v < 128 ==> AppendVarint(v) == [v]
    ensures 128 <= v < 16384 ==> AppendVarint(v) == [v % 128 + 128, v / 128]
    ensures AppendTag(num, typ) == [8 * num + typ]
  {
  }

  lemma {:induction false} TagRoundTrip(num: nat, typ: nat, rest: seq<byte>)
    requires 1 <= num <= MAX_FIELD && typ < 8
    ensures ConsumeTag(AppendTag(num, typ) + rest) == Parsed(Tag(num, typ), |AppendTag(num, typ)|)
  {
    VarintRoundTrip(num * 8 + typ, rest);
  }

  function ConsumeBytes(b: seq<byte>): (r: Parsed<seq<byte>>)
    ensures r.Parsed? ==> 1 <= r.n <= |b|
  {
    var r := ConsumeVarint(b);
    if r.Bad? || r.value > |b| - r.n then Bad
    else Parsed(b[r.n..r.n + r.value], r.n + r.value)
  }

  function AppendBytes(bs: seq<byte>): seq<byte> {
    AppendVarint(|bs|) + bs
  }

  lemma {:induction false} BytesRoundTrip(bs: seq<byte>, rest: seq<byte>)
    requires |bs| < TWO64
    ensures ConsumeBytes(AppendBytes(bs) + rest) == Parsed(bs, |AppendBytes(bs)|)
  {
    VarintRoundTrip(|bs|, bs + rest);
    assert AppendBytes(bs) + rest == AppendVarint(|bs|) + (bs + rest);
  }

  // ---------------------------------------------------------------- skipping a field value

  function Fixed(b: seq<byte>, n: nat): (r: Parsed<()>)
    ensures r.Parsed? ==> r.n <= |b|
  {
    if |b| < n then Bad else Parsed((), n)
  }

  /** The size of a field value of wire type `typ`; groups nest at most `depth` deep. */
  function ConsumeFieldValue(num: nat, typ: nat, b: seq<byte>, depth: int): (r: Parsed<()>)
    ensures r.Parsed? ==> r.n <= |b|
    decreases |b|, 1
  {
    if typ == VARINT then
      var r := ConsumeVarint(b);
      if r.Bad? then Bad else Parsed((), r.n)
    else if typ == FIXED32 then Fixed(b, 4)
    else if typ == FIXED64 then Fixed(b, 8)
    else if typ == BYTES then
      var r := ConsumeBytes(b);
      if r.Bad? then Bad else Parsed((), r.n)
    else if typ == START_GROUP then (if depth < 0 then Bad else ConsumeGroup(num, b, depth))
    else Bad
  }

  /** Field values up to the end tag of group `num`. */
  function ConsumeGroup(num: nat, b: seq<byte>, depth: int): (r: Parsed<()>)
    ensures r.Parsed? ==> r.n <= |b|
    decreases |b|, 0
  {
    var tag := ConsumeTag(b);
    if tag.Bad? then Bad
    else if tag.value.typ == END_GROUP then (if tag.value.num == num then Parsed((), tag.n) else Bad)
    else
      var b1 := b[tag.n..];
      var v := ConsumeFieldValue(tag.value.num, tag.value.typ, b1, depth - 1);
      if v.Bad? then Bad
      else
        var rest := ConsumeGroup(num, b1[v.n..], depth);
        if rest.Bad? then Bad else Parsed((), tag.n + v.n + rest.n)
  }

  // ---------------------------------------------------------------- records

  datatype Record = Record(num: nat, payload: Payload)

  datatype Payload =
    | PVarint(v: uint64)
    | PFixed64(bs: seq<byte>)
    | PBytes(bs: seq<byte>)
    | PGroup(records: seq<Record>)
    | PFixed32(bs: seq<byte>)

  function WireType(p: Payload): nat {
    match p
    case PVarint(_) => VARINT
    case PFixed64(_) => FIXED64
    case PBytes(_) => BYTES
    case PGroup(_) => START_GROUP
    case PFixed32(_) => FIXED32
  }

  /** Field numbers and lengths that can be written, groups nested at most `depth` deep. */
  predicate WellFormed(r: Record, depth: int)
    decreases r, 1
  {
    && 1 <= r.num <= MAX_FIELD
    && match r.payload
       case PVarint(_) => true
       case PFixed64(bs) => |bs| == 8
       case PBytes(bs) => |bs| < TWO64
       case PGroup(rs) => depth >= 0 && AllWellFormed(rs, depth - 1)
       case PFixed32(bs) => |bs| == 4
  }

  predicate AllWellFormed(rs: seq<Record>, depth: int)
    decreases rs, 0
  {
    rs == [] || (WellFormed(rs[0], depth) && AllWellFormed(rs[1..], depth))
  }

  function PutRecord(r: Record): seq<byte>
    decreases r, 1
  {
    AppendTag(r.num, WireType(r.payload)) + PutPayload(r)
  }

  function PutPayload(r: Record): seq<byte>
    decreases r, 0
  {
    match r.payload
    case PVarint(v) => AppendVarint(v)
    case PFixed64(bs) => bs
    case PBytes(bs) => AppendBytes(bs)
    case PGroup(rs) => PutRecords(rs) + AppendTag(r.num, END_GROUP)
    case PFixed32(bs) => bs
  }

  function PutRecords(rs: seq<Record>): seq<byte>
    decreases rs, 0
  {
    if rs == [] then [] else PutRecord(rs[0]) + PutRecords(rs[1..])
  }

  lemma {:induction false} SkipScalar(r: Record, rest: seq<byte>, depth: int)
    requires WellFormed(r, depth) && !r.payload.PGroup?
    ensures ConsumeFieldValue(r.num, WireType(r.payload), PutPayload(r) + rest, depth) == Parsed((), |PutPayload(r)|)
  {
    if r.payload.PVarint? {
      VarintRoundTrip(r.payload.v, rest);
    } else if r.payload.PBytes? {
      BytesRoundTrip(r.payload.bs, rest);
    }
  }

  lemma {:induction false} GroupBytes(num: nat, body: seq<byte>, rest: seq<byte>, depth: int)
    requires depth >= 0
    ensures ConsumeFieldValue(num, START_GROUP, body + AppendTag(num, END_GROUP) + rest, depth)
         == ConsumeGroup(num, body + (AppendTag(num, END_GROUP) + rest), depth)
  {
    assert body + AppendTag(num, END_GROUP) + rest == body + (AppendTag(num, END_GROUP) + rest);
  }

  /** Skipping a written value skips exactly its bytes, whatever follows. */
  lemma {:induction false} SkipValue(r: Record, rest: seq<byte>, depth: int)
    requires WellFormed(r, depth)
    ensures ConsumeFieldValue(r.num, WireType(r.payload), PutPayload(r) + rest, depth) == Parsed((), |PutPayload(r)|)
    decreases r, 1
  {
    if r.payload.PGroup? {
      SkipGroup(r.num, r.payload.records, rest, depth);
      GroupBytes(r.num, PutRecords(r.payload.records), rest, depth);
    } else {
      SkipScalar(r, rest, depth);
    }
  }

  lemma {:induction false} SkipGroup(num: nat, rs: seq<Record>, rest: seq<byte>, depth: int)
    requires 1 <= num <= MAX_FIELD && AllWellFormed(rs, depth - 1)
    ensures ConsumeGroup(num, PutRecords(rs) + (AppendTag(num, END_GROUP) + rest), depth)
         == Parsed((), |PutRecords(rs)| + |AppendTag(num, END_GROUP)|)
    decreases rs, 0
  {
    var end := AppendTag(num, END_GROUP) + rest;
    if rs == [] {
      assert PutRecords(rs) + end == end;
      TagRoundTrip(num, END_GROUP, rest);
    } else {
      var r := rs[0];
      var b := PutRecords(rs) + end;
      var tag := AppendTag(r.num, WireType(r.payload));
      var more := PutRecords(rs[1..]) + end;
      assert b == tag + (PutPayload(r) + more);
      TagRoundTrip(r.num, WireType(r.payload), PutPayload(r) + more);
      assert b[|tag|..] == PutPayload(r) + more;
      SkipValue(r, more, depth - 1);
      assert (PutPayload(r) + more)[|PutPayload(r)|..] == more;
      SkipGroup(num, rs[1..], rest, depth);
    }
  }
}
