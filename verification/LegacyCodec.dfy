/** The deprecated header fields carried as unknown protobuf fields, and the legacy signing payload. */
module LegacyCodec {
  import opened Common
  import opened LittleEndian
  import opened ProtoWire

  const LAST_COMMIT_HASH := 5
  const CONSENSUS_HASH := 7
  const LAST_RESULTS_HASH := 9

  const MAX_UNKNOWN := 1024 * 1024
  const MAX_HASH := 1024

  /** The three fields; an empty value is an unset one. */
  datatype Legacy = Legacy(lastCommit: seq<byte>, consensus: seq<byte>, lastResults: seq<byte>)

  const UNSET := Legacy([], [], [])

  predicate IsLegacyField(num: nat) {
    num == LAST_COMMIT_HASH || num == CONSENSUS_HASH || num == LAST_RESULTS_HASH
  }

  function SetField(l: Legacy, num: nat, value: seq<byte>): Legacy {
    if num == LAST_COMMIT_HASH then l.(lastCommit := value)
    else if num == CONSENSUS_HASH then l.(consensus := value)
    else if num == LAST_RESULTS_HASH then l.(lastResults := value)
    else l
  }

  // ---------------------------------------------------------------- decoding

  /** One record off the front: the fields after it and the bytes left. */
  function DecodeOne(b: seq<byte>, l: Legacy): (r: Result<(Legacy, seq<byte>)>)
    ensures r.Ok? ==> |r.value.1| < |b|
  {
    var tag := ConsumeTag(b);
    if tag.Bad? then Err
    else
      var num, typ, b1 := tag.value.num, tag.value.typ, b[tag.n..];
      if IsLegacyField(num) && typ == BYTES then
        var v := ConsumeBytes(b1);
        if v.Bad? || |v.value| > MAX_HASH then Err else Ok((SetField(l, num, v.value), b1[v.n..]))
      else
        var v := ConsumeFieldValue(num, typ, b1, RECURSION_LIMIT);
        if v.Bad? then Err else Ok((l, b1[v.n..]))
  }

  function DecodeFrom(b: seq<byte>, l: Legacy): Result<Legacy>
    decreases |b|
  {
    if b == [] then Ok(l)
    else
      var r := DecodeOne(b, l);
      if r.Err? then Err else DecodeFrom(r.value.1, r.value.0)
  }

  function Present(l: Legacy): Option<Legacy> {
    if l == UNSET then None else Some(l)
  }

  function Decode(unknown: seq<byte>): Result<Option<Legacy>> {
    if |unknown| > MAX_UNKNOWN then Err
    else
      var r := DecodeFrom(unknown, UNSET);
      if r.Err? then Err else Ok(Present(r.value))
  }

  /** decodeLegacyHeaderFields: the loop shrinks the unread bytes; it ends on every byte string. */
  method DecodeLegacyHeaderFields(unknownFields: seq<byte>) returns (r: Result<Option<Legacy>>)
    ensures r == Decode(unknownFields)
  {
    if unknownFields == [] {
      return Ok(None);
    }
    if |unknownFields| > MAX_UNKNOWN {
      return Err;
    }
    var unknown := unknownFields;
    var legacy := UNSET;
    while unknown != []
      invariant DecodeFrom(unknownFields, UNSET) == DecodeFrom(unknown, legacy)
      decreases |unknown|
    {
      var tag := ConsumeTag(unknown);
      if tag.Bad? {
        return Err;
      }
      ghost var before := unknown;
      unknown := unknown[tag.n..];
      var num, typ := tag.value.num, tag.value.typ;
      if IsLegacyField(num) && typ == BYTES {
        var v := ConsumeBytes(unknown);
        if v.Bad? || |v.value| > MAX_HASH {
          return Err;
        }
        unknown := unknown[v.n..];
        legacy := SetField(legacy, num, v.value);
      } else {
        var v := ConsumeFieldValue(num, typ, unknown, RECURSION_LIMIT);
        if v.Bad? {
          return Err;
        }
        unknown := unknown[v.n..];
      }
    }
    return Ok(Present(legacy));
  }

  // ---------------------------------------------------------------- what decoding means

  predicate Oversized(r: Record) {
    r.num in {5, 7, 9} && r.payload.PBytes? && |r.payload.bs| > 1024
  }

  /** The last length-delimited value of a field among the records, if there is one. */
  function LastValue(rs: seq<Record>, num: nat): Option<seq<byte>> {
    if rs == [] then None
    else
      var later := LastValue(rs[1..], num);
      if later.Some? then later
      else if rs[0].num == num && rs[0].payload.PBytes? then Some(rs[0].payload.bs)
      else None
  }

  function OrElse(o: Option<seq<byte>>, d: seq<byte>): seq<byte> {
    if o.Some? then o.value else d
  }

  /** The last length-delimited values of fields 5, 7 and 9, or what was there before. */
  function LastOneWins(rs: seq<Record>, l: Legacy): Legacy {
    Legacy(OrElse(LastValue(rs, 5), l.lastCommit), OrElse(LastValue(rs, 7), l.consensus),
           OrElse(LastValue(rs, 9), l.lastResults))
  }

  /** The tag of a record reads back, and what is left is its payload. */
  lemma {:induction false} RecordTag(r: Record, rest: seq<byte>)
    requires WellFormed(r, RECURSION_LIMIT)
    ensures var b := PutRecord(r) + rest;
            var tag := ConsumeTag(b);
            tag.Parsed? && tag.value == Tag(r.num, WireType(r.payload)) && b[tag.n..] == PutPayload(r) + rest
  {
    var typ := WireType(r.payload);
    var tag := AppendTag(r.num, typ);
    var b := PutRecord(r) + rest;
    assert b == tag + (PutPayload(r) + rest);
    TagRoundTrip(r.num, typ, PutPayload(r) + rest);
    assert b[|tag|..] == PutPayload(r) + rest;
  }

  lemma {:induction false} DecodeRecord(r: Record, rest: seq<byte>, l: Legacy)
    requires WellFormed(r, RECURSION_LIMIT)
    ensures DecodeOne(PutRecord(r) + rest, l) ==
            if Oversized(r) then Err
            else Ok((if r.payload.PBytes? then SetField(l, r.num, r.payload.bs) else l, rest))
  {
    RecordTag(r, rest);
    assert (PutPayload(r) + rest)[|PutPayload(r)|..] == rest;
    if r.payload.PBytes? && IsLegacyField(r.num) {
      BytesRoundTrip(r.payload.bs, rest);
    } else {
      SkipValue(r, rest, RECURSION_LIMIT);
    }
  }

  lemma {:induction false} DecodeRecords(rs: seq<Record>, l: Legacy)
    requires AllWellFormed(rs, RECURSION_LIMIT)
    ensures DecodeFrom(PutRecords(rs), l) ==
            if exists r :: r in rs && Oversized(r) then Err else Ok(LastOneWins(rs, l))
    decreases |rs|
  {
    if rs != [] {
      var r := rs[0];
      DecodeRecord(r, PutRecords(rs[1..]), l);
      assert PutRecords(rs) != [];
      if Oversized(r) {
        assert r in rs;
      } else {
        var l' := if r.payload.PBytes? then SetField(l, r.num, r.payload.bs) else l;
        DecodeRecords(rs[1..], l');
        assert LastOneWins(rs[1..], l') == LastOneWins(rs, l);
        assert forall x :: x in rs <==> x == r || x in rs[1..];
      }
    }
  }

  /** On every well-formed record sequence within the size limits the decoder keeps the last length-delimited value of
      fields 5, 7 and 9 and skips everything else: other fields, other wire types, nested groups. It fails exactly when
      one of those values, or the whole, is too long. */
  lemma {:induction false} DecodeKeepsLast(rs: seq<Record>)
    requires AllWellFormed(rs, RECURSION_LIMIT)
    ensures Decode(PutRecords(rs)) ==
            if |PutRecords(rs)| > 1048576 || exists r :: r in rs && Oversized(r) then Err
            else
              var l := LastOneWins(rs, UNSET);
              Ok(if l == Legacy([], [], []) then None else Some(l))
  {
    DecodeRecords(rs, UNSET);
  }

  // ---------------------------------------------------------------- encoding

  /** Non-empty fields as length-delimited records, in the order given. */
  function BytesRecords(fs: seq<(nat, seq<byte>)>): seq<Record> {
    if fs == [] then []
    else if fs[0].1 == [] then BytesRecords(fs[1..])
    else [Record(fs[0].0, PBytes(fs[0].1))] + BytesRecords(fs[1..])
  }

  function LegacyFields(l: Legacy): seq<(nat, seq<byte>)> {
    [(LAST_COMMIT_HASH, l.lastCommit), (CONSENSUS_HASH, l.consensus), (LAST_RESULTS_HASH, l.lastResults)]
  }

  function LegacyRecords(l: Legacy): seq<Record> {
    BytesRecords(LegacyFields(l))
  }

  function AppendBytesField(buf: seq<byte>, num: nat, value: seq<byte>): seq<byte> {
    buf + AppendTag(num, BYTES) + AppendVarint(|value|) + value
  }

  lemma {:induction false} PutRecordsSnoc(rs: seq<Record>, r: Record)
    ensures PutRecords(rs + [r]) == PutRecords(rs) + PutRecord(r)
    decreases |rs|
  {
    if rs == [] {
      assert (rs + [r])[1..] == [];
    } else {
      assert (rs + [r])[1..] == rs[1..] + [r];
      PutRecordsSnoc(rs[1..], r);
    }
  }

  lemma {:induction false} BytesRecordsSnoc(fs: seq<(nat, seq<byte>)>, num: nat, value: seq<byte>)
    ensures BytesRecords(fs + [(num, value)]) ==
            if value == [] then BytesRecords(fs) else BytesRecords(fs) + [Record(num, PBytes(value))]
    decreases |fs|
  {
    var x := (num, value);
    if fs == [] {
      assert (fs + [x])[1..] == [];
    } else {
      assert (fs + [x])[1..] == fs[1..] + [x];
      BytesRecordsSnoc(fs[1..], num, value);
    }
  }

  /** Appends one field unless it is empty. */
  method AppendIfSet(
      payload: seq<byte>, num: nat, value: seq<byte>, ghost rs: seq<Record>, ghost fs: seq<(nat, seq<byte>)>)
    returns (p: seq<byte>)
    requires payload == PutRecords(rs + BytesRecords(fs))
    ensures p == PutRecords(rs + BytesRecords(fs + [(num, value)]))
  {
    p := payload;
    BytesRecordsSnoc(fs, num, value);
    if |value| > 0 {
      var r := Record(num, PBytes(value));
      PutRecordsSnoc(rs + BytesRecords(fs), r);
      assert rs + (BytesRecords(fs) + [r]) == (rs + BytesRecords(fs)) + [r];
      p := AppendBytesField(payload, num, value);
      assert p == payload + PutRecord(r);
    }
  }

  lemma {:induction false} UnsetWritesNothing()
    ensures PutRecords(LegacyRecords(UNSET)) == []
  {
    var fs := LegacyFields(UNSET);
    assert BytesRecords(fs[1..][1..][1..]) == [];
    assert BytesRecords(fs[1..][1..]) == [];
    assert BytesRecords(fs[1..]) == [];
  }

  method EncodeLegacyUnknownFields(l: Option<Legacy>) returns (payload: seq<byte>)
    ensures payload == if l.None? then [] else PutRecords(LegacyRecords(l.value))
  {
    if l.None? || l.value == UNSET {
      UnsetWritesNothing();
      return [];
    }
    var fs := LegacyFields(l.value);
    payload := [];
    for i := 0 to 3
      invariant payload == PutRecords([] + BytesRecords(fs[..i]))
    {
      assert fs[..i + 1] == fs[..i] + [(fs[i].0, fs[i].1)];
      payload := AppendIfSet(payload, fs[i].0, fs[i].1, [], fs[..i]);
    }
    assert fs[..3] == fs;
    assert [] + BytesRecords(fs) == BytesRecords(fs);
  }

  // ---------------------------------------------------------------- field lists

  predicate Writable(fs: seq<(nat, seq<byte>)>) {
    && (forall i :: 0 <= i < |fs| ==> 1 <= fs[i].0 <= MAX_FIELD && |fs[i].1| < TWO64)
    && (forall i, j :: 0 <= i < j < |fs| ==> fs[i].0 != fs[j].0)
  }

  lemma {:induction false} BytesRecordsWellFormed(fs: seq<(nat, seq<byte>)>)
    requires Writable(fs)
    ensures AllWellFormed(BytesRecords(fs), RECURSION_LIMIT)
    ensures forall r :: r in BytesRecords(fs) ==>
              r.payload.PBytes? && exists i :: 0 <= i < |fs| && fs[i] == (r.num, r.payload.bs)
    decreases |fs|
  {
    if fs != [] {
      BytesRecordsWellFormed(fs[1..]);
      var rest := BytesRecords(fs[1..]);
      forall r | r in rest ensures exists i :: 0 <= i < |fs| && fs[i] == (r.num, r.payload.bs) {
        var i :| 0 <= i < |fs[1..]| && fs[1..][i] == (r.num, r.payload.bs);
        assert fs[i + 1] == (r.num, r.payload.bs);
      }
      if fs[0].1 != [] {
        var r := Record(fs[0].0, PBytes(fs[0].1));
        assert ([r] + rest)[1..] == rest;
        assert fs[0] == (r.num, r.payload.bs);
      }
    }
  }

  /** Each field can be read back from the records. */
  lemma {:induction false} FieldReadsBack(fs: seq<(nat, seq<byte>)>, i: nat)
    requires Writable(fs) && i < |fs|
    ensures LastValue(BytesRecords(fs), fs[i].0) == if fs[i].1 == [] then None else Some(fs[i].1)
    decreases |fs|
  {
    var rest := BytesRecords(fs[1..]);
    var r := Record(fs[0].0, PBytes(fs[0].1));
    assert ([r] + rest)[1..] == rest;
    if i == 0 {
      AbsentReadsNone(fs[1..], fs[0].0);
    } else {
      FieldReadsBack(fs[1..], i - 1);
    }
  }

  lemma {:induction false} AbsentReadsNone(fs: seq<(nat, seq<byte>)>, num: nat)
    requires forall i :: 0 <= i < |fs| ==> fs[i].0 != num
    ensures LastValue(BytesRecords(fs), num) == None
    decreases |fs|
  {
    if fs != [] {
      var rest := BytesRecords(fs[1..]);
      var r := Record(fs[0].0, PBytes(fs[0].1));
      assert ([r] + rest)[1..] == rest;
      AbsentReadsNone(fs[1..], num);
    }
  }

  lemma {:induction false} NonEmptyIsRecorded(fs: seq<(nat, seq<byte>)>, i: nat)
    requires i < |fs| && fs[i].1 != []
    ensures Record(fs[i].0, PBytes(fs[i].1)) in BytesRecords(fs)
    decreases |fs|
  {
    if i > 0 {
      NonEmptyIsRecorded(fs[1..], i - 1);
    }
  }

  lemma {:induction false} VarintShort(v: nat)
    requires v < 128 * 128
    ensures |AppendVarint(v)| <= 2
  {
  }

  lemma {:induction false} RecordsShort(fs: seq<(nat, seq<byte>)>)
    requires forall i :: 0 <= i < |fs| ==> fs[i].0 < 16 && |fs[i].1| <= MAX_HASH
    ensures |PutRecords(BytesRecords(fs))| <= 1028 * |fs|
    decreases |fs|
  {
    if fs != [] {
      RecordsShort(fs[1..]);
      if fs[0].1 != [] {
        var r := Record(fs[0].0, PBytes(fs[0].1));
        var rest := BytesRecords(fs[1..]);
        assert ([r] + rest)[1..] == rest;
        VarintShort(r.num * 8 + BYTES);
        VarintShort(|fs[0].1|);
        assert PutPayload(r) == AppendBytes(fs[0].1);
        assert |PutRecord(r)| <= 4 + |fs[0].1|;
      }
    }
  }

  // ---------------------------------------------------------------- the legacy round trip

  /** Within the decoder's limit. */
  predicate Short(l: Legacy) {
    |l.lastCommit| <= 1024 && |l.consensus| <= 1024 && |l.lastResults| <= 1024
  }

  lemma {:induction false} LegacyReadsBack(l: Legacy)
    requires Writable(LegacyFields(l))
    ensures LastOneWins(LegacyRecords(l), UNSET) == l
  {
    FieldReadsBack(LegacyFields(l), 0);
    FieldReadsBack(LegacyFields(l), 1);
    FieldReadsBack(LegacyFields(l), 2);
  }

  lemma {:induction false} OversizedExactly(l: Legacy)
    requires Writable(LegacyFields(l))
    ensures Short(l) <==> !exists r :: r in LegacyRecords(l) && Oversized(r)
  {
    var fs := LegacyFields(l);
    BytesRecordsWellFormed(fs);
    if !Short(l) {
      var i := if |l.lastCommit| > 1024 then 0 else if |l.consensus| > 1024 then 1 else 2;
      NonEmptyIsRecorded(fs, i);
      assert Oversized(Record(fs[i].0, PBytes(fs[i].1)));
    }
  }

  /** Decoding the encoding gives the fields back, empty as unset, exactly when each is at most 1024 bytes long. */
  lemma {:induction false} LegacyRoundTrip(l: Legacy)
    requires |l.lastCommit| < TWO64 && |l.consensus| < TWO64 && |l.lastResults| < TWO64
    ensures Decode(PutRecords(LegacyRecords(l))) == Ok(Present(l)) <==> Short(l)
  {
    var fs := LegacyFields(l);
    assert Writable(fs);
    BytesRecordsWellFormed(fs);
    DecodeKeepsLast(LegacyRecords(l));
    LegacyReadsBack(l);
    OversizedExactly(l);
    if Short(l) {
      RecordsShort(fs);
    }
  }

  /** A hash of 1025 bytes is written and not read back. */
  lemma {:induction false} LongHashIsLost(bs: seq<byte>)
    requires |bs| == 1025
    ensures var l := Legacy(bs, [], []); Decode(PutRecords(LegacyRecords(l))) != Ok(Present(l))
  {
    LegacyRoundTrip(Legacy(bs, [], []));
  }

  // ---------------------------------------------------------------- records are self-delimiting

  /** The records of a header: varints and byte strings. */
  predicate Plain(r: Record) {
    1 <= r.num <= MAX_FIELD && (r.payload.PVarint? || (r.payload.PBytes? && |r.payload.bs| < TWO64))
  }

  /** The first record of a byte string is determined by the bytes. */
  lemma {:induction false} FirstRecordUnique(r: Record, x: seq<byte>, s: Record, y: seq<byte>)
    requires Plain(r) && Plain(s) && PutRecord(r) + x == PutRecord(s) + y
    ensures r == s && x == y
  {
    var b := PutRecord(r) + x;
    ReadFirst(r, x);
    ReadFirst(s, y);
    assert x == b[|PutRecord(r)|..] && y == b[|PutRecord(s)|..];
  }

  /** Reading one plain record off a byte string. */
  function ReadRecord(b: seq<byte>): Parsed<Record> {
    var tag := ConsumeTag(b);
    if tag.Bad? then Bad
    else
      var b1 := b[tag.n..];
      if tag.value.typ == VARINT then
        var v := ConsumeVarint(b1);
        if v.Bad? || v.value >= TWO64 then Bad else Parsed(Record(tag.value.num, PVarint(v.value)), tag.n + v.n)
      else
        var v := ConsumeBytes(b1);
        if v.Bad? then Bad else Parsed(Record(tag.value.num, PBytes(v.value)), tag.n + v.n)
  }

  lemma {:induction false} ReadFirst(r: Record, x: seq<byte>)
    requires Plain(r)
    ensures ReadRecord(PutRecord(r) + x) == Parsed(r, |PutRecord(r)|)
  {
    var typ := WireType(r.payload);
    var tag := AppendTag(r.num, typ);
    var b := PutRecord(r) + x;
    assert b == tag + (PutPayload(r) + x);
    TagRoundTrip(r.num, typ, PutPayload(r) + x);
    assert b[|tag|..] == PutPayload(r) + x;
    if r.payload.PVarint? {
      VarintRoundTrip(r.payload.v, x);
    } else {
      BytesRoundTrip(r.payload.bs, x);
    }
  }

  predicate AllPlain(rs: seq<Record>) {
    forall i :: 0 <= i < |rs| ==> Plain(rs[i])
  }

  lemma {:induction false} NoBytesNoRecords(rs: seq<Record>)
    ensures PutRecords(rs) == [] <==> rs == []
  {
    if rs != [] {
      assert |PutRecord(rs[0])| > 0;
    }
  }

  lemma {:induction false} RecordsUnique(rs: seq<Record>, ss: seq<Record>)
    requires AllPlain(rs) && AllPlain(ss) && PutRecords(rs) == PutRecords(ss)
    ensures rs == ss
    decreases |rs|
  {
    NoBytesNoRecords(rs);
    NoBytesNoRecords(ss);
    if rs != [] {
      FirstRecordUnique(rs[0], PutRecords(rs[1..]), ss[0], PutRecords(ss[1..]));
      RecordsUnique(rs[1..], ss[1..]);
    }
  }
}
