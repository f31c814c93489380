/** The legacy signing payload of a header: built on a clone, and injective. */
module SigningPayload {
  import opened Common
  import opened LittleEndian
  import opened ProtoWire
  import opened LegacyCodec

  /** A byte slice: unset, or set to a possibly empty string. */
  datatype Slice = Nil | Slice(bs: seq<byte>)

  function Bytes(s: Slice): seq<byte> {
    if s.Nil? then [] else s.bs
  }

  /** cloneBytes: an empty slice becomes an unset one. */
  function CloneBytes(s: Slice): Slice {
    if |Bytes(s)| == 0 then Nil else s
  }

  function Zeros(n: nat): seq<byte> {
    if n == 0 then [] else [0] + Zeros(n - 1)
  }

  const ZERO_HASH: seq<byte> := Zeros(32)

  datatype LegacyValue = LegacyValue(lastCommit: Slice, consensus: Slice, lastResults: Slice)

  datatype HeaderValue = HeaderValue(
    block: uint64, app: uint64, height: uint64, time: uint64,
    lastHeaderHash: Slice, dataHash: Slice, appHash: Slice, proposer: Slice, validator: Slice,
    chainID: seq<byte>, legacy: Option<LegacyValue>)

  /** What the payload shows of a header: unset and empty alike, and a missing consensus hash as 32 zero bytes. */
  datatype Content = Content(
    block: uint64, app: uint64, height: uint64, time: uint64,
    lastHeaderHash: seq<byte>, lastCommit: seq<byte>, dataHash: seq<byte>, consensus: seq<byte>, appHash: seq<byte>,
    lastResults: seq<byte>, proposer: seq<byte>, validator: seq<byte>, chainID: seq<byte>)

  function ConsensusOf(l: Option<LegacyValue>): seq<byte> {
    if l.None? || |Bytes(l.value.consensus)| == 0 then ZERO_HASH else Bytes(l.value.consensus)
  }

  function ContentOf(h: HeaderValue): Content {
    Content(h.block, h.app, h.height, h.time, Bytes(h.lastHeaderHash),
            if h.legacy.None? then [] else Bytes(h.legacy.value.lastCommit),
            Bytes(h.dataHash), ConsensusOf(h.legacy), Bytes(h.appHash),
            if h.legacy.None? then [] else Bytes(h.legacy.value.lastResults),
            Bytes(h.proposer), Bytes(h.validator), h.chainID)
  }

  // ---------------------------------------------------------------- the payload

  function FieldsOf(c: Content): seq<(nat, seq<byte>)> {
    [(4, c.lastHeaderHash), (5, c.lastCommit), (6, c.dataHash), (7, c.consensus), (8, c.appHash), (9, c.lastResults),
     (10, c.proposer), (11, c.validator), (12, c.chainID)]
  }

  /** proto.Marshal of a Version: zero fields are not written. */
  function VersionRecords(block: uint64, app: uint64): seq<Record> {
    (if block != 0 then [Record(1, PVarint(block))] else []) + (if app != 0 then [Record(2, PVarint(app))] else [])
  }

  function LeadRecords(c: Content): seq<Record> {
    [Record(1, PBytes(PutRecords(VersionRecords(c.block, c.app)))), Record(2, PVarint(c.height)),
     Record(3, PVarint(c.time))]
  }

  function LegacyBytes(c: Content): seq<byte> {
    PutRecords(LeadRecords(c) + BytesRecords(FieldsOf(c)))
  }

  /** Lengths that a 64-bit length prefix can carry. */
  predicate Fits(c: Content) {
    forall i :: 0 <= i < 9 ==> |FieldsOf(c)[i].1| < TWO64
  }

  // ---------------------------------------------------------------- injectivity

  lemma {:induction false} VersionUnique(b1: uint64, a1: uint64, b2: uint64, a2: uint64)
    requires PutRecords(VersionRecords(b1, a1)) == PutRecords(VersionRecords(b2, a2))
    ensures b1 == b2 && a1 == a2
  {
    var v1, v2 := VersionRecords(b1, a1), VersionRecords(b2, a2);
    RecordsUnique(v1, v2);
    assert b1 != 0 ==> v1[0] == Record(1, PVarint(b1));
    assert a1 != 0 ==> v1[|v1| - 1] == Record(2, PVarint(a1));
    assert b2 != 0 ==> v2[0] == Record(1, PVarint(b2));
    assert a2 != 0 ==> v2[|v2| - 1] == Record(2, PVarint(a2));
  }

  lemma {:induction false} VarintLength(v: nat, i: nat)
    requires i < 10 && v < Room(i)
    ensures |AppendVarint(v)| <= 10 - i
    decreases 10 - i
  {
    if v >= 128 {
      VarintLength(v / 128, i + 1);
    }
  }

  lemma {:induction false} VersionShort(block: uint64, app: uint64)
    ensures |PutRecords(VersionRecords(block, app))| < 64
  {
    RoomOf0();
    VarintLength(block, 0);
    VarintLength(app, 0);
    VarintLength(8, 0);
    VarintLength(16, 0);
    var rb, ra := Record(1, PVarint(block)), Record(2, PVarint(app));
    var vs := VersionRecords(block, app);
    assert PutRecord(rb) == AppendVarint(8) + AppendVarint(block);
    assert PutRecord(ra) == AppendVarint(16) + AppendVarint(app);
    var none: seq<Record> := [];
    var first := if block != 0 then none + [rb] else none;
    PutRecordsSnoc(none, rb);
    PutRecordsSnoc(first, ra);
    assert vs == if app != 0 then first + [ra] else first;
  }

  lemma {:induction false} RecordsPlain(c: Content)
    requires Fits(c)
    ensures AllPlain(LeadRecords(c) + BytesRecords(FieldsOf(c))) && Writable(FieldsOf(c))
  {
    var fs := FieldsOf(c);
    BytesRecordsWellFormed(fs);
    VersionShort(c.block, c.app);
    var rs := BytesRecords(fs);
    forall i | 0 <= i < |rs| ensures Plain(rs[i]) {
      assert rs[i] in rs;
    }
  }

  /** Two headers with equal legacy bytes agree on everything the payload shows, and the other way round: on every
      field, up to empty versus unset and the zero consensus hash. */
  lemma {:induction false} PayloadInjective(g: HeaderValue, h: HeaderValue)
    requires Fits(ContentOf(g)) && Fits(ContentOf(h))
    ensures LegacyBytes(ContentOf(g)) == LegacyBytes(ContentOf(h)) <==> ContentOf(g) == ContentOf(h)
  {
    if LegacyBytes(ContentOf(g)) == LegacyBytes(ContentOf(h)) {
      ContentUnique(ContentOf(g), ContentOf(h));
    }
  }

  lemma {:induction false} ContentUnique(c: Content, d: Content)
    requires Fits(c) && Fits(d) && LegacyBytes(c) == LegacyBytes(d)
    ensures c == d
  {
    RecordsPlain(c);
    RecordsPlain(d);
    var rs, ss := LeadRecords(c) + BytesRecords(FieldsOf(c)), LeadRecords(d) + BytesRecords(FieldsOf(d));
    RecordsUnique(rs, ss);
    assert rs[0] == LeadRecords(c)[0] && ss[0] == LeadRecords(d)[0];
    assert rs[1] == LeadRecords(c)[1] && ss[1] == LeadRecords(d)[1];
    assert rs[2] == LeadRecords(c)[2] && ss[2] == LeadRecords(d)[2];
    VersionUnique(c.block, c.app, d.block, d.app);
    assert rs[3..] == BytesRecords(FieldsOf(c)) && ss[3..] == BytesRecords(FieldsOf(d));
    forall i | 0 <= i < 9 ensures FieldsOf(c)[i].1 == FieldsOf(d)[i].1 {
      FieldReadsBack(FieldsOf(c), i);
      FieldReadsBack(FieldsOf(d), i);
    }
    FieldsDetermine(c, d);
  }

  lemma {:induction false} FieldsDetermine(c: Content, d: Content)
    requires forall i :: 0 <= i < 9 ==> FieldsOf(c)[i].1 == FieldsOf(d)[i].1
    requires c.block == d.block && c.app == d.app && c.height == d.height && c.time == d.time
    ensures c == d
  {
    assert FieldsOf(c)[0].1 == FieldsOf(d)[0].1 && FieldsOf(c)[1].1 == FieldsOf(d)[1].1
            && FieldsOf(c)[2].1 == FieldsOf(d)[2].1;
    assert FieldsOf(c)[3].1 == FieldsOf(d)[3].1 && FieldsOf(c)[4].1 == FieldsOf(d)[4].1
            && FieldsOf(c)[5].1 == FieldsOf(d)[5].1;
    assert FieldsOf(c)[6].1 == FieldsOf(d)[6].1 && FieldsOf(c)[7].1 == FieldsOf(d)[7].1
            && FieldsOf(c)[8].1 == FieldsOf(d)[8].1;
  }

  // ---------------------------------------------------------------- reading the payload

  /** The version and the two numbers in front are not length-delimited fields 4 to 12. */
  lemma {:induction false} LeadReadsNothing(c: Content, rs: seq<Record>, num: nat)
    requires 4 <= num
    ensures LastValue(LeadRecords(c) + rs, num) == LastValue(rs, num)
  {
    var all := LeadRecords(c) + rs;
    assert all[1..][1..][1..] == rs;
    assert LastValue(all[1..][1..], num) == LastValue(rs, num);
    assert LastValue(all[1..], num) == LastValue(rs, num);
  }

  function ReadField(c: Content, num: nat): seq<byte> {
    OrElse(LastValue(LeadRecords(c) + BytesRecords(FieldsOf(c)), num), [])
  }

  lemma {:induction false} FieldIsRead(c: Content, i: nat)
    requires Fits(c) && i < 9
    ensures ReadField(c, i + 4) == FieldsOf(c)[i].1
  {
    RecordsPlain(c);
    assert FieldsOf(c)[i].0 == i + 4;
    FieldReadsBack(FieldsOf(c), i);
    LeadReadsNothing(c, BytesRecords(FieldsOf(c)), i + 4);
  }

  lemma {:induction false} ContentIsRead(c: Content)
    requires Fits(c)
    ensures ReadField(c, 4) == c.lastHeaderHash && ReadField(c, 5) == c.lastCommit && ReadField(c, 6) == c.dataHash
    ensures ReadField(c, 7) == c.consensus && ReadField(c, 8) == c.appHash && ReadField(c, 9) == c.lastResults
    ensures ReadField(c, 10) == c.proposer && ReadField(c, 11) == c.validator && ReadField(c, 12) == c.chainID
  {
    FieldIsRead(c, 0);
    FieldIsRead(c, 1);
    FieldIsRead(c, 2);
    FieldIsRead(c, 3);
    FieldIsRead(c, 4);
    FieldIsRead(c, 5);
    FieldIsRead(c, 6);
    FieldIsRead(c, 7);
    FieldIsRead(c, 8);
  }

  /** Each field of the header stands in the payload under its own number: the version as an embedded message, height
      and time as numbers, everything else as bytes. */
  lemma {:induction false} PayloadFields(h: HeaderValue)
    requires Fits(ContentOf(h))
    ensures var c := ContentOf(h);
            && LegacyBytes(c) == PutRecords(LeadRecords(c) + BytesRecords(FieldsOf(c)))
            && LeadRecords(c)[0] == Record(1, PBytes(PutRecords(VersionRecords(h.block, h.app))))
            && LeadRecords(c)[1] == Record(2, PVarint(h.height)) && LeadRecords(c)[2] == Record(3, PVarint(h.time))
            && (h.block != 0 ==> Record(1, PVarint(h.block)) in VersionRecords(h.block, h.app))
            && (h.app != 0 ==> Record(2, PVarint(h.app)) in VersionRecords(h.block, h.app))
    ensures var c := ContentOf(h);
            && ReadField(c, 4) == Bytes(h.lastHeaderHash) && ReadField(c, 6) == Bytes(h.dataHash)
            && ReadField(c, 8) == Bytes(h.appHash) && ReadField(c, 10) == Bytes(h.proposer)
            && ReadField(c, 11) == Bytes(h.validator) && ReadField(c, 12) == h.chainID
            && (h.legacy.Some? ==> ReadField(c, 5) == Bytes(h.legacy.value.lastCommit)
                                   && ReadField(c, 9) == Bytes(h.legacy.value.lastResults))
            && (h.legacy.None? ==> ReadField(c, 5) == [] && ReadField(c, 9) == [])
  {
    ContentIsRead(ContentOf(h));
  }

  lemma {:induction false} PlainIsWellFormed(rs: seq<Record>)
    requires AllPlain(rs)
    ensures AllWellFormed(rs, RECURSION_LIMIT)
    decreases |rs|
  {
    if rs != [] {
      assert Plain(rs[0]);
      PlainIsWellFormed(rs[1..]);
    }
  }

  lemma {:induction false} NothingOversized(c: Content)
    requires Fits(c) && |c.lastCommit| <= 1024 && |c.consensus| <= 1024 && |c.lastResults| <= 1024
    ensures forall r :: r in LeadRecords(c) + BytesRecords(FieldsOf(c)) ==> !Oversized(r)
  {
    var fs := FieldsOf(c);
    RecordsPlain(c);
    BytesRecordsWellFormed(fs);
    assert fs[1].1 == c.lastCommit && fs[3].1 == c.consensus && fs[5].1 == c.lastResults;
  }

  /** The decoder of the unknown fields reads the legacy fields back from a payload within its limits, the consensus
      hash with its default. */
  lemma {:induction false} PayloadReadsBack(c: Content)
    requires Fits(c) && |c.lastCommit| <= 1024 && 0 < |c.consensus| <= 1024 && |c.lastResults| <= 1024
    requires |LegacyBytes(c)| <= 1048576
    ensures LegacyCodec.Decode(LegacyBytes(c)) == Ok(Some(Legacy(c.lastCommit, c.consensus, c.lastResults)))
  {
    var rs := LeadRecords(c) + BytesRecords(FieldsOf(c));
    RecordsPlain(c);
    PlainIsWellFormed(rs);
    NothingOversized(c);
    DecodeKeepsLast(rs);
    FieldIsRead(c, 1);
    FieldIsRead(c, 3);
    FieldIsRead(c, 5);
  }

  /** The payload of every header shows a consensus hash: its own, or 32 zero bytes. */
  lemma {:induction false} ConsensusIsShown(h: HeaderValue)
    ensures var shown := ContentOf(h).consensus;
            && |shown| > 0
            && (h.legacy.Some? && Bytes(h.legacy.value.consensus) != [] ==>
                  shown == Bytes(h.legacy.value.consensus))
            && (h.legacy.None? || Bytes(h.legacy.value.consensus) == [] ==>
                  |shown| == 32 && forall i :: 0 <= i < 32 ==> shown[i] == 0)
  {
    ZerosAre(32);
  }

  lemma {:induction false} ZerosAre(n: nat)
    ensures |Zeros(n)| == n && forall i :: 0 <= i < n ==> Zeros(n)[i] == 0
  {
    if n > 0 {
      ZerosAre(n - 1);
    }
  }

  // ---------------------------------------------------------------- headers and their legacy block

  class LegacyHeaderFields {
    var lastCommit: Slice
    var consensus: Slice
    var lastResults: Slice

    function Value(): LegacyValue
      reads this
    {
      LegacyValue(lastCommit, consensus, lastResults)
    }

    constructor (lastCommit: Slice, consensus: Slice, lastResults: Slice)
      ensures Value() == LegacyValue(lastCommit, consensus, lastResults)
    {
      this.lastCommit, this.consensus, this.lastResults := lastCommit, consensus, lastResults;
    }

    method EnsureDefaults()
      modifies this
      ensures Value() == old(Value()).(consensus := if old(consensus).Nil? then Slice(ZERO_HASH) else old(consensus))
    {
      if consensus.Nil? {
        consensus := Slice(ZERO_HASH);
      }
    }

    method Clone() returns (l: LegacyHeaderFields)
      ensures fresh(l)
      ensures l.Value() == LegacyValue(CloneBytes(lastCommit), CloneBytes(consensus), CloneBytes(lastResults))
    {
      l := new LegacyHeaderFields(CloneBytes(lastCommit), CloneBytes(consensus), CloneBytes(lastResults));
    }
  }

  class Header {
    var block: uint64
    var app: uint64
    var height: uint64
    var time: uint64
    var lastHeaderHash: Slice
    var dataHash: Slice
    var appHash: Slice
    var proposer: Slice
    var validator: Slice
    var chainID: seq<byte>
    var legacy: LegacyHeaderFields?
    var cachedHash: Slice

    function Value(): HeaderValue
      reads this, legacy
    {
      HeaderValue(block, app, height, time, lastHeaderHash, dataHash, appHash, proposer, validator, chainID,
                  if legacy == null then None else Some(legacy.Value()))
    }

    constructor (v: HeaderValue, legacy: LegacyHeaderFields?)
      ensures Value() == v.(legacy := if legacy == null then None else Some(legacy.Value()))
      ensures this.legacy == legacy && cachedHash == Nil
    {
      block, app, height, time := v.block, v.app, v.height, v.time;
      lastHeaderHash, dataHash, appHash, proposer, validator := v.lastHeaderHash, v.dataHash, v.appHash,
          v.proposer, v.validator;
      chainID := v.chainID;
      this.legacy, cachedHash := legacy, Nil;
    }

    /** A deep copy: nothing of it is shared with this header. */
    method Clone() returns (h: Header)
      ensures fresh(h) && (h.legacy != null ==> fresh(h.legacy))
      ensures ContentOf(h.Value()) == ContentOf(Value())
      ensures (h.legacy == null <==> legacy == null) && h.cachedHash == Nil
      ensures h.legacy != null ==> h.legacy.consensus == CloneBytes(legacy.consensus)
    {
      var l: LegacyHeaderFields? := null;
      if legacy != null {
        l := legacy.Clone();
      }
      var v := HeaderValue(block, app, height, time, CloneBytes(lastHeaderHash), CloneBytes(dataHash),
                           CloneBytes(appHash), CloneBytes(proposer), CloneBytes(validator), chainID, None);
      h := new Header(v, l);
    }

    /** Afterwards the legacy block exists; its consensus hash is the one the payload shows, except when it was set
        to an empty string, which Clone never leaves. */
    method ApplyLegacyDefaults()
      modifies this`legacy, this`cachedHash, legacy
      ensures cachedHash == Nil
      ensures legacy != null && (old(legacy) != null ==> legacy == old(legacy))
              && (old(legacy) == null ==> fresh(legacy))
      ensures legacy.Value() == old(if legacy == null then LegacyValue(Nil, Nil, Nil) else legacy.Value())
                                .(consensus := legacy.consensus)
      ensures ContentOf(Value()) == old(ContentOf(Value()))
      ensures Bytes(legacy.consensus) == ConsensusOf(Value().legacy)
              <==> !(old(legacy) != null && old(legacy.consensus) == Slice([]))
    {
      if legacy == null {
        legacy := new LegacyHeaderFields(Nil, Nil, Nil);
      }
      legacy.EnsureDefaults();
      cachedHash := Nil;
    }
  }

  /** marshalLegacyHeader: the defaults are applied to a clone, so the header itself, and its legacy block, are not
      touched: the method modifies nothing. */
  method MarshalLegacyHeader(h: Header?) returns (r: Result<seq<byte>>)
    ensures h == null ==> r == Err
    ensures h != null ==> r == Ok(LegacyBytes(ContentOf(h.Value())))
  {
    if h == null {
      return Err;
    }
    var clone := h.Clone();
    clone.ApplyLegacyDefaults();
    ghost var c := ContentOf(h.Value());
    assert c == ContentOf(clone.Value());
    var versionBytes := PutRecords(VersionRecords(clone.block, clone.app));
    var payload := WriteLead(versionBytes, clone.height, clone.time, c);
    var fs := [(4, Bytes(clone.lastHeaderHash)), (5, Bytes(clone.legacy.lastCommit)), (6, Bytes(clone.dataHash)),
               (7, Bytes(clone.legacy.consensus)), (8, Bytes(clone.appHash)), (9, Bytes(clone.legacy.lastResults)),
               (10, Bytes(clone.proposer)), (11, Bytes(clone.validator)), (12, clone.chainID)];
    assert fs == FieldsOf(c);
    payload := WriteFields(payload, fs, LeadRecords(c));
    return Ok(payload);
  }

  method WriteLead(versionBytes: seq<byte>, height: uint64, time: uint64, ghost c: Content) returns (payload: seq<byte>)
    requires versionBytes == PutRecords(VersionRecords(c.block, c.app)) && height == c.height && time == c.time
    ensures payload == PutRecords(LeadRecords(c))
  {
    ghost var empty: seq<Record> := [];
    ghost var r1, r2, r3 := Record(1, PBytes(versionBytes)), Record(2, PVarint(height)), Record(3, PVarint(time));
    payload := AppendTag(1, BYTES);
    payload := payload + AppendVarint(|versionBytes|);
    payload := payload + versionBytes;
    assert payload == PutRecord(r1);
    payload := payload + AppendTag(2, VARINT);
    payload := payload + AppendVarint(height);
    payload := payload + AppendTag(3, VARINT);
    payload := payload + AppendVarint(time);
    assert payload == PutRecord(r1) + PutRecord(r2) + PutRecord(r3);
    PutRecordsSnoc([], r1);
    PutRecordsSnoc([r1], r2);
    PutRecordsSnoc([r1, r2], r3);
    assert [r1] + [r2] == [r1, r2] && [r1, r2] + [r3] == LeadRecords(c);
    assert empty + [r1] == [r1];
  }

  method WriteFields(payload: seq<byte>, fs: seq<(nat, seq<byte>)>, ghost lead: seq<Record>) returns (p: seq<byte>)
    requires payload == PutRecords(lead)
    ensures p == PutRecords(lead + BytesRecords(fs))
  {
    p := payload;
    assert lead + BytesRecords(fs[..0]) == lead;
    for i := 0 to |fs|
      invariant p == PutRecords(lead + BytesRecords(fs[..i]))
    {
      assert fs[..i + 1] == fs[..i] + [(fs[i].0, fs[i].1)];
      p := AppendIfSet(p, fs[i].0, fs[i].1, lead, fs[..i]);
    }
    assert fs[..|fs|] == fs;
  }
}
