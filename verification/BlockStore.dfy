/** The block store over a key-value database: committing, rolling back and pruning keep the database an exact image
    of a chain segment. */
module BlockStore {
  import opened Common
  import opened LittleEndian

  /** The serialized signed header. It carries its height, so blobs of different heights differ. */
  datatype HeaderBlob = HeaderBlob(height: nat, rest: seq<byte>)

  datatype Block = Block(header: HeaderBlob, data: seq<byte>, signature: seq<byte>, state: seq<byte>)

  datatype Meta = DAIncluded | LastPrunedBlock | LastPrunedState | HeaderDAHeight(h: nat) | DataDAHeight(h: nat)

  /** The index key is the SHA-256 of the stored header bytes; collision free, it stands for those bytes. */
  datatype Key =
    | HeightKey
    | HeaderKey(h: nat)
    | DataKey(h: nat)
    | SignatureKey(h: nat)
    | StateKey(h: nat)
    | IndexKey(sha: HeaderBlob)
    | MetaKey(name: Meta)

  datatype Value = Raw(bytes: seq<byte>) | Blob(header: HeaderBlob)

  type DB = map<Key, Value>

  // ---------------------------------------------------------------- batches

  datatype Write = Put(key: Key, value: Value) | Delete(key: Key)

  function ApplyOne(db: DB, w: Write): DB {
    match w
    case Put(k, v) => db[k := v]
    case Delete(k) => db - {k}
  }

  /** A committed batch applies its writes in order. */
  function Apply(db: DB, ws: seq<Write>): DB {
    if ws == [] then db else ApplyOne(Apply(db, ws[..|ws| - 1]), ws[|ws| - 1])
  }

  lemma {:induction false} ApplyAppend(db: DB, ws: seq<Write>, more: seq<Write>)
    ensures Apply(db, ws + more) == Apply(Apply(db, ws), more)
  {
    if more == [] {
      assert ws + more == ws;
    } else {
      var init := more[..|more| - 1];
      assert (ws + more)[..|ws + more| - 1] == ws + init;
      ApplyAppend(db, ws, init);
    }
  }

  // ---------------------------------------------------------------- what the database stands for

  /** The chain up to the current height. Its first block, at the initial height of the genesis, is at `base + 1`;
      blocks at or below `pruned` are gone from disk, states are kept per height. */
  datatype Chain = Chain(
    base: nat, blocks: seq<Block>, pruned: uint64, states: map<nat, seq<byte>>, prunedStates: uint64,
    da: Option<uint64>)

  const EMPTY_CHAIN := Chain(0, [], 0, map[], 0, None)

  /** The height of the chain. */
  function Top(c: Chain): nat {
    c.base + |c.blocks|
  }

  function BlockAt(c: Chain, h: nat): Block
    requires c.base < h <= Top(c)
  {
    c.blocks[h - 1 - c.base]
  }

  predicate InSegment(c: Chain, h: nat) {
    c.pruned < h && c.base < h <= Top(c)
  }

  predicate BlockPart(k: Key) {
    !k.HeightKey? && !k.MetaKey?
  }

  /** What the database must hold under a block or state key: headers, data and signatures of exactly the heights in
      (pruned, height], one index entry for each of those headers and no other, and the kept states. */
  function Expected(c: Chain, k: Key): Option<Value>
    requires BlockPart(k)
  {
    match k
    case HeaderKey(h) => if InSegment(c, h) then Some(Blob(BlockAt(c, h).header)) else None
    case DataKey(h) => if InSegment(c, h) then Some(Raw(BlockAt(c, h).data)) else None
    case SignatureKey(h) => if InSegment(c, h) then Some(Raw(BlockAt(c, h).signature)) else None
    case IndexKey(b) =>
      if InSegment(c, b.height) && BlockAt(c, b.height).header == b && b.height < TWO64
      then Some(Raw(Encode(b.height))) else None
    case StateKey(h) => if h in c.states then Some(Raw(c.states[h])) else None
  }

  function Lookup(db: DB, k: Key): Option<Value> {
    if k in db then Some(db[k]) else None
  }

  predicate Shows(db: DB, c: Chain, k: Key) {
    BlockPart(k) ==> Lookup(db, k) == Expected(c, k)
  }

  ghost predicate BlocksImage(db: DB, c: Chain) {
    forall k: Key {:trigger Shows(db, c, k)} :: Shows(db, c, k)
  }

  /** A stored height, 0 when there is none. */
  function HeightIn(v: Option<Value>): Decoded {
    if v.None? then Decoded(0) else if v.value.Raw? then Decode(v.value.bytes) else BadLength
  }

  /** The DA-included height; absent or malformed values do not count. */
  function DAIn(v: Option<Value>): Option<uint64> {
    if v.Some? && v.value.Raw? && Decode(v.value.bytes).Decoded? then Some(Decode(v.value.bytes).n) else None
  }

  predicate MarkersImage(db: DB, c: Chain) {
    && HeightIn(Lookup(db, MetaKey(LastPrunedBlock))) == Decoded(c.pruned)
    && HeightIn(Lookup(db, MetaKey(LastPrunedState))) == Decoded(c.prunedStates)
    && DAIn(Lookup(db, MetaKey(DAIncluded))) == c.da
  }

  /** Each block carries its own height; heights stay below 2^64 - 1. */
  predicate HeightsOk(c: Chain) {
    Top(c) < TWO64 - 1 && forall i :: 0 <= i < |c.blocks| ==> c.blocks[i].header.height == c.base + 1 + i
  }

  predicate ChainOk(c: Chain) {
    && HeightsOk(c) && c.pruned <= Top(c)
    && (forall h :: h in c.states ==> h <= Top(c))
    && (c.da.Some? ==> c.da.value <= Top(c))
  }

  ghost predicate Image(db: DB, c: Chain) {
    && ChainOk(c) && BlocksImage(db, c) && MarkersImage(db, c)
    && HeightIn(Lookup(db, HeightKey)) == Decoded(Top(c))
  }

  /** The index is one to one: every stored height has its entry, and two heights never share one. */
  lemma {:induction false} IndexOneToOne(db: DB, c: Chain, h: nat, k: nat)
    requires Image(db, c) && InSegment(c, h) && InSegment(c, k)
    ensures Lookup(db, IndexKey(BlockAt(c, h).header)) == Some(Raw(Encode(h)))
    ensures BlockAt(c, h).header == BlockAt(c, k).header ==> h == k
  {
    assert Shows(db, c, IndexKey(BlockAt(c, h).header));
  }

  // ---------------------------------------------------------------- the operations on chains

  /** The block is the next one; the first block of a chain can have any height. */
  predicate Follows(c: Chain, b: Block) {
    0 < b.header.height < TWO64 - 1 && (Top(c) == 0 || b.header.height == Top(c) + 1)
  }

  function CommitNext(c: Chain, b: Block): Chain
    requires Follows(c, b)
  {
    c.(base := if Top(c) == 0 then b.header.height - 1 else c.base,
       blocks := c.blocks + [b], states := c.states[b.header.height := b.state])
  }

  /** A rollback is refused when it is not a rollback, when an aggregator would drop finalized blocks, and when it
      would go below the pruned height or the first block. */
  predicate RollbackAllowed(c: Chain, h: nat, aggregator: bool) {
    && h < Top(c)
    && !(aggregator && c.da.Some? && c.da.value > h)
    && c.pruned <= h && c.base <= h
  }

  function RolledBack(c: Chain, h: nat): Chain
    requires c.base <= h <= Top(c) && h < TWO64
  {
    Cut(c, h).(da := if c.da.Some? && c.da.value > h then Some(h) else c.da)
  }

  function PrunedTo(c: Chain, h: uint64): Chain {
    if h <= c.pruned then c else c.(pruned := h)
  }

  function StatesPrunedTo(c: Chain, h: uint64): Chain {
    if h <= c.prunedStates then c
    else c.(prunedStates := h, states := StatesOutside(c.states, c.prunedStates, h))
  }

  // ---------------------------------------------------------------- small steps on images

  /** The database after SaveBlockData. */
  function Saved(db: DB, b: Block): DB
    requires b.header.height < TWO64
  {
    var h := b.header.height;
    db[HeaderKey(h) := Blob(b.header)][DataKey(h) := Raw(b.data)][SignatureKey(h) := Raw(b.signature)]
      [IndexKey(b.header) := Raw(Encode(h))]
  }

  /** The database after the writes of one commit. */
  function Committed(db: DB, b: Block): DB
    requires b.header.height < TWO64
  {
    Saved(db, b)[HeightKey := Raw(Encode(b.header.height))][StateKey(b.header.height) := Raw(b.state)]
  }

  /** What a commit writes under a block or state key. */
  function Written(b: Block, k: Key): Option<Value>
    requires BlockPart(k) && b.header.height < TWO64
  {
    var n := b.header.height;
    match k
    case HeaderKey(h) => if h == n then Some(Blob(b.header)) else None
    case DataKey(h) => if h == n then Some(Raw(b.data)) else None
    case SignatureKey(h) => if h == n then Some(Raw(b.signature)) else None
    case IndexKey(x) => if x == b.header then Some(Raw(Encode(n))) else None
    case StateKey(h) => if h == n then Some(Raw(b.state)) else None
  }

  lemma {:induction false} CommittedLookup(db: DB, b: Block, k: Key)
    requires BlockPart(k) && b.header.height < TWO64
    ensures Lookup(Committed(db, b), k) == if Written(b, k).Some? then Written(b, k) else Lookup(db, k)
  {
  }

  lemma {:induction false} ExpectedNext(c: Chain, b: Block, k: Key)
    requires ChainOk(c) && Follows(c, b) && BlockPart(k)
    ensures Expected(CommitNext(c, b), k) == if Written(b, k).Some? then Written(b, k) else Expected(c, k)
  {
    var c' := CommitNext(c, b);
    assert Top(c') == b.header.height && BlockAt(c', b.header.height) == b;
    assert forall h :: InSegment(c', h) <==> InSegment(c, h) || h == b.header.height;
    assert forall h :: InSegment(c, h) ==> BlockAt(c', h) == BlockAt(c, h);
  }

  lemma {:induction false} AddTop(db: DB, c: Chain, b: Block, k: Key)
    requires ChainOk(c) && BlocksImage(db, c) && Follows(c, b)
    ensures Shows(Committed(db, b), CommitNext(c, b), k)
  {
    if BlockPart(k) {
      assert Shows(db, c, k);
      CommittedLookup(db, b, k);
      ExpectedNext(c, b, k);
    }
  }

  predicate SameBlocks(c: Chain, c': Chain) {
    c'.base == c.base && c'.blocks == c.blocks && c'.pruned == c.pruned && c'.states == c.states
  }

  /** Writing a height or a marker does not touch the blocks. */
  lemma {:induction false} WriteMarker(db: DB, c: Chain, c': Chain, key: Key, v: Value)
    requires BlocksImage(db, c) && SameBlocks(c, c') && !BlockPart(key)
    ensures BlocksImage(db[key := v], c')
  {
    var db' := db[key := v];
    forall k: Key ensures Shows(db', c', k) {
      assert Shows(db, c, k);
    }
  }

  lemma {:induction false} StoredIn(h: uint64)
    ensures HeightIn(Some(Raw(Encode(h)))) == Decoded(h) && DAIn(Some(Raw(Encode(h)))) == Some(h)
  {
    RoundTrip(h, []);
  }

  lemma {:induction false} CommitMarkers(db: DB, c: Chain, b: Block)
    requires MarkersImage(db, c) && Follows(c, b)
    ensures MarkersImage(Committed(db, b), CommitNext(c, b))
    ensures HeightIn(Lookup(Committed(db, b), HeightKey)) == Decoded(b.header.height)
  {
    var db' := Committed(db, b);
    StoredIn(b.header.height);
    assert Lookup(db', HeightKey) == Some(Raw(Encode(b.header.height)));
    assert Lookup(db', MetaKey(LastPrunedBlock)) == Lookup(db, MetaKey(LastPrunedBlock));
    assert Lookup(db', MetaKey(LastPrunedState)) == Lookup(db, MetaKey(LastPrunedState));
    assert Lookup(db', MetaKey(DAIncluded)) == Lookup(db, MetaKey(DAIncluded));
  }

  lemma {:induction false} CommitImage(db: DB, c: Chain, b: Block)
    requires Image(db, c) && Follows(c, b)
    ensures Image(Committed(db, b), CommitNext(c, b))
  {
    CommitMarkers(db, c, b);
    forall k: Key ensures Shows(Committed(db, b), CommitNext(c, b), k) {
      AddTop(db, c, b, k);
    }
  }

  /** The database without the keys of the block at `h`, and its state. */
  function WithoutTop(db: DB, h: nat, header: HeaderBlob): DB {
    db - {HeaderKey(h)} - {DataKey(h)} - {SignatureKey(h)} - {IndexKey(header)} - {StateKey(h)}
  }

  /** Deleting the top block's keys leaves the image without it. */
  lemma {:induction false} DropTop(db: DB, c: Chain)
    requires HeightsOk(c) && BlocksImage(db, c) && c.pruned < Top(c) && c.blocks != []
    ensures BlocksImage(WithoutTop(db, Top(c), BlockAt(c, Top(c)).header),
                        c.(blocks := c.blocks[..|c.blocks| - 1], states := c.states - {Top(c)}))
  {
    var n := Top(c);
    var db' := WithoutTop(db, n, BlockAt(c, n).header);
    var c' := c.(blocks := c.blocks[..|c.blocks| - 1], states := c.states - {n});
    assert forall h :: InSegment(c', h) <==> InSegment(c, h) && h != n;
    assert forall h :: InSegment(c', h) ==> BlockAt(c', h) == BlockAt(c, h);
    forall k: Key ensures Shows(db', c', k) {
      assert Shows(db, c, k);
    }
  }

  /** The database without the keys of the block at `h`, and its DA metadata. */
  function WithoutBottom(db: DB, h: nat, header: HeaderBlob): DB {
    db - {HeaderKey(h)} - {DataKey(h)} - {SignatureKey(h)} - {MetaKey(HeaderDAHeight(h))}
       - {MetaKey(DataDAHeight(h))} - {IndexKey(header)}
  }

  /** Deleting the lowest block's keys leaves the image pruned one further. */
  lemma {:induction false} DropBottom(db: DB, c: Chain)
    requires HeightsOk(c) && BlocksImage(db, c) && c.base <= c.pruned < Top(c)
    ensures BlocksImage(WithoutBottom(db, c.pruned + 1, BlockAt(c, c.pruned + 1).header), c.(pruned := c.pruned + 1))
  {
    var h := c.pruned + 1;
    var db' := WithoutBottom(db, h, BlockAt(c, h).header);
    var c' := c.(pruned := h);
    assert forall n :: InSegment(c', n) <==> InSegment(c, n) && n != h;
    assert forall n :: InSegment(c', n) ==> BlockAt(c', n) == BlockAt(c, n);
    assert BlockAt(c, h).header.height == h;
    forall k: Key ensures Shows(db', c', k) {
      assert Shows(db, c, k);
    }
  }

  /** The chain cut at height `h`, markers untouched. */
  function Cut(c: Chain, h: nat): Chain
    requires c.base <= h <= Top(c)
  {
    c.(blocks := c.blocks[..h - c.base], states := map k | k in c.states && k <= h :: c.states[k])
  }

  function DropWrites(h: nat, header: HeaderBlob): seq<Write> {
    [Delete(HeaderKey(h)), Delete(DataKey(h)), Delete(SignatureKey(h)), Delete(IndexKey(header)), Delete(StateKey(h))]
  }

  lemma {:induction false} DropWritesApplied(db: DB, h: nat, header: HeaderBlob)
    ensures Apply(db, DropWrites(h, header)) == WithoutTop(db, h, header)
  {
    var ws := DropWrites(h, header);
    assert ws[..4][..3] == ws[..3] && ws[..3][..2] == ws[..2] && ws[..2][..1] == ws[..1] && ws[..1][..0] == [];
    assert Apply(db, ws[..1]) == db - {HeaderKey(h)};
    assert Apply(db, ws[..3]) == db - {HeaderKey(h)} - {DataKey(h)} - {SignatureKey(h)};
  }

  /** Outside the block and state keys nothing changed. */
  ghost predicate SameRest(db: DB, db': DB) {
    forall k: Key :: !BlockPart(k) ==> Lookup(db', k) == Lookup(db, k)
  }

  lemma {:induction false} StageDrop(db: DB, ws: seq<Write>, c: Chain, cur: nat)
    requires ChainOk(c) && c.pruned < cur <= Top(c) && c.base < cur && BlocksImage(Apply(db, ws), Cut(c, cur))
    ensures var db' := Apply(db, ws + DropWrites(cur, BlockAt(c, cur).header));
            BlocksImage(db', Cut(c, cur - 1)) && SameRest(Apply(db, ws), db')
  {
    var header := BlockAt(c, cur).header;
    ApplyAppend(db, ws, DropWrites(cur, header));
    DropWritesApplied(Apply(db, ws), cur, header);
    var cut := Cut(c, cur);
    DropTop(Apply(db, ws), cut);
    assert cut.blocks[..|cut.blocks| - 1] == c.blocks[..cur - 1 - c.base];
    assert cut.(blocks := cut.blocks[..|cut.blocks| - 1], states := cut.states - {cur}) == Cut(c, cur - 1);
  }

  /** The deletes for the heights from `top` down to `h + 1`. */
  ghost function RollbackWrites(c: Chain, top: nat, h: nat): seq<Write>
    requires c.base <= h <= top <= Top(c)
    decreases top - h
  {
    if h == top then [] else RollbackWrites(c, top, h + 1) + DropWrites(h + 1, BlockAt(c, h + 1).header)
  }

  lemma {:induction false} RollbackWritesCut(db: DB, staged: seq<Write>, c: Chain, h: nat)
    requires ChainOk(c) && c.pruned <= h && c.base <= h <= Top(c) && BlocksImage(Apply(db, staged), c)
    ensures var db' := Apply(db, staged + RollbackWrites(c, Top(c), h));
            BlocksImage(db', Cut(c, h)) && SameRest(Apply(db, staged), db')
    decreases Top(c) - h
  {
    if h == Top(c) {
      assert c.blocks[..h - c.base] == c.blocks && Cut(c, h) == c;
      assert staged + RollbackWrites(c, Top(c), h) == staged;
    } else {
      RollbackWritesCut(db, staged, c, h + 1);
      var above := RollbackWrites(c, Top(c), h + 1);
      StageDrop(db, staged + above, c, h + 1);
      var drop := DropWrites(h + 1, BlockAt(c, h + 1).header);
      assert (staged + above) + drop == staged + (above + drop);
    }
  }

  /** The loop of Rollback: deletes are staged from the top down; a missing header stops it. */
  method StageRollback(db: DB, staged: seq<Write>, target: nat, currentHeight: nat, ghost c: Chain)
    returns (ok: bool, ws: seq<Write>)
    requires BlocksImage(db, c) && target < currentHeight == Top(c) && c.pruned <= Top(c)
    ensures ok <==> c.pruned <= target && c.base <= target
    ensures ok ==> ws == staged + RollbackWrites(c, Top(c), target)
  {
    var cur := currentHeight;
    ws := staged;
    while cur > target
      invariant target <= cur <= Top(c) && c.pruned <= cur && c.base <= cur
      invariant ws == staged + RollbackWrites(c, Top(c), cur)
    {
      assert Shows(db, c, HeaderKey(cur));
      if HeaderKey(cur) !in db {
        return false, ws;
      }
      var headerBlob := db[HeaderKey(cur)].header;
      ghost var before := ws;
      ws := ws + [Delete(HeaderKey(cur))];
      ws := ws + [Delete(DataKey(cur))];
      ws := ws + [Delete(SignatureKey(cur))];
      ws := ws + [Delete(IndexKey(headerBlob))];
      ws := ws + [Delete(StateKey(cur))];
      assert ws == before + DropWrites(cur, headerBlob);
      cur := cur - 1;
    }
    return true, ws;
  }

  function PruneWrites(h: nat, header: HeaderBlob): seq<Write> {
    [Delete(HeaderKey(h)), Delete(DataKey(h)), Delete(SignatureKey(h)), Delete(MetaKey(HeaderDAHeight(h))),
     Delete(MetaKey(DataDAHeight(h))), Delete(IndexKey(header))]
  }

  lemma {:induction false} PruneWritesApplied(db: DB, h: nat, header: HeaderBlob)
    ensures Apply(db, PruneWrites(h, header)) == WithoutBottom(db, h, header)
  {
    var ws := PruneWrites(h, header);
    assert ws[..5][..4] == ws[..4] && ws[..4][..3] == ws[..3] && ws[..3][..2] == ws[..2] && ws[..2][..1] == ws[..1]
        && ws[..1][..0] == [];
    assert Apply(db, ws[..1]) == db - {HeaderKey(h)};
    assert Apply(db, ws[..3]) == db - {HeaderKey(h)} - {DataKey(h)} - {SignatureKey(h)};
    assert Apply(db, ws[..5]) == db - {HeaderKey(h)} - {DataKey(h)} - {SignatureKey(h)} - {MetaKey(HeaderDAHeight(h))}
                                    - {MetaKey(DataDAHeight(h))};
  }

  predicate IsMarker(k: Key) {
    k.HeightKey? || k == MetaKey(DAIncluded) || k == MetaKey(LastPrunedBlock) || k == MetaKey(LastPrunedState)
  }

  ghost predicate SameMarkers(db: DB, db': DB) {
    forall k: Key :: IsMarker(k) ==> Lookup(db', k) == Lookup(db, k)
  }

  lemma {:induction false} PruneKeepsMarkers(db: DB, h: nat, header: HeaderBlob)
    ensures SameMarkers(db, Apply(db, PruneWrites(h, header)))
  {
    PruneWritesApplied(db, h, header);
  }

  lemma {:induction false} StagePruneOne(db: DB, ws: seq<Write>, c: Chain, h: uint64)
    requires ChainOk(c) && c.pruned < h <= Top(c) && c.base < h && BlocksImage(Apply(db, ws), c.(pruned := h - 1))
    ensures BlocksImage(Apply(db, ws + PruneWrites(h, BlockAt(c, h).header)), c.(pruned := h))
    ensures SameMarkers(Apply(db, ws), Apply(db, ws + PruneWrites(h, BlockAt(c, h).header)))
  {
    var header := BlockAt(c, h).header;
    ApplyAppend(db, ws, PruneWrites(h, header));
    PruneKeepsMarkers(Apply(db, ws), h, header);
    assert BlocksImage(Apply(db, ws + PruneWrites(h, header)), c.(pruned := h)) by {
      PruneWritesApplied(Apply(db, ws), h, header);
      DropBottom(Apply(db, ws), c.(pruned := h - 1));
    }
  }

  /** The deletes for the heights of (lo, h], in order. */
  ghost function PruneAll(c: Chain, lo: nat, h: nat): seq<Write>
    requires h <= Top(c)
  {
    if h <= lo then []
    else PruneAll(c, lo, h - 1) + if c.base < h then PruneWrites(h, BlockAt(c, h).header) else []
  }

  /** Below the first block there is nothing to delete. */
  lemma {:induction false} PruneBelowBase(db: DB, c: Chain, h: uint64)
    requires 0 < h <= c.base && BlocksImage(db, c.(pruned := h - 1))
    ensures BlocksImage(db, c.(pruned := h))
  {
    forall k: Key ensures Shows(db, c.(pruned := h), k) {
      assert Shows(db, c.(pruned := h - 1), k);
    }
  }

  lemma {:induction false} PruneAllImage(db: DB, c: Chain, h: uint64)
    requires ChainOk(c) && BlocksImage(db, c) && c.pruned <= h <= Top(c)
    ensures var db' := Apply(db, PruneAll(c, c.pruned, h)); BlocksImage(db', c.(pruned := h)) && SameMarkers(db, db')
    decreases h
  {
    if c.pruned < h {
      PruneAllImage(db, c, h - 1);
      if c.base < h {
        StagePruneOne(db, PruneAll(c, c.pruned, h - 1), c, h);
      } else {
        PruneBelowBase(Apply(db, PruneAll(c, c.pruned, h - 1)), c, h);
        assert PruneAll(c, c.pruned, h) == PruneAll(c, c.pruned, h - 1);
      }
    }
  }

  /** The DA heights recorded for a block that pruning up to `h` removes. */
  predicate PrunedMeta(c: Chain, h: nat, m: Meta) {
    (m.HeaderDAHeight? || m.DataDAHeight?) && c.pruned < m.h <= h && c.base < m.h
  }

  lemma {:induction false} PruneOneDropsDAHeights(db: DB, h: nat, header: HeaderBlob, m: Meta)
    ensures Lookup(Apply(db, PruneWrites(h, header)), MetaKey(m)) ==
            if m == HeaderDAHeight(h) || m == DataDAHeight(h) then None else Lookup(db, MetaKey(m))
  {
    PruneWritesApplied(db, h, header);
  }

  /** Pruning removes the DA heights of exactly the blocks it removes, and no other metadata. */
  lemma {:induction false} PruneDropsDAHeights(db: DB, c: Chain, h: nat, m: Meta)
    requires c.pruned <= h <= Top(c)
    ensures Lookup(Apply(db, PruneAll(c, c.pruned, h)), MetaKey(m)) ==
            if PrunedMeta(c, h, m) then None else Lookup(db, MetaKey(m))
    decreases h
  {
    if c.pruned < h {
      PruneDropsDAHeights(db, c, h - 1, m);
      if c.base < h {
        var ws := PruneAll(c, c.pruned, h - 1);
        ApplyAppend(db, ws, PruneWrites(h, BlockAt(c, h).header));
        PruneOneDropsDAHeights(Apply(db, ws), h, BlockAt(c, h).header, m);
      } else {
        assert PruneAll(c, c.pruned, h) == PruneAll(c, c.pruned, h - 1);
      }
    }
  }

  /** The loop of PruneBlocks over (lastPruned, height]. */
  method StagePrune(db: DB, lastPruned: uint64, height: uint64, ghost c: Chain) returns (ws: seq<Write>)
    requires BlocksImage(db, c) && c.pruned == lastPruned < height <= Top(c)
    ensures ws == PruneAll(c, lastPruned, height)
  {
    ws := [];
    var h := lastPruned + 1;
    while h <= height
      invariant lastPruned < h <= height + 1 && ws == PruneAll(c, lastPruned, h - 1)
    {
      assert Shows(db, c, HeaderKey(h));
      if HeaderKey(h) in db {
        var headerBlob := db[HeaderKey(h)].header;
        ghost var before := ws;
        ws := ws + [Delete(HeaderKey(h))];
        ws := ws + [Delete(DataKey(h))];
        ws := ws + [Delete(SignatureKey(h))];
        ws := ws + [Delete(MetaKey(HeaderDAHeight(h)))];
        ws := ws + [Delete(MetaKey(DataDAHeight(h)))];
        ws := ws + [Delete(IndexKey(headerBlob))];
        assert ws == before + PruneWrites(h, headerBlob);
      }
      h := h + 1;
    }
  }

  lemma {:induction false} ApplyPut(db: DB, ws: seq<Write>, k: Key, v: Value)
    ensures Apply(db, ws + [Put(k, v)]) == Apply(db, ws)[k := v]
  {
    assert (ws + [Put(k, v)])[..|ws|] == ws;
  }

  function StatesOutside(states: map<nat, seq<byte>>, lo: nat, hi: nat): map<nat, seq<byte>> {
    map k | k in states && !(lo < k <= hi) :: states[k]
  }

  /** The staged writes delete the states of (lo, h] and nothing else. */
  ghost predicate StatesStaged(db: DB, ws: seq<Write>, c: Chain, lo: nat, h: nat) {
    BlocksImage(Apply(db, ws), c.(states := StatesOutside(c.states, lo, h))) && SameRest(db, Apply(db, ws))
  }

  lemma {:induction false} StageStateNone(db: DB, c: Chain, lo: nat)
    requires BlocksImage(db, c)
    ensures StatesStaged(db, [], c, lo, lo)
  {
    assert StatesOutside(c.states, lo, lo) == c.states;
  }

  lemma {:induction false} StageStateOne(db: DB, ws: seq<Write>, c: Chain, lo: nat, h: nat)
    requires lo < h && StatesStaged(db, ws, c, lo, h - 1)
    ensures StatesStaged(db, ws + [Delete(StateKey(h))], c, lo, h)
  {
    assert (ws + [Delete(StateKey(h))])[..|ws|] == ws;
    var db' := Apply(db, ws + [Delete(StateKey(h))]);
    assert db' == Apply(db, ws) - {StateKey(h)};
    forall k: Key ensures Shows(db', c.(states := StatesOutside(c.states, lo, h)), k) {
      assert Shows(Apply(db, ws), c.(states := StatesOutside(c.states, lo, h - 1)), k);
    }
  }

  ghost function StateDeletes(lo: nat, h: nat): seq<Write> {
    if h <= lo then [] else StateDeletes(lo, h - 1) + [Delete(StateKey(h))]
  }

  lemma {:induction false} StateDeletesStaged(db: DB, c: Chain, lo: nat, h: nat)
    requires BlocksImage(db, c) && lo <= h
    ensures StatesStaged(db, StateDeletes(lo, h), c, lo, h)
    decreases h
  {
    if h == lo {
      StageStateNone(db, c, lo);
    } else {
      StateDeletesStaged(db, c, lo, h - 1);
      StageStateOne(db, StateDeletes(lo, h - 1), c, lo, h);
    }
  }

  /** The loop of PruneStates over (lastPruned, height]. */
  method StageStates(lastPruned: uint64, height: uint64) returns (ws: seq<Write>)
    requires lastPruned < height < TWO64 - 1
    ensures ws == StateDeletes(lastPruned, height)
  {
    ws := [];
    var h: uint64 := lastPruned + 1;
    while h <= height
      invariant lastPruned < h <= height + 1 && ws == StateDeletes(lastPruned, h - 1)
    {
      ws := ws + [Delete(StateKey(h))];
      h := h + 1;
    }
  }

  // ---------------------------------------------------------------- the store

  function HeaderAt(c: Chain, h: nat): Option<HeaderBlob> {
    if InSegment(c, h) then Some(BlockAt(c, h).header) else None
  }

  function BlockDataAt(c: Chain, h: nat): Option<(HeaderBlob, seq<byte>)> {
    if InSegment(c, h) then Some((BlockAt(c, h).header, BlockAt(c, h).data)) else None
  }

  class DefaultStore {
    var db: DB
    ghost var chain: Chain

    ghost predicate Valid()
      reads this
    {
      Image(db, chain)
    }

    constructor ()
      ensures Valid() && chain == EMPTY_CHAIN
    {
      db := map[];
      chain := EMPTY_CHAIN;
    }

    method Height() returns (h: nat)
      requires Valid()
      ensures h == Top(chain)
    {
      h := HeightIn(Lookup(db, HeightKey)).n;
    }

    method GetHeader(h: nat) returns (r: Option<HeaderBlob>)
      requires Valid()
      ensures r == HeaderAt(chain, h)
    {
      assert Shows(db, chain, HeaderKey(h));
      r := if HeaderKey(h) in db then Some(db[HeaderKey(h)].header) else None;
    }

    method GetBlockData(h: nat) returns (r: Option<(HeaderBlob, seq<byte>)>)
      requires Valid()
      ensures r == BlockDataAt(chain, h)
    {
      var header := GetHeader(h);
      assert Shows(db, chain, DataKey(h));
      if header.None? || DataKey(h) !in db {
        return None;
      }
      return Some((header.value, db[DataKey(h)].bytes));
    }

    /** The block with the given header hash is found exactly when it is in the stored segment. */
    method GetBlockByHash(sha: HeaderBlob) returns (r: Option<(HeaderBlob, seq<byte>)>)
      requires Valid()
      ensures r.Some? <==> InSegment(chain, sha.height) && BlockAt(chain, sha.height).header == sha
      ensures r.Some? ==> r.value == (sha, BlockAt(chain, sha.height).data)
    {
      assert Shows(db, chain, IndexKey(sha));
      if IndexKey(sha) !in db {
        return None;
      }
      RoundTrip(sha.height, []);
      var d := Decode(db[IndexKey(sha)].bytes);
      r := GetBlockData(d.n);
    }

    /** SaveBlockData, SetHeight and UpdateState in one batch. A failed commit changes nothing. */
    method Commit(b: Block, ok: bool)
      requires Valid() && Follows(chain, b)
      modifies this
      ensures Valid() && chain == if ok then CommitNext(old(chain), b) else old(chain)
      ensures !ok ==> db == old(db)
    {
      var current := Height();
      var batch := CommitBatch(b, current, db);
      if ok {
        CommitImage(db, chain, b);
        db := Apply(db, batch);
        chain := CommitNext(chain, b);
      }
    }

    /** A refused or failed rollback changes nothing; a successful one leaves exactly the shorter segment, at or above
        the pruned height, with the DA-included height not above the new height. */
    method Rollback(height: uint64, aggregator: bool, commits: bool) returns (ok: bool)
      requires Valid()
      modifies this
      ensures Valid()
      ensures ok <==> commits && RollbackAllowed(old(chain), height, aggregator)
      ensures ok ==> chain == RolledBack(old(chain), height)
      ensures !ok ==> db == old(db) && chain == old(chain)
    {
      var currentHeight := Height();
      if currentHeight <= height {
        return false;
      }
      var staged, batch := StageDAIncluded(db, height, aggregator, chain);
      if !staged {
        return false;
      }
      ghost var marked := batch;
      staged, batch := StageRollback(db, batch, height, currentHeight, chain);
      if !staged {
        return false;
      }
      ghost var cut := batch;
      RollbackWritesCut(db, marked, chain, height);
      batch := batch + [Put(HeightKey, Raw(Encode(height)))];
      if !commits {
        return false;
      }
      RolledBackImage(db, marked, cut, chain, height);
      db := Apply(db, batch);
      chain := RolledBack(chain, height);
      return true;
    }

    /** Up to at most the current height: the segment then starts above `height`, and the DA heights recorded for the
        removed blocks are gone with them. */
    method PruneBlocks(height: uint64, commits: bool)
      requires Valid() && height <= Top(chain)
      modifies this
      ensures Valid() && chain == if commits then PrunedTo(old(chain), height) else old(chain)
      ensures !commits || height <= old(chain).pruned ==> db == old(db)
      ensures commits && old(chain).pruned < height ==>
                forall m: Meta :: m != LastPrunedBlock ==>
                  Lookup(db, MetaKey(m)) ==
                  if PrunedMeta(old(chain), height, m) then None else Lookup(old(db), MetaKey(m))
    {
      var lastPruned := HeightIn(Lookup(db, MetaKey(LastPrunedBlock))).n;
      if height <= lastPruned {
        return;
      }
      var batch := StagePrune(db, lastPruned, height, chain);
      PruneAllImage(db, chain, height);
      ghost var mid := Apply(db, batch);
      ApplyPut(db, batch, MetaKey(LastPrunedBlock), Raw(Encode(height)));
      batch := batch + [Put(MetaKey(LastPrunedBlock), Raw(Encode(height)))];
      if commits {
        PrunedImage(db, mid, chain, height);
        forall m: Meta
          ensures Lookup(mid, MetaKey(m)) == if PrunedMeta(chain, height, m) then None else Lookup(db, MetaKey(m))
        {
          PruneDropsDAHeights(db, chain, height, m);
        }
        db := Apply(db, batch);
        chain := PrunedTo(chain, height);
      }
    }

    method PruneStates(height: uint64, commits: bool)
      requires Valid() && height < TWO64 - 1
      modifies this
      ensures Valid() && chain == if commits then StatesPrunedTo(old(chain), height) else old(chain)
      ensures !commits || height <= old(chain).prunedStates ==> db == old(db)
    {
      var lastPruned := HeightIn(Lookup(db, MetaKey(LastPrunedState))).n;
      if height <= lastPruned {
        return;
      }
      var batch := StageStates(lastPruned, height);
      StateDeletesStaged(db, chain, lastPruned, height);
      ghost var mid := Apply(db, batch);
      ApplyPut(db, batch, MetaKey(LastPrunedState), Raw(Encode(height)));
      batch := batch + [Put(MetaKey(LastPrunedState), Raw(Encode(height)))];
      if commits {
        StatesPrunedImage(db, mid, chain, height);
        db := Apply(db, batch);
        chain := StatesPrunedTo(chain, height);
      }
    }

    /** The DA-included height, written as metadata by the submitter. */
    method SetDAIncluded(d: uint64)
      requires Valid() && d <= Top(chain)
      modifies this
      ensures Valid() && chain == old(chain).(da := Some(d))
    {
      WriteMarker(db, chain, chain.(da := Some(d)), MetaKey(DAIncluded), Raw(Encode(d)));
      StoredIn(d);
      db := db[MetaKey(DAIncluded) := Raw(Encode(d))];
      chain := chain.(da := Some(d));
    }
  }

  /** The height is only ever raised. */
  method CommitBatch(b: Block, current: nat, ghost db: DB) returns (batch: seq<Write>)
    requires b.header.height < TWO64
    ensures Apply(db, batch) == if b.header.height > current then Committed(db, b)
                                else Saved(db, b)[StateKey(b.header.height) := Raw(b.state)]
  {
    var h := b.header.height;
    batch := [];
    ApplyPut(db, batch, HeaderKey(h), Blob(b.header));
    batch := batch + [Put(HeaderKey(h), Blob(b.header))];
    ApplyPut(db, batch, DataKey(h), Raw(b.data));
    batch := batch + [Put(DataKey(h), Raw(b.data))];
    ApplyPut(db, batch, SignatureKey(h), Raw(b.signature));
    batch := batch + [Put(SignatureKey(h), Raw(b.signature))];
    ApplyPut(db, batch, IndexKey(b.header), Raw(Encode(h)));
    batch := batch + [Put(IndexKey(b.header), Raw(Encode(h)))];
    if h > current {
      ApplyPut(db, batch, HeightKey, Raw(Encode(h)));
      batch := batch + [Put(HeightKey, Raw(Encode(h)))];
    }
    ApplyPut(db, batch, StateKey(h), Raw(b.state));
    batch := batch + [Put(StateKey(h), Raw(b.state))];
  }

  /** The database with the DA-included height lowered to `h`. */
  function Lowered(db: DB, c: Chain, h: uint64): DB {
    if c.da.Some? && c.da.value > h then db[MetaKey(DAIncluded) := Raw(Encode(h))] else db
  }

  /** An aggregator refuses to drop finalized blocks; other nodes lower the DA-included height. */
  method StageDAIncluded(db: DB, height: uint64, aggregator: bool, ghost c: Chain) returns (ok: bool, ws: seq<Write>)
    requires Image(db, c)
    ensures ok <==> !(aggregator && c.da.Some? && c.da.value > height)
    ensures ok ==> Apply(db, ws) == Lowered(db, c, height) && BlocksImage(Apply(db, ws), c)
  {
    ws := [];
    var da := DAIn(Lookup(db, MetaKey(DAIncluded)));
    if da.Some? && da.value > height {
      if aggregator {
        return false, ws;
      }
      ApplyPut(db, [], MetaKey(DAIncluded), Raw(Encode(height)));
      ws := ws + [Put(MetaKey(DAIncluded), Raw(Encode(height)))];
      WriteMarker(db, c, c, MetaKey(DAIncluded), Raw(Encode(height)));
    }
    return true, ws;
  }

  lemma {:induction false} CutMarkers(db: DB, cut: DB, c: Chain, h: uint64)
    requires MarkersImage(db, c) && c.base <= h < Top(c) && SameRest(Lowered(db, c, h), cut)
    ensures var db' := cut[HeightKey := Raw(Encode(h))];
            MarkersImage(db', RolledBack(c, h)) && HeightIn(Lookup(db', HeightKey)) == Decoded(h)
  {
    var db' := cut[HeightKey := Raw(Encode(h))];
    var base := Lowered(db, c, h);
    StoredIn(h);
    assert Lookup(db', MetaKey(LastPrunedBlock)) == Lookup(cut, MetaKey(LastPrunedBlock))
        == Lookup(base, MetaKey(LastPrunedBlock));
    assert Lookup(db', MetaKey(LastPrunedState)) == Lookup(cut, MetaKey(LastPrunedState))
        == Lookup(base, MetaKey(LastPrunedState));
    assert Lookup(db', MetaKey(DAIncluded)) == Lookup(cut, MetaKey(DAIncluded)) == Lookup(base, MetaKey(DAIncluded));
    assert Lookup(db', HeightKey) == Some(Raw(Encode(h)));
  }

  /** Staged markers, then the cut, then the new height: the image of the shorter chain. */
  lemma {:induction false} RolledBackImage(db: DB, marked: seq<Write>, cut: seq<Write>, c: Chain, h: uint64)
    requires Image(db, c) && c.base <= h < Top(c) && c.pruned <= h && Apply(db, marked) == Lowered(db, c, h)
    requires BlocksImage(Apply(db, cut), Cut(c, h)) && SameRest(Apply(db, marked), Apply(db, cut))
    ensures Image(Apply(db, cut + [Put(HeightKey, Raw(Encode(h)))]), RolledBack(c, h))
  {
    ApplyPut(db, cut, HeightKey, Raw(Encode(h)));
    WriteMarker(Apply(db, cut), Cut(c, h), RolledBack(c, h), HeightKey, Raw(Encode(h)));
    CutMarkers(db, Apply(db, cut), c, h);
  }

  lemma {:induction false} PrunedMarkers(db: DB, mid: DB, c: Chain, h: uint64)
    requires MarkersImage(db, c) && c.pruned < h && SameMarkers(db, mid)
    ensures var db' := mid[MetaKey(LastPrunedBlock) := Raw(Encode(h))];
            MarkersImage(db', PrunedTo(c, h)) && Lookup(db', HeightKey) == Lookup(db, HeightKey)
  {
    var db' := mid[MetaKey(LastPrunedBlock) := Raw(Encode(h))];
    StoredIn(h);
    assert Lookup(db', MetaKey(LastPrunedBlock)) == Some(Raw(Encode(h)));
    assert Lookup(db', MetaKey(LastPrunedState)) == Lookup(mid, MetaKey(LastPrunedState));
    assert Lookup(db', MetaKey(DAIncluded)) == Lookup(mid, MetaKey(DAIncluded));
    assert Lookup(db', HeightKey) == Lookup(mid, HeightKey);
  }

  lemma {:induction false} PrunedImage(db: DB, mid: DB, c: Chain, h: uint64)
    requires Image(db, c) && c.pruned < h <= Top(c)
    requires BlocksImage(mid, c.(pruned := h)) && SameMarkers(db, mid)
    ensures Image(mid[MetaKey(LastPrunedBlock) := Raw(Encode(h))], PrunedTo(c, h))
  {
    PrunedMarkers(db, mid, c, h);
    WriteMarker(mid, c.(pruned := h), PrunedTo(c, h), MetaKey(LastPrunedBlock), Raw(Encode(h)));
  }

  lemma {:induction false} StatesPrunedMarkers(db: DB, mid: DB, c: Chain, h: uint64)
    requires MarkersImage(db, c) && c.prunedStates < h && SameRest(db, mid)
    ensures var db' := mid[MetaKey(LastPrunedState) := Raw(Encode(h))];
            MarkersImage(db', StatesPrunedTo(c, h)) && Lookup(db', HeightKey) == Lookup(db, HeightKey)
  {
    var db' := mid[MetaKey(LastPrunedState) := Raw(Encode(h))];
    StoredIn(h);
    assert Lookup(db', MetaKey(LastPrunedState)) == Some(Raw(Encode(h)));
    assert Lookup(db', MetaKey(LastPrunedBlock)) == Lookup(mid, MetaKey(LastPrunedBlock));
    assert Lookup(db', MetaKey(DAIncluded)) == Lookup(mid, MetaKey(DAIncluded));
    assert Lookup(db', HeightKey) == Lookup(mid, HeightKey);
  }

  lemma {:induction false} StatesPrunedImage(db: DB, mid: DB, c: Chain, h: uint64)
    requires Image(db, c) && c.prunedStates < h
    requires BlocksImage(mid, c.(states := StatesOutside(c.states, c.prunedStates, h))) && SameRest(db, mid)
    ensures Image(mid[MetaKey(LastPrunedState) := Raw(Encode(h))], StatesPrunedTo(c, h))
  {
    StatesPrunedMarkers(db, mid, c, h);
    WriteMarker(mid, c.(states := StatesOutside(c.states, c.prunedStates, h)), StatesPrunedTo(c, h),
                MetaKey(LastPrunedState), Raw(Encode(h)));
  }

  // ---------------------------------------------------------------- whole runs

  datatype Op =
    | DoCommit(block: Block, ok: bool)
    | DoRollback(height: uint64, aggregator: bool, commits: bool)
    | DoPruneBlocks(height: uint64, commits: bool)
    | DoPruneStates(height: uint64, commits: bool)
    | DoSetDA(da: uint64)

  /** The next block is committed, blocks are pruned up to at most the height, and the DA-included height is at most the
      height; other calls are not part of a run. */
  predicate Allowed(c: Chain, op: Op) {
    match op
    case DoCommit(b, _) => Follows(c, b)
    case DoRollback(_, _, _) => true
    case DoPruneBlocks(h, _) => h <= Top(c)
    case DoPruneStates(h, _) => h < TWO64 - 1
    case DoSetDA(d) => d <= Top(c)
  }

  function RunOne(c: Chain, op: Op): Chain {
    if !Allowed(c, op) then c
    else match op
      case DoCommit(b, ok) => if ok then CommitNext(c, b) else c
      case DoRollback(h, aggregator, commits) =>
        if commits && RollbackAllowed(c, h, aggregator) then RolledBack(c, h) else c
      case DoPruneBlocks(h, commits) => if commits then PrunedTo(c, h) else c
      case DoPruneStates(h, commits) => if commits then StatesPrunedTo(c, h) else c
      case DoSetDA(d) => c.(da := Some(d))
  }

  function RunAll(ops: seq<Op>): Chain {
    if ops == [] then EMPTY_CHAIN else RunOne(RunAll(ops[..|ops| - 1]), ops[|ops| - 1])
  }

  method DriveOne(s: DefaultStore, op: Op)
    requires s.Valid()
    modifies s
    ensures s.Valid() && s.chain == RunOne(old(s.chain), op)
  {
    var current := s.Height();
    match op {
      case DoCommit(b, ok) =>
        if 0 < b.header.height < TWO64 - 1 && (current == 0 || b.header.height == current + 1) {
          s.Commit(b, ok);
        }
      case DoRollback(h, aggregator, commits) =>
        var _ := s.Rollback(h, aggregator, commits);
      case DoPruneBlocks(h, commits) =>
        if h <= current {
          s.PruneBlocks(h, commits);
        }
      case DoPruneStates(h, commits) =>
        if h < TWO64 - 1 {
          s.PruneStates(h, commits);
        }
      case DoSetDA(d) =>
        if d <= current {
          s.SetDAIncluded(d);
        }
    }
  }

  /** After every run the database is exactly the image of the chain the run stands for. */
  method Drive(ops: seq<Op>) returns (db: DB)
    ensures Image(db, RunAll(ops))
  {
    var s := new DefaultStore();
    for i := 0 to |ops|
      invariant fresh(s) && s.Valid() && s.chain == RunAll(ops[..i])
    {
      assert ops[..i + 1][..i] == ops[..i];
      DriveOne(s, ops[i]);
    }
    assert ops[..|ops|] == ops;
    db := s.db;
  }

  /** A rollback is refused unless every header it drops is on disk and, for an aggregator, none of the dropped blocks
      is included in the DA layer. */
  lemma {:induction false} RollbackRefusedExactly(db: DB, c: Chain, h: nat, aggregator: bool)
    requires Image(db, c)
    ensures RollbackAllowed(c, h, aggregator) <==>
            && h < Top(c)
            && (forall k: nat :: h < k <= Top(c) ==> HeaderKey(k) in db)
            && (aggregator && c.da.Some? ==> !(h < c.da.value <= Top(c)))
  {
    forall k: nat ensures HeaderKey(k) in db <==> InSegment(c, k) {
      assert Shows(db, c, HeaderKey(k));
    }
    if h < Top(c) && !(c.pruned <= h && c.base <= h) {
      assert !InSegment(c, h + 1);
    }
  }

  /** What rollback promises: the blocks and states left are exactly the old ones up to the height, which is at or above
      the pruned height, the next block can be committed on them, and the DA-included height changes only where it was
      above them: it is then the height itself. */
  lemma {:induction false} RollbackPromise(c: Chain, h: uint64, aggregator: bool)
    requires ChainOk(c) && RollbackAllowed(c, h, aggregator)
    ensures var c' := RolledBack(c, h);
            && ChainOk(c') && Top(c') == h >= c'.pruned == c.pruned && c'.base == c.base && c'.blocks <= c.blocks
            && c'.prunedStates == c.prunedStates
            && (forall k :: k in c'.states <==> k in c.states && k <= h)
            && (forall k :: k in c'.states ==> c'.states[k] == c.states[k])
            && (aggregator || c.da.None? || c.da.value <= h ==> c'.da == c.da)
            && (c.da.Some? && h < c.da.value ==> c'.da == Some(h))
  {
  }

  /** Rolling back a commit gives back the chain it was made on. */
  lemma {:induction false} RollbackUndoesCommit(c: Chain, b: Block, aggregator: bool)
    requires ChainOk(c) && Follows(c, b) && b.header.height == Top(c) + 1
    ensures RollbackAllowed(CommitNext(c, b), Top(c), aggregator)
    ensures RolledBack(CommitNext(c, b), Top(c)) == c
  {
    var c' := CommitNext(c, b);
    assert c'.blocks[..|c.blocks|] == c.blocks;
    assert RolledBack(c', Top(c)).states == c.states;
  }

  /** States are kept for exactly the heights of the chain above `prunedStates`. */
  ghost predicate StatesExact(c: Chain) {
    forall h: nat :: h in c.states <==> c.prunedStates < h && c.base < h <= Top(c)
  }

  /** The heights that were committed at or below the state-prune marker and not rolled back since. Rollback does not
      lower the marker. */
  ghost function Late(ops: seq<Op>): set<nat> {
    if ops == [] then {}
    else
      var before, op := ops[..|ops| - 1], ops[|ops| - 1];
      LateAfter(RunAll(before), Late(before), op)
  }

  ghost function LateAfter(c: Chain, late: set<nat>, op: Op): set<nat> {
    if !Allowed(c, op) then late
    else match op
      case DoCommit(b, ok) => if ok && b.header.height <= c.prunedStates then late + {b.header.height} else late
      case DoRollback(h, aggregator, commits) =>
        if commits && RollbackAllowed(c, h, aggregator) then set k | k in late && k <= h else late
      case _ => late
  }

  /** The kept states are those of the chain above the marker, and the late ones. */
  ghost predicate StatesWithLate(c: Chain, late: set<nat>) {
    && (forall k: nat :: k in c.states <==> c.base < k <= Top(c) && (c.prunedStates < k || k in late))
    && (forall k :: k in late ==> k <= c.prunedStates && c.base < k <= Top(c))
  }

  lemma {:induction false} LateStep(c: Chain, late: set<nat>, op: Op)
    requires StatesWithLate(c, late)
    ensures StatesWithLate(RunOne(c, op), LateAfter(c, late, op))
  {
  }

  lemma {:induction false} RunKeepsStates(ops: seq<Op>)
    ensures StatesWithLate(RunAll(ops), Late(ops))
  {
    if ops != [] {
      var before := ops[..|ops| - 1];
      RunKeepsStates(before);
      LateStep(RunAll(before), Late(before), ops[|ops| - 1]);
    }
  }

  /** After every run the kept states are exactly those of the chain above the marker if and only if every block that
      was committed at or below the marker has been rolled back. */
  lemma {:induction false} StatesStayExact(ops: seq<Op>)
    ensures StatesExact(RunAll(ops)) <==> Late(ops) == {}
  {
    RunKeepsStates(ops);
    var c := RunAll(ops);
    if Late(ops) != {} {
      var k :| k in Late(ops);
      assert k in c.states;
    }
  }

  lemma {:induction false} RunPrefix(ops: seq<Op>, i: nat)
    requires i < |ops|
    ensures RunAll(ops[..i + 1]) == RunOne(RunAll(ops[..i]), ops[i])
    ensures Late(ops[..i + 1]) == LateAfter(RunAll(ops[..i]), Late(ops[..i]), ops[i])
  {
    assert ops[..i + 1][..i] == ops[..i];
  }

  function Blank(h: nat): Block {
    Block(HeaderBlob(h, []), [], [], [])
  }

  const STRAY_RUN := [DoCommit(Blank(1), true), DoCommit(Blank(2), true), DoPruneStates(2, true),
                      DoRollback(1, false, true), DoCommit(Blank(2), true)]

  lemma {:induction false} StatesPruned()
    ensures RunAll(STRAY_RUN[..3]) == Chain(0, [Blank(1), Blank(2)], 0, map[], 2, None) && Late(STRAY_RUN[..3]) == {}
  {
    assert STRAY_RUN[..0] == [];
    RunPrefix(STRAY_RUN, 0);
    var c1 := RunAll(STRAY_RUN[..1]);
    assert c1 == Chain(0, [Blank(1)], 0, map[1 := []], 0, None);
    RunPrefix(STRAY_RUN, 1);
    var c2 := RunAll(STRAY_RUN[..2]);
    assert c2 == Chain(0, [Blank(1), Blank(2)], 0, map[1 := [], 2 := []], 0, None);
    RunPrefix(STRAY_RUN, 2);
  }

  /** A late state survives everything but a rollback below it. */
  lemma {:induction false} LateStateStays(ops: seq<Op>, more: seq<Op>, k: nat)
    requires k in Late(ops)
    requires forall i :: 0 <= i < |more| && more[i].DoRollback? ==> k <= more[i].height
    ensures k in Late(ops + more) && k in RunAll(ops + more).states
    decreases |more|
  {
    if more == [] {
      assert ops + more == ops;
      RunKeepsStates(ops);
    } else {
      var init := more[..|more| - 1];
      LateStateStays(ops, init, k);
      assert (ops + more)[..|ops + more| - 1] == ops + init;
      RunKeepsStates(ops + more);
    }
  }

  /** Two blocks, PruneStates(2), Rollback(1), block 2 again: its state stays, however far states are pruned
      afterwards. */
  lemma {:induction false} StateIsNeverPruned()
    ensures Late(STRAY_RUN) == {2} && !StatesExact(RunAll(STRAY_RUN))
    ensures forall h: uint64, ok: bool :: 2 in RunAll(STRAY_RUN + [DoPruneStates(h, ok)]).states
  {
    StatesPruned();
    RunPrefix(STRAY_RUN, 3);
    var c4 := RunAll(STRAY_RUN[..4]);
    assert c4 == Chain(0, [Blank(1)], 0, map[], 2, None);
    RunPrefix(STRAY_RUN, 4);
    assert STRAY_RUN[..5] == STRAY_RUN;
    StatesStayExact(STRAY_RUN);
    forall h: uint64, ok: bool ensures 2 in RunAll(STRAY_RUN + [DoPruneStates(h, ok)]).states {
      LateStateStays(STRAY_RUN, [DoPruneStates(h, ok)], 2);
    }
  }
}
