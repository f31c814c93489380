/** The LRU layer over the block store answers every read as the plain store would. */
module CachedStore {
  import opened Common
  import opened LittleEndian
  import opened BlockStore

  /** Every cached entry is what the store holds at that height. */
  ghost predicate Coherent(c: Chain, headers: map<nat, HeaderBlob>, blocks: map<nat, (HeaderBlob, seq<byte>)>) {
    && (forall h :: h in headers ==> HeaderAt(c, h) == Some(headers[h]))
    && (forall h :: h in blocks ==> BlockDataAt(c, h) == Some(blocks[h]))
  }

  /** Removing the rolled back heights is enough: the heights below keep their blocks. */
  lemma CoherentAfterRollback(
      c: Chain, h: uint64, headers: map<nat, HeaderBlob>, blocks: map<nat, (HeaderBlob, seq<byte>)>)
    requires Coherent(c, headers, blocks) && c.base <= h < Top(c)
    requires forall k :: h < k <= Top(c) ==> k !in headers && k !in blocks
    ensures Coherent(RolledBack(c, h), headers, blocks)
  {
    assert RolledBack(c, h).blocks == c.blocks[..h - c.base];
  }

  class Cached {
    const store: DefaultStore
    var headerCache: map<nat, HeaderBlob>
    var blockDataCache: map<nat, (HeaderBlob, seq<byte>)>

    ghost predicate Valid()
      reads this, store
    {
      store.Valid() && Coherent(store.chain, headerCache, blockDataCache)
    }

    constructor (store: DefaultStore)
      requires store.Valid()
      ensures Valid() && this.store == store
    {
      this.store := store;
      headerCache, blockDataCache := map[], map[];
    }

    /** The library may drop any entries of a cache when one is added to it; the two caches evict on their own. */
    method Evict(headers: set<nat>, blocks: set<nat>)
      requires Valid()
      modifies this
      ensures Valid() && headerCache == old(headerCache) - headers && blockDataCache == old(blockDataCache) - blocks
    {
      headerCache := headerCache - headers;
      blockDataCache := blockDataCache - blocks;
    }

    method GetHeader(h: nat, victims: set<nat>) returns (r: Option<HeaderBlob>)
      requires Valid()
      modifies this
      ensures Valid() && r == HeaderAt(store.chain, h)
    {
      if h in headerCache {
        return Some(headerCache[h]);
      }
      r := store.GetHeader(h);
      if r.Some? {
        headerCache := headerCache[h := r.value];
        Evict(victims, {});
      }
    }

    method GetBlockData(h: nat, headers: set<nat>, blocks: set<nat>) returns (r: Option<(HeaderBlob, seq<byte>)>)
      requires Valid()
      modifies this
      ensures Valid() && r == BlockDataAt(store.chain, h)
    {
      if h in blockDataCache {
        return Some(blockDataCache[h]);
      }
      r := store.GetBlockData(h);
      if r.Some? {
        blockDataCache := blockDataCache[h := r.value];
        headerCache := headerCache[h := r.value.0];
        Evict(headers, blocks);
      }
    }

    method InvalidateRange(from: nat, to: nat)
      modifies this
      ensures headerCache == map k | k in old(headerCache) && !(from <= k <= to) :: old(headerCache)[k]
      ensures blockDataCache == map k | k in old(blockDataCache) && !(from <= k <= to) :: old(blockDataCache)[k]
    {
      var h := from;
      while h <= to
        invariant from <= h && (if from <= to then h <= to + 1 else h == from)
        invariant forall k :: k in headerCache <==> k in old(headerCache) && !(from <= k < h)
        invariant forall k :: k in headerCache ==> headerCache[k] == old(headerCache)[k]
        invariant forall k :: k in blockDataCache <==> k in old(blockDataCache) && !(from <= k < h)
        invariant forall k :: k in blockDataCache ==> blockDataCache[k] == old(blockDataCache)[k]
      {
        headerCache := headerCache - {h};
        blockDataCache := blockDataCache - {h};
        h := h + 1;
      }
    }

    method Commit(b: Block, ok: bool)
      requires Valid() && Follows(store.chain, b)
      modifies this, store
      ensures Valid() && store.chain == if ok then CommitNext(old(store.chain), b) else old(store.chain)
    {
      store.Commit(b, ok);
    }

    method Rollback(height: uint64, aggregator: bool, commits: bool) returns (ok: bool)
      requires Valid()
      modifies this, store
      ensures Valid()
      ensures ok <==> commits && RollbackAllowed(old(store.chain), height, aggregator)
      ensures store.chain == if ok then RolledBack(old(store.chain), height) else old(store.chain)
    {
      var currentHeight := store.Height();
      ghost var before := store.chain;
      ok := store.Rollback(height, aggregator, commits);
      if ok {
        InvalidateRange(height + 1, currentHeight);
        CoherentAfterRollback(before, height, headerCache, blockDataCache);
      }
    }

    method PruneBlocks(height: uint64, commits: bool)
      requires Valid() && height <= Top(store.chain)
      modifies this, store
      ensures Valid() && store.chain == if commits then PrunedTo(old(store.chain), height) else old(store.chain)
    {
      store.PruneBlocks(height, commits);
      if commits {
        InvalidateRange(1, height);
      }
    }
  }

  // ---------------------------------------------------------------- whole runs

  datatype Op =
    | Write(op: BlockStore.Op)
    | ReadHeader(h: nat, victims: set<nat>)
    | ReadBlockData(h: nat, headers: set<nat>, blocks: set<nat>)

  datatype Answer = Nothing | Header(header: Option<HeaderBlob>) | BlockData(data: Option<(HeaderBlob, seq<byte>)>)

  /** The commits, rollbacks and prunings among the operations. */
  function Writes(ops: seq<Op>): seq<BlockStore.Op> {
    if ops == [] then []
    else
      var rest := Writes(ops[..|ops| - 1]);
      var last := ops[|ops| - 1];
      if Changes(last) then rest + [last.op] else rest
  }

  predicate Changes(op: Op) {
    op.Write? && (op.op.DoCommit? || op.op.DoRollback? || op.op.DoPruneBlocks?)
  }

  /** The chain after one more operation. */
  function After(c: Chain, op: Op): Chain {
    if Changes(op) then RunOne(c, op.op) else c
  }

  lemma {:induction false} RunOneMore(before: seq<Op>, op: Op)
    ensures RunAll(Writes(before + [op])) == After(RunAll(Writes(before)), op)
  {
    assert (before + [op])[..|before|] == before;
    var ws := Writes(before);
    if Changes(op) {
      assert (ws + [op.op])[..|ws|] == ws;
    }
  }

  function AnswerOf(c: Chain, op: Op): Answer {
    match op
    case Write(_) => Nothing
    case ReadHeader(h, _) => Header(HeaderAt(c, h))
    case ReadBlockData(h, _, _) => BlockData(BlockDataAt(c, h))
  }

  /** What the uncached store would answer after the writes before the read. */
  function PlainAnswer(ops: seq<Op>, i: nat): Answer
    requires i < |ops|
  {
    AnswerOf(RunAll(Writes(ops[..i])), ops[i])
  }

  /** In every run, with any evictions, the cached store answers every read exactly as the uncached store, also after a
      rollback and a different block at the same height. */
  method Drive(ops: seq<Op>) returns (answers: seq<Answer>)
    ensures |answers| == |ops|
    ensures forall i :: 0 <= i < |ops| ==> answers[i] == PlainAnswer(ops, i)
  {
    var plain := new DefaultStore();
    var s := new Cached(plain);
    answers := [];
    for i := 0 to |ops|
      invariant fresh(s) && fresh(plain) && s.store == plain && s.Valid()
      invariant plain.chain == RunAll(Writes(ops[..i]))
      invariant |answers| == i && forall k :: 0 <= k < i ==> answers[k] == PlainAnswer(ops, k)
    {
      RunOneMore(ops[..i], ops[i]);
      assert ops[..i + 1] == ops[..i] + [ops[i]];
      var a := DriveOne(s, ops[i]);
      answers := answers + [a];
    }
  }

  method DriveOne(s: Cached, op: Op) returns (a: Answer)
    requires s.Valid()
    modifies s, s.store
    ensures s.Valid() && s.store.chain == After(old(s.store.chain), op)
    ensures a == AnswerOf(old(s.store.chain), op)
  {
    match op {
      case ReadHeader(h, victims) =>
        var r := s.GetHeader(h, victims);
        a := Header(r);
      case ReadBlockData(h, headers, blocks) =>
        var r := s.GetBlockData(h, headers, blocks);
        a := BlockData(r);
      case Write(w) =>
        DriveWrite(s, w);
        a := Nothing;
    }
  }

  method DriveWrite(s: Cached, op: BlockStore.Op)
    requires s.Valid()
    modifies s, s.store
    ensures s.Valid() && s.store.chain == After(old(s.store.chain), Write(op))
  {
    var current := s.store.Height();
    match op {
      case DoCommit(b, ok) =>
        if 0 < b.header.height < TWO64 - 1 && (current == 0 || b.header.height == current + 1) {
          s.Commit(b, ok);
        }
      case DoRollback(h, aggregator, commits) =>
        var _ := s.Rollback(h, aggregator, commits);
      case DoPruneBlocks(h, commits) =>
        if h <= current {
          s.PruneBlocks(h, commits);
        }
      case _ =>
    }
  }
}
