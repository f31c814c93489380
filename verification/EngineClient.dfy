/** The engine client with its mutable fields. Every method is proved to do to the fields, the execution layer and the
    records exactly what the state machine of EngineSpec says. */
module EngineClient {
  import opened Common
  import opened ExecutionLayer
  import opened EngineSpec

  /** Deletes the entries below `minHeight`, key by key. */
  method DropBelow(m: map<nat, Block>, minHeight: nat) returns (r: map<nat, Block>)
    ensures r == map k | k in m && k >= minHeight :: m[k]
  {
    r := m;
    var todo := m.Keys;
    while todo != {}
      invariant todo <= m.Keys
      invariant forall k :: k in r <==> k in m && (k in todo || k >= minHeight)
      invariant forall k :: k in r ==> r[k] == m[k]
      decreases |todo|
    {
      var k :| k in todo;
      todo := todo - {k};
      if k < minHeight {
        r := r - {k};
      }
    }
  }

  lemma {:induction false} FilterNext(txs: seq<Tx>, i: nat, validTxs: seq<Tx>)
    requires i < |txs| && validTxs == FilterTransactions(txs[..i])
    ensures FilterTransactions(txs[..i + 1]) == if |txs[i]| == 0 then validTxs else validTxs + [txs[i]]
  {
    assert txs[..i + 1] == txs[..i] + [txs[i]];
    FilterSnoc(txs[..i], txs[i]);
  }

  /** The transactions of the payload: empty ones are skipped. */
  method PayloadTransactions(txs: seq<Tx>) returns (validTxs: seq<Tx>)
    ensures validTxs == FilterTransactions(txs)
  {
    validTxs := [];
    for i := 0 to |txs|
      invariant validTxs == FilterTransactions(txs[..i])
    {
      FilterNext(txs, i, validTxs);
      if |txs[i]| > 0 {
        validTxs := validTxs + [txs[i]];
      }
    }
    assert txs[..|txs|] == txs;
  }

  class Engine {
    var head: Block
    var headHeight: nat
    var safe: Block
    var finalized: Block
    var blockHashCache: map<nat, Block>

    // the outside world, reached by remote calls and database writes
    var el: EL
    var metas: map<nat, ExecMeta>

    function W(): World
      reads this
    {
      World(Client(head, headHeight, safe, finalized, blockHashCache), el, metas)
    }

    /** A client on a world it did not create: labels at genesis, empty cache, records and execution layer as found. */
    constructor (el: EL, metas: map<nat, ExecMeta>)
      ensures W() == World(FRESH_CLIENT, el, metas)
    {
      head, headHeight, safe, finalized := Genesis, 0, Genesis, Genesis;
      blockHashCache := map[];
      this.el := el;
      this.metas := metas;
    }

    // ---------------------------------------------------------------- remote calls and writes

    method ForkchoiceUpdated(h: Block, s: Block, f: Block, o: Rpc) returns (ok: bool)
      modifies this`el
      ensures (el, ok) == Forkchoice(old(el), h, s, f, o)
    {
      ok := false;
      if !o.NotReached? && ForkchoiceValid(el, h, s, f) {
        el := el.(head := h);
        ok := o.Answered?;
      }
    }

    method StartBuild(h: Block, s: Block, f: Block, time: int, txs: seq<Tx>, o: Rpc) returns (id: Option<PayloadId>)
      modifies this`el
      ensures (el, id.Some?) == ForkchoiceBuild(old(el), h, s, f, time, txs, o)
      ensures id.Some? ==> id.value == PayloadId(h, time, txs)
    {
      id := None;
      if !o.NotReached? && ForkchoiceValid(el, h, s, f) {
        el := el.(head := h, payloads := el.payloads + {PayloadId(h, time, txs)});
        if o.Answered? {
          id := Some(PayloadId(h, time, txs));
        }
      }
    }

    method SaveExecMeta(n: nat, m: ExecMeta, kept: bool)
      modifies this`metas
      ensures W() == SaveMeta(old(W()), n, m, kept)
    {
      if kept {
        metas := metas[n := m];
      }
    }

    // ---------------------------------------------------------------- labels

    method CacheBlockHash(h: nat, b: Block)
      modifies this`blockHashCache
      ensures blockHashCache == CachePut(old(blockHashCache), h, b)
    {
      blockHashCache := blockHashCache[h := b];
      if |blockHashCache| > MAX_CACHE_SIZE {
        blockHashCache := DropBelow(blockHashCache, MinCached(h));
      }
    }

    /** The cached hash at a height, or a block look-up on a miss. */
    method FindHash(h: nat, l: Lookup) returns (r: Option<Block>)
      ensures r == LookupHash(W(), h, l)
    {
      if h in blockHashCache {
        return Some(blockHashCache[h]);
      }
      var f := HeaderByNumber(el, h, l);
      r := if f.Found? then Some(f.block) else None;
    }

    method SetHeadBlock(b: Block, o: Rpc)
      modifies this
      ensures W() == SetHead(old(W()), b, o)
    {
      head := b;
      var _ := ForkchoiceUpdated(head, safe, finalized, o);
    }

    method SetFinalAtHeight(b: Block, n: nat, isFinal: bool, safeLookup: Lookup, finalizedLookup: Lookup, o: Rpc)
      returns (ok: bool)
      modifies this
      ensures (W(), ok) == if isFinal then MarkFinal(old(W()), b, o)
                           else SetFinalWithHeight(old(W()), b, n, safeLookup, finalizedLookup, o)
    {
      var safeHash, finalizedHash := None, None;
      if !isFinal && n > SAFE_BLOCK_LAG {
        safeHash := FindHash(n - SAFE_BLOCK_LAG, safeLookup);
      }
      if !isFinal && n > FINALIZED_BLOCK_LAG {
        finalizedHash := FindHash(n - FINALIZED_BLOCK_LAG, finalizedLookup);
      }
      if isFinal {
        finalized := b;
        safe := b;
      } else {
        head := b;
        headHeight := n;
        if safeHash.Some? {
          safe := safeHash.value;
        }
        if finalizedHash.Some? {
          finalized := finalizedHash.value;
        }
      }
      ok := ForkchoiceUpdated(head, safe, finalized, o);
    }

    method SetFinal(n: nat, l: Lookup, headLookup: Lookup, o: Rpc) returns (ok: bool)
      modifies this
      ensures (W(), ok) == EngineSpec.SetFinal(old(W()), n, l, headLookup, o)
    {
      var f := HeaderByNumber(el, n, l);
      if f.Found? {
        ok := SetFinalAtHeight(f.block, 0, true, Served, Served, o);
        return;
      }
      if f.LookupError? {
        return false;
      }
      // history unavailable: skip when the chain is already at or above the height
      return headLookup.Served? && n <= Height(el.head);
    }

    method Rollback(n: nat, l: Lookup, o: Rpc) returns (ok: bool)
      modifies this
      ensures (W(), ok) == EngineSpec.Rollback(old(W()), n, l, o)
    {
      var f := HeaderByNumber(el, n, l);
      if !f.Found? {
        return false;
      }
      head, headHeight, safe, finalized := f.block, n, f.block, f.block;
      ok := ForkchoiceUpdated(f.block, f.block, f.block, o);
    }

    // ---------------------------------------------------------------- execution

    method ReconcileExecutionAtHeight(n: nat, time: int, txs: seq<Tx>, env: Env) returns (d: Decision)
      requires n > 0
      modifies this
      ensures (W(), d) == Reconcile(old(W()), n, time, txs, env)
    {
      if env.metaRead && n in metas {
        var m := metas[n];
        if m.Promoted? && m.time == time {
          var f := HeaderByNumber(el, n, env.promotedLookup);
          if f.Found? && f.block.Block? && f.block.time == time {
            SetHeadBlock(f.block, env.setHead);
            return Reuse(RootOf(f.block));
          }
        }
        if m.Started? && m.time == time && m.txHash == HashTxs(txs) && env.probe && m.id in el.payloads {
          return Resume(m.id);
        }
      }
      var f := HeaderByNumber(el, n, env.existingLookup);
      if f.Found? {
        if f.block.Block? && f.block.time == time {
          SetHeadBlock(f.block, env.setHead);
          SaveExecMeta(n, Promoted(time, HashTxs(txs), RootOf(f.block)), env.reuseWrite);
          return Reuse(RootOf(f.block));
        }
        var _ := Rollback(n - 1, env.rollbackLookup, env.rollback);
      }
      return Fresh;
    }

    method ProcessPayload(id: PayloadId, txs: seq<Tx>, env: Env) returns (root: Option<Root>)
      modifies this
      ensures (W(), root) == EngineSpec.ProcessPayload(old(W()), id, txs, env)
    {
      if !env.getPayload || id !in el.payloads {
        return None;
      }
      var b := Build(id);
      var (el', accepted) := NewPayload(el, b, env.newPayload);
      el := el';
      if !accepted {
        return None;
      }
      CacheBlockHash(Height(b), b);
      var ok := SetFinalAtHeight(b, Height(b), false, env.safeLookup, env.finalizedLookup, env.promote);
      if !ok {
        return None;
      }
      SaveExecMeta(Height(b), Promoted(b.time, HashTxs(txs), RootOf(b)), env.promotedWrite);
      return Some(RootOf(b));
    }

    method ExecuteTxs(n: nat, time: int, txs: seq<Tx>, prevRoot: Option<Root>, env: Env) returns (root: Option<Root>)
      requires n > 0
      modifies this
      ensures (W(), root) == EngineSpec.ExecuteTxs(old(W()), n, time, txs, prevRoot, env)
    {
      var d := ReconcileExecutionAtHeight(n, time, txs, env);
      match d {
        case Reuse(r) => root := Some(r);
        case Resume(id) => root := ProcessPayload(id, txs, env);
        case Fresh => root := ExecuteFresh(n, time, txs, prevRoot, env);
      }
      if !env.proposer {
        root := None;
      }
    }

    method ExecuteFresh(n: nat, time: int, txs: seq<Tx>, prevRoot: Option<Root>, env: Env) returns (root: Option<Root>)
      requires n > 0
      modifies this
      ensures (W(), root) == EngineSpec.ExecuteFresh(old(W()), n, time, txs, prevRoot, env)
    {
      var f := HeaderByNumber(el, n - 1, env.parentLookup);
      if !f.Found? || (prevRoot.Some? && prevRoot.value != RootOf(f.block)) {
        return None;
      }
      CacheBlockHash(n - 1, f.block);
      var payload := PayloadTransactions(txs);
      var id := StartBuild(f.block, safe, finalized, time, payload, env.build);
      if id.None? {
        return None;
      }
      SaveExecMeta(n, Started(time, HashTxs(txs), id.value), env.startedWrite);
      root := ProcessPayload(id.value, txs, env);
    }
  }

  // ---------------------------------------------------------------- the retry loop around every engine call

  /** What one engine call answers. Unknown statuses count as INVALID, ACCEPTED as SYNCING. */
  datatype Status = Valid | Syncing | Accepted | Invalid | Unknown | Transport

  predicate Transient(s: Status) {
    s.Syncing? || s.Accepted?
  }

  /** retryWithBackoffOnPayloadStatus: `replies[i]` is what attempt `i + 1` would answer, `cancelled(i)` whether the
      context ends during the wait after it. It succeeds exactly when some attempt within the limit is VALID, every
      earlier one was transient, and no earlier wait was cancelled; it never calls again after a final answer. */
  method RetryOnPayloadStatus(replies: seq<Status>, cancelled: seq<bool>, maxRetries: nat)
    returns (ok: bool, calls: nat)
    requires |replies| >= maxRetries && |cancelled| >= maxRetries
    ensures calls <= maxRetries
    ensures forall i :: 0 <= i < calls - 1 ==> Transient(replies[i]) && !cancelled[i]
    ensures ok <==> calls > 0 && replies[calls - 1].Valid?
    ensures ok <==> exists i :: 0 <= i < maxRetries && replies[i].Valid? &&
                                forall j :: 0 <= j < i ==> Transient(replies[j]) && !cancelled[j]
    ensures !ok && 0 < calls < maxRetries ==> !Transient(replies[calls - 1]) || cancelled[calls - 1]
  {
    calls := 0;
    while calls < maxRetries
      invariant calls <= maxRetries
      invariant forall i :: 0 <= i < calls ==> Transient(replies[i]) && !cancelled[i]
    {
      calls := calls + 1;
      var s := replies[calls - 1];
      if s.Valid? {
        return true, calls;
      }
      if !Transient(s) {
        return false, calls;
      }
      if calls >= maxRetries || cancelled[calls - 1] {
        return false, calls;
      }
    }
    return false, calls;
  }
}
