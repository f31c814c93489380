/** Fork-choice safety of the engine client over whole runs. */
module EngineSafety {
  import opened Common
  import opened ExecutionLayer
  import opened EngineSpec

  // ---------------------------------------------------------------- the invariant

  ghost predicate MetasAtHeight(metas: map<nat, ExecMeta>) {
    forall n :: n in metas && metas[n].Started? ==> Height(Build(metas[n].id)) == n
  }

  ghost predicate Inv(w: World) {
    && Wf(w.el)
    && Comparable(w.c.head, w.el.head)
    && LabelsOn(w.c, w.c.head) && LabelsOn(w.c, w.el.head)
    && CacheOn(w.c.cache, w.c.head) && CacheOn(w.c.cache, w.el.head)
    && MetasAtHeight(w.metas)
  }

  /** The client has promoted a block more than one height above the served head, and the promotion was not applied. The
      labels can be above the served head. */
  ghost predicate Ahead(w: World) {
    && Wf(w.el)
    && OnChain(w.el.head, w.c.head) && Height(w.c.head) > Height(w.el.head) + 1
    && LabelsOn(w.c, w.c.head) && CacheOn(w.c.cache, w.c.head)
    && MetasAtHeight(w.metas)
  }

  ghost predicate Safe(w: World) {
    Inv(w) || Ahead(w)
  }

  // ---------------------------------------------------------------- small facts

  lemma {:induction false} CachePutOn(m: map<nat, Block>, h: nat, b: Block, head: Block)
    requires CacheOn(m, head)
    requires h <= Height(head) ==> b == At(head, h)
    ensures CacheOn(CachePut(m, h, b), head)
  {
  }

  /** The cache agrees with every block on a chain it agrees with. */
  lemma {:induction false} CacheBelow(m: map<nat, Block>, b: Block, head: Block)
    requires CacheOn(m, head) && OnChain(b, head)
    ensures CacheOn(m, b)
  {
    forall h | h in m && h <= Height(b) ensures m[h] == At(b, h) {
      AtOfAt(head, Height(b), h);
    }
  }

  lemma {:induction false} ServedBelow(el: EL, n: nat, l: Lookup)
    requires Wf(el) && HeaderByNumber(el, n, l).Found?
    ensures var b := HeaderByNumber(el, n, l).block;
            n <= Height(el.head) && b == At(el.head, n) && Height(b) == n && OnChain(b, el.head) && b in el.known
  {
    AncestorKnown(el, el.head, n);
  }

  // ---------------------------------------------------------------- each call keeps the invariant

  /** Moving the execution layer's head down its own chain, with the labels still on it, keeps everything. */
  lemma {:induction false} LowerHeadKeeps(w: World, b: Block)
    requires Inv(w) && OnChain(b, w.el.head) && b in w.el.known && LabelsOn(w.c, b)
    ensures Inv(w.(el := w.el.(head := b)))
  {
    CacheBelow(w.c.cache, b, w.el.head);
    if OnChain(w.c.head, w.el.head) {
      AncestorsComparable(w.c.head, b, w.el.head);
    } else {
      OnChainTransitive(b, w.el.head, w.c.head);
    }
  }

  /** Naming a served block as the client's head keeps everything when no label is above it. */
  lemma {:induction false} ServedHeadKeeps(w: World, c: Client, b: Block)
    requires Inv(w) && OnChain(b, w.el.head) && b in w.el.known
    requires c.head == b && c.cache == w.c.cache && LabelsOn(c, b)
    ensures Inv(w.(c := c)) && Inv(w.(c := c, el := w.el.(head := b)))
  {
    CacheBelow(w.c.cache, b, w.el.head);
    OnChainTransitive(c.safe, b, w.el.head);
    OnChainTransitive(c.finalized, b, w.el.head);
    LowerHeadKeeps(w.(c := c), b);
  }

  lemma {:induction false} SetHeadKeeps(w: World, b: Block, o: Rpc)
    requires Inv(w) && OnChain(b, w.el.head) && b in w.el.known && Height(w.c.head) <= Height(b)
    ensures Inv(SetHead(w, b, o))
  {
    OnChainCarries(w.c.head, w.c.head, w.el.head);
    OnChainCarries(w.c.safe, w.el.head, b);
    OnChainCarries(w.c.finalized, w.el.head, b);
    ServedHeadKeeps(w, w.c.(head := b), b);
  }

  lemma {:induction false} RollbackKeeps(w: World, n: nat, l: Lookup, o: Rpc)
    requires Inv(w)
    ensures Inv(Rollback(w, n, l, o).0)
  {
    if HeaderByNumber(w.el, n, l).Found? {
      ServedBelow(w.el, n, l);
      var b := HeaderByNumber(w.el, n, l).block;
      ServedHeadKeeps(w, w.c.(head := b, headHeight := n, safe := b, finalized := b), b);
    }
  }

  lemma {:induction false} SetFinalKeeps(w: World, n: nat, l: Lookup, headLookup: Lookup, o: Rpc)
    requires Inv(w) && n <= Height(w.c.head)
    ensures Inv(SetFinal(w, n, l, headLookup, o).0)
  {
    if HeaderByNumber(w.el, n, l).Found? {
      ServedBelow(w.el, n, l);
      var b := HeaderByNumber(w.el, n, l).block;
      OnChainCarries(b, w.el.head, w.c.head);
      var w' := w.(c := w.c.(finalized := b, safe := b));
      assert Inv(w');
      ForkchoiceHeadKeeps(w', o);
    }
  }

  /** Re-announcing the client's own head keeps everything, whether or not it is applied. */
  lemma {:induction false} ForkchoiceHeadKeeps(w: World, o: Rpc)
    requires Inv(w)
    ensures Inv(w.(el := Forkchoice(w.el, w.c.head, w.c.safe, w.c.finalized, o).0))
  {
  }

  /** A lagging label, wherever it is looked up, is the promoted block's own ancestor. */
  lemma {:induction false} LagFits(w: World, b: Block, h: nat, l: Lookup)
    requires CacheOn(w.c.cache, b) && b.Block? && h < Height(b)
    requires OnChain(b.parent, w.el.head) || Comparable(b, w.el.head)
    ensures OnChain(At(b, h), b) && (OnChain(b.parent, w.el.head) ==> OnChain(At(b, h), w.el.head))
    ensures LookupHash(w, h, l).Some? ==> LookupHash(w, h, l).value == At(b, h)
  {
    if h <= Height(w.el.head) {
      ServedAgrees(w.el, b, h);
    }
    OwnAncestor(b, h);
  }

  lemma {:induction false} OwnAncestor(b: Block, h: nat)
    requires h <= Height(b)
    ensures OnChain(At(b, h), b)
  {
  }

  lemma {:induction false} ServedAgrees(el: EL, b: Block, h: nat)
    requires b.Block? && (OnChain(b.parent, el.head) || Comparable(b, el.head))
    requires h < Height(b) && h <= Height(el.head)
    ensures At(el.head, h) == At(b, h)
  {
    if OnChain(b.parent, el.head) {
      AtOfAt(el.head, Height(b) - 1, h);
    } else {
      ComparableAgree(b, el.head, h);
    }
  }

  /** The labels after promoting a block that fits on the served chain. */
  lemma {:induction false} PromoteLabelsFit(w: World, b: Block, safeLookup: Lookup, finalizedLookup: Lookup)
    requires CacheOn(w.c.cache, b) && b.Block?
    requires LabelsOn(w.c, b) && LabelsOn(w.c, w.el.head)
    requires OnChain(b.parent, w.el.head)
    ensures var c := PromoteLabels(w, b, Height(b), safeLookup, finalizedLookup);
            LabelsOn(c, b) && LabelsOn(c, w.el.head)
  {
    var n := Height(b);
    if n > SAFE_BLOCK_LAG {
      LagFits(w, b, n - SAFE_BLOCK_LAG, safeLookup);
    }
    if n > FINALIZED_BLOCK_LAG {
      LagFits(w, b, n - FINALIZED_BLOCK_LAG, finalizedLookup);
    }
  }

  /** A payload on the served parent is comparable with the served head, and so are the labels with it. */
  lemma {:induction false} PayloadFits(w: World, id: PayloadId)
    requires Inv(w) && OnServedParent(w.el, id)
    requires Height(w.c.head) <= Height(Build(id)) || LabelsOn(w.c, id.parent)
    ensures OnChain(id.parent, w.el.head) && Comparable(Build(id), w.el.head)
    ensures LabelsOn(w.c, Build(id))
    ensures CacheOn(w.c.cache[Height(Build(id)) := Build(id)], Build(id))
  {
    var b := Build(id);
    var n := Height(b);
    assert At(b, n - 1) == id.parent;
    if n > Height(w.el.head) {
      assert At(b, Height(w.el.head)) == w.el.head;
    }
    if LabelsOn(w.c, id.parent) {
      OnChainTransitive(w.c.safe, id.parent, b);
      OnChainTransitive(w.c.finalized, id.parent, b);
    } else {
      OnChainCarries(w.c.safe, w.el.head, b);
      OnChainCarries(w.c.finalized, w.el.head, b);
    }
    var m := w.c.cache[n := b];
    forall h | h in m && h <= n ensures m[h] == At(b, h) {
      if h < n {
        ComparableAgree(b, w.el.head, h);
      }
    }
  }

  lemma {:induction false} ProcessPayloadKeeps(w: World, id: PayloadId, txs: seq<Tx>, env: Env)
    requires Inv(w) && OnServedParent(w.el, id)
    requires Height(w.c.head) <= Height(Build(id)) || LabelsOn(w.c, id.parent)
    ensures Inv(ProcessPayload(w, id, txs, env).0)
  {
    var b := Build(id);
    var n := Height(b);
    var (el, accepted) := NewPayload(w.el, b, env.newPayload);
    if env.getPayload && id in w.el.payloads && accepted {
      PayloadFits(w, id);
      var cache := CachePut(w.c.cache, n, b);
      var w2 := w.(el := el, c := w.c.(cache := cache));
      assert CacheOn(cache, b);
      assert CacheOn(cache, w.el.head) by { CachePutOn(w.c.cache, n, b, w.el.head); }
      PromoteLabelsFit(w2, b, env.safeLookup, env.finalizedLookup);
      var w3 := w2.(c := PromoteLabels(w2, b, n, env.safeLookup, env.finalizedLookup));
      assert Inv(w3);
      ForkchoiceHeadKeeps(w3, env.promote);
    }
  }

  lemma {:induction false} CacheServedKeeps(w: World, n: nat, p: Block)
    requires Inv(w) && n <= Height(w.el.head) && p == At(w.el.head, n)
    ensures Inv(w.(c := w.c.(cache := CachePut(w.c.cache, n, p))))
  {
    if n <= Height(w.c.head) {
      ComparableAgree(w.c.head, w.el.head, n);
    }
    CachePutOn(w.c.cache, n, p, w.el.head);
    CachePutOn(w.c.cache, n, p, w.c.head);
  }

  /** Opening a payload build on a served block: if it is accepted, the labels are on the new head. */
  lemma {:induction false} BuildKeeps(w: World, p: Block, time: int, txs: seq<Tx>, o: Rpc)
    requires Inv(w) && OnChain(p, w.el.head) && p in w.el.known
    ensures var (el, ok) := ForkchoiceBuild(w.el, p, w.c.safe, w.c.finalized, time, txs, o);
            && Inv(w.(el := el))
            && (ok ==> el.head == p && LabelsOn(w.c, p))
  {
    if !o.NotReached? && ForkchoiceValid(w.el, p, w.c.safe, w.c.finalized) {
      LowerHeadKeeps(w, p);
    }
  }

  lemma {:induction false} OpenKeeps(w: World, n: nat, p: Block, time: int, txs: seq<Tx>, env: Env)
    requires Inv(w) && 0 < n <= Height(w.el.head) + 1 && p == At(w.el.head, n - 1) && p in w.el.known
    ensures var (w', ok) := OpenBuild(w, n, p, time, txs, env);
            Inv(w') && (ok ==> w'.el.head == p && LabelsOn(w'.c, p))
  {
    CacheServedKeeps(w, n - 1, p);
    BuildKeeps(w.(c := w.c.(cache := CachePut(w.c.cache, n - 1, p))), p, time, FilterTransactions(txs), env.build);
  }

  lemma {:induction false} ExecuteFreshKeeps(
      w: World, n: nat, time: int, txs: seq<Tx>, prevRoot: Option<Root>, env: Env)
    requires Inv(w) && n > 0
    ensures Inv(ExecuteFresh(w, n, time, txs, prevRoot, env).0)
  {
    var f := HeaderByNumber(w.el, n - 1, env.parentLookup);
    if f.Found? && !(prevRoot.Some? && prevRoot.value != RootOf(f.block)) {
      var p := f.block;
      ServedBelow(w.el, n - 1, env.parentLookup);
      OpenKeeps(w, n, p, time, txs, env);
      var (w', ok) := OpenBuild(w, n, p, time, txs, env);
      if ok {
        ProcessPayloadKeeps(w', PayloadId(p, time, FilterTransactions(txs)), txs, env);
      }
    }
  }

  lemma {:induction false} ReconcileKeeps(w: World, n: nat, time: int, txs: seq<Tx>, env: Env)
    requires Inv(w) && n > 0 && n >= Height(w.c.head)
    ensures Inv(Reconcile(w, n, time, txs, env).0)
  {
    var promoted := PromotedBlock(w, n, time, env);
    if promoted.Some? {
      ServedBelow(w.el, n, env.promotedLookup);
      SetHeadKeeps(w, promoted.value, env.setHead);
    } else if ResumeOf(w, n, time, txs, env).None? && HeaderByNumber(w.el, n, env.existingLookup).Found? {
      ServedBelow(w.el, n, env.existingLookup);
      var b := HeaderByNumber(w.el, n, env.existingLookup).block;
      if b.Block? && b.time == time {
        SetHeadKeeps(w, b, env.setHead);
      } else {
        RollbackKeeps(w, n - 1, env.rollbackLookup, env.rollback);
      }
    }
  }

  // ---------------------------------------------------------------- resuming a record

  lemma {:induction false} PutKeeps(m: map<nat, Block>, n: nat, b: Block, h: nat)
    requires h in m && n < h + MAX_CACHE_SIZE
    ensures h in CachePut(m, n, b)
  {
  }

  /** Every label of a resumed block is its ancestor, whatever the look-ups answer. */
  lemma {:induction false} ResumedLabels(w: World, b: Block, safeLookup: Lookup, finalizedLookup: Lookup)
    requires b.Block? && CacheOn(w.c.cache, b) && Comparable(b, w.el.head)
    requires OnChain(w.c.safe, b) || (Height(b) > SAFE_BLOCK_LAG && Height(b) - SAFE_BLOCK_LAG in w.c.cache)
    requires OnChain(w.c.finalized, b) ||
             (Height(b) > FINALIZED_BLOCK_LAG && Height(b) - FINALIZED_BLOCK_LAG in w.c.cache)
    ensures LabelsOn(PromoteLabels(w, b, Height(b), safeLookup, finalizedLookup), b)
  {
    var n := Height(b);
    if n > SAFE_BLOCK_LAG {
      LagFits(w, b, n - SAFE_BLOCK_LAG, safeLookup);
    }
    if n > FINALIZED_BLOCK_LAG {
      LagFits(w, b, n - FINALIZED_BLOCK_LAG, finalizedLookup);
    }
  }

  /** Below one above the served head, the labels of a resumed block are served too. */
  lemma {:induction false} ResumedLabelsServed(w: World, b: Block, safeLookup: Lookup, finalizedLookup: Lookup)
    requires b.Block? && CacheOn(w.c.cache, b) && Comparable(b, w.el.head) && LabelsOn(w.c, w.el.head)
    requires Height(b) <= Height(w.el.head) + 1
    ensures LabelsOn(PromoteLabels(w, b, Height(b), safeLookup, finalizedLookup), w.el.head)
  {
    var n := Height(b);
    if n > SAFE_BLOCK_LAG {
      LagFits(w, b, n - SAFE_BLOCK_LAG, safeLookup);
      OnChainCarries(At(b, n - SAFE_BLOCK_LAG), b, w.el.head);
    }
    if n > FINALIZED_BLOCK_LAG {
      LagFits(w, b, n - FINALIZED_BLOCK_LAG, finalizedLookup);
      OnChainCarries(At(b, n - FINALIZED_BLOCK_LAG), b, w.el.head);
    }
  }

  /** The client's fields after a promotion that was not applied. */
  lemma {:induction false} UnappliedKeeps(w: World, b: Block, safeLookup: Lookup, finalizedLookup: Lookup)
    requires Wf(w.el) && MetasAtHeight(w.metas) && b.Block? && CacheOn(w.c.cache, b) && Comparable(b, w.el.head)
    requires LabelsOn(PromoteLabels(w, b, Height(b), safeLookup, finalizedLookup), b)
    requires Height(b) <= Height(w.el.head) + 1 ==> LabelsOn(w.c, w.el.head) && CacheOn(w.c.cache, w.el.head)
    ensures Safe(w.(c := PromoteLabels(w, b, Height(b), safeLookup, finalizedLookup)))
  {
    if Height(b) <= Height(w.el.head) + 1 {
      ResumedLabelsServed(w, b, safeLookup, finalizedLookup);
    }
  }

  lemma {:induction false} AppliedKeeps(w: World, b: Block, safeLookup: Lookup, finalizedLookup: Lookup)
    requires Wf(w.el) && b in w.el.known && MetasAtHeight(w.metas) && b.Block? && CacheOn(w.c.cache, b)
    requires LabelsOn(PromoteLabels(w, b, Height(b), safeLookup, finalizedLookup), b)
    ensures Inv(w.(c := PromoteLabels(w, b, Height(b), safeLookup, finalizedLookup), el := w.el.(head := b)))
  {
  }

  lemma {:induction false} AcceptedKeeps(el: EL, b: Block, o: Rpc)
    requires Wf(el)
    ensures Wf(NewPayload(el, b, o).0) && NewPayload(el, b, o).0.head == el.head
    ensures NewPayload(el, b, o).1 ==> b in NewPayload(el, b, o).0.known
  {
  }

  /** Promoting a resumed block that the execution layer has accepted. */
  lemma {:induction false} PromoteKeeps(w: World, b: Block, txs: seq<Tx>, env: Env)
    requires Wf(w.el) && b in w.el.known && MetasAtHeight(w.metas) && b.Block? && Comparable(b, w.el.head)
    requires var w1 := w.(c := w.c.(cache := CachePut(w.c.cache, Height(b), b)));
             && CacheOn(w1.c.cache, b)
             && LabelsOn(PromoteLabels(w1, b, Height(b), env.safeLookup, env.finalizedLookup), b)
             && (Height(b) <= Height(w.el.head) + 1 ==> LabelsOn(w.c, w.el.head) && CacheOn(w1.c.cache, w.el.head))
    ensures Safe(PromotePayload(w, b, txs, env).0)
  {
    var w1 := w.(c := w.c.(cache := CachePut(w.c.cache, Height(b), b)));
    AppliedKeeps(w1, b, env.safeLookup, env.finalizedLookup);
    UnappliedKeeps(w1, b, env.safeLookup, env.finalizedLookup);
  }

  /** Up to one above the served head, only the invariant itself leaves room for a resumed block. */
  lemma {:induction false} ResumedServed(w: World, b: Block)
    requires Inv(w) || (Ahead(w) && Height(w.c.head) <= Height(b))
    requires b.Block? && Comparable(b, w.el.head) && Height(b) <= Height(w.el.head) + 1
    ensures LabelsOn(w.c, w.el.head) && CacheOn(CachePut(w.c.cache, Height(b), b), w.el.head)
  {
    if Height(b) <= Height(w.el.head) {
      ComparableAgree(b, w.el.head, Height(b));
    }
    CachePutOn(w.c.cache, Height(b), b, w.el.head);
  }

  lemma {:induction false} ResumeKeeps(w: World, id: PayloadId, txs: seq<Tx>, env: Env)
    requires Inv(w) || (Ahead(w) && Height(w.c.head) <= Height(Build(id)))
    requires ResumeFits(w, id)
    ensures Safe(ProcessPayload(w, id, txs, env).0)
  {
    var b := Build(id);
    var (el, accepted) := NewPayload(w.el, b, env.newPayload);
    AcceptedKeeps(w.el, b, env.newPayload);
    if env.getPayload && id in w.el.payloads && accepted {
      if Height(b) <= Height(w.el.head) + 1 {
        ResumedServed(w, b);
      }
      var w1 := w.(el := el);
      ResumedLabels(w1.(c := w.c.(cache := CachePut(w.c.cache, Height(b), b))), b, env.safeLookup, env.finalizedLookup);
      PromoteKeeps(w1, b, txs, env);
    }
  }

  /** A payload whose parent the execution layer does not know is never accepted, and resuming it changes nothing. */
  lemma {:induction false} UnknownParentKeeps(
      w: World, n: nat, time: int, txs: seq<Tx>, prevRoot: Option<Root>, e: Env)
    requires n > 0 && ResumeOf(w, n, time, txs, e).Some? && ResumeOf(w, n, time, txs, e).value.parent !in w.el.known
    ensures ExecuteTxs(w, n, time, txs, prevRoot, e).0 == w
  {
    assert PromotedBlock(w, n, time, e).None?;
  }

  /** Resuming at any height, below the head too. */
  lemma {:induction false} ResumedKeeps(w: World, n: nat, time: int, txs: seq<Tx>, prevRoot: Option<Root>, e: Env)
    requires n > 0 && (Inv(w) || (Ahead(w) && Height(w.c.head) <= n)) && ResumeOf(w, n, time, txs, e).Some?
    requires var id := ResumeOf(w, n, time, txs, e).value; id.parent !in w.el.known || ResumeFits(w, id)
    ensures Safe(ExecuteTxs(w, n, time, txs, prevRoot, e).0)
  {
    var id := ResumeOf(w, n, time, txs, e).value;
    if id.parent !in w.el.known {
      UnknownParentKeeps(w, n, time, txs, prevRoot, e);
    } else {
      assert PromotedBlock(w, n, time, e).None?;
      ResumeKeeps(w, id, txs, e);
    }
  }

  // ---------------------------------------------------------------- every admissible operation, every run

  lemma {:induction false} ExecuteKeeps(w: World, n: nat, time: int, txs: seq<Tx>, prevRoot: Option<Root>, env: Env)
    requires Safe(w) && Admissible(w, Execute(n, time, txs, prevRoot, env))
    ensures Safe(ExecuteTxs(w, n, time, txs, prevRoot, env).0)
  {
    if ResumeOf(w, n, time, txs, env).Some? {
      ResumedKeeps(w, n, time, txs, prevRoot, env);
    } else if Inv(w) {
      ReconcileKeeps(w, n, time, txs, env);
      var (w1, d) := Reconcile(w, n, time, txs, env);
      if d.Fresh? {
        ExecuteFreshKeeps(w1, n, time, txs, prevRoot, env);
      }
    } else {
      // nothing is served at or just below the height
      assert ExecuteTxs(w, n, time, txs, prevRoot, env).0 == w;
    }
  }

  /** Only served blocks are looked up by height, and they are below both heads. */
  lemma {:induction false} AheadLabelsDown(w: World, n: nat, l: Lookup, o: Rpc)
    requires Ahead(w) && HeaderByNumber(w.el, n, l).Found?
    ensures var b := HeaderByNumber(w.el, n, l).block;
            Inv(MarkFinal(w, b, o).0) && Inv(Rollback(w, n, l, o).0)
  {
    ServedBelow(w.el, n, l);
    var b := HeaderByNumber(w.el, n, l).block;
    CacheBelow(w.c.cache, w.el.head, w.c.head);
    OnChainTransitive(b, w.el.head, w.c.head);
    var w' := w.(c := w.c.(finalized := b, safe := b));
    assert Inv(w');
    ForkchoiceHeadKeeps(w', o);
    ServedHeadKeeps(w', w.c.(head := b, headHeight := n, safe := b, finalized := b), b);
  }

  lemma {:induction false} StepKeeps(w: World, op: Op)
    requires Safe(w) && Admissible(w, op)
    ensures Safe(Step(w, op))
  {
    match op
    case Execute(n, time, txs, prevRoot, env) => ExecuteKeeps(w, n, time, txs, prevRoot, env);
    case Finalize(n, l, hl, o) =>
      if Inv(w) {
        SetFinalKeeps(w, n, l, hl, o);
      } else if HeaderByNumber(w.el, n, l).Found? {
        AheadLabelsDown(w, n, l, o);
      }
    case RollBack(n, l, o) =>
      if Inv(w) {
        RollbackKeeps(w, n, l, o);
      } else if HeaderByNumber(w.el, n, l).Found? {
        AheadLabelsDown(w, n, l, o);
      }
    case Restart =>
      GenesisOnChain(w.el.head);
    case LosePayloads =>
  }

  /** Over every admissible run, whatever calls fail and wherever the process restarts, safe and finalized stay on the
      chain of the head, and so does every cached hash at or below it, although Rollback never clears the cache. */
  lemma {:induction false} RunSafe(w: World, ops: seq<Op>)
    requires Safe(w) && AdmissibleRun(w, ops)
    ensures var c := Run(w, ops).c;
            LabelsOn(c, c.head) && CacheOn(c.cache, c.head)
    ensures Safe(Run(w, ops))
    decreases |ops|
  {
    if ops != [] {
      StepKeeps(w, ops[0]);
      RunSafe(Step(w, ops[0]), ops[1..]);
    }
  }

  // ---------------------------------------------------------------- where the labels land

  /** Head at height `n`, returned and canonical; safe at `n - 2` and finalized at `n - 3` on its chain. */
  predicate LagsAt(w: World, root: Root, n: nat) {
    && n > 3 && Height(w.c.head) == n && w.el.head == w.c.head && root == RootOf(w.c.head)
    && w.c.safe == At(w.c.head, n - 2) && w.c.finalized == At(w.c.head, n - 3)
  }

  /** A look-up of the height that reaches the execution layer finds a hash. */
  predicate Reachable(w: World, h: nat) {
    h in w.c.cache || h <= Height(w.el.head)
  }

  /** The label look-up at `n - lag` answers: the height is above genesis and its hash is cached or served. */
  predicate Answers(w: World, n: nat, lag: nat, l: Lookup) {
    n > lag && (n - lag in w.c.cache || (l.Served? && n - lag <= Height(w.el.head)))
  }

  /** Where promotion leaves the two labels, given what their look-ups find. */
  lemma {:induction false} LabelsLand(w: World, b: Block, safeLookup: Lookup, finalizedLookup: Lookup)
    requires CacheOn(w.c.cache, b) && b.Block? && (OnChain(b.parent, w.el.head) || Comparable(b, w.el.head))
    ensures var n := Height(b);
            var c := PromoteLabels(w, b, n, safeLookup, finalizedLookup);
            && c.safe == (if Answers(w, n, SAFE_BLOCK_LAG, safeLookup) then At(b, n - SAFE_BLOCK_LAG) else w.c.safe)
            && c.finalized == if Answers(w, n, FINALIZED_BLOCK_LAG, finalizedLookup)
                              then At(b, n - FINALIZED_BLOCK_LAG) else w.c.finalized
  {
    var n := Height(b);
    if n > SAFE_BLOCK_LAG {
      LagFits(w, b, n - SAFE_BLOCK_LAG, safeLookup);
    }
    if n > FINALIZED_BLOCK_LAG {
      LagFits(w, b, n - FINALIZED_BLOCK_LAG, finalizedLookup);
    }
  }

  lemma {:induction false} ProcessPayloadLags(w: World, id: PayloadId, txs: seq<Tx>, env: Env)
    requires var b := Build(id);
             && Comparable(b, w.el.head) && CacheOn(CachePut(w.c.cache, Height(b), b), b) && Height(b) > 3
             && Reachable(w, Height(b) - 2) && Reachable(w, Height(b) - 3)
    requires env.safeLookup.Served? && env.finalizedLookup.Served?
    ensures var (w', root) := ProcessPayload(w, id, txs, env);
            root.Some? ==> LagsAt(w', root.value, Height(Build(id)))
  {
    var b := Build(id);
    var n := Height(b);
    var (el, accepted) := NewPayload(w.el, b, env.newPayload);
    if env.getPayload && id in w.el.payloads && accepted {
      var w2 := w.(el := el, c := w.c.(cache := CachePut(w.c.cache, n, b)));
      ReachableStays(w, b, 2);
      ReachableStays(w, b, 3);
      LabelsLand(w2, b, env.safeLookup, env.finalizedLookup);
      assert Answers(w2, n, SAFE_BLOCK_LAG, Served) && Answers(w2, n, FINALIZED_BLOCK_LAG, Served);
    }
  }

  lemma {:induction false} ReachableStays(w: World, b: Block, lag: nat)
    requires lag < Height(b) && lag < MAX_CACHE_SIZE && Reachable(w, Height(b) - lag)
    ensures Height(b) - lag in CachePut(w.c.cache, Height(b), b) || Height(b) - lag <= Height(w.el.head)
  {
    if Height(b) - lag in w.c.cache {
      PutKeeps(w.c.cache, Height(b), b, Height(b) - lag);
    }
  }

  lemma {:induction false} CacheFits(w: World, id: PayloadId)
    requires Inv(w) && OnServedParent(w.el, id)
    ensures CacheOn(CachePut(w.c.cache, Height(Build(id)), Build(id)), Build(id))
  {
    var b := Build(id);
    var n := Height(b);
    var m := w.c.cache[n := b];
    forall h | h in m && h <= n ensures m[h] == At(b, h) {
      if h < n {
        AtOfAt(w.el.head, n - 1, h);
      }
    }
  }

  /** A newly built or resumed block at N > 3 whose two look-ups are answered leaves head at N, safe at N-2 and
      finalized at N-3, all on the chain of the returned block. */
  lemma {:induction false} BlockSetsLabels(w: World, n: nat, time: int, txs: seq<Tx>, prevRoot: Option<Root>, env: Env)
    requires Safe(w) && Admissible(w, Execute(n, time, txs, prevRoot, env)) && n > 3
    requires !Reconcile(w, n, time, txs, env).1.Reuse?
    requires env.safeLookup.Served? && env.finalizedLookup.Served?
    requires Reconcile(w, n, time, txs, env).1.Resume? ==> Reachable(w, n - 2) && Reachable(w, n - 3)
    ensures var (w', root) := ExecuteTxs(w, n, time, txs, prevRoot, env);
            root.Some? ==> LagsAt(w', root.value, n)
  {
    var (w1, d) := Reconcile(w, n, time, txs, env);
    if d.Resume? {
      ResumeSetsLabels(w, d.id, txs, env);
    } else if Inv(w) {
      ReconcileKeeps(w, n, time, txs, env);
      FreshSetsLabels(w1, n, time, txs, prevRoot, env);
    } else {
      assert w1 == w && ExecuteFresh(w, n, time, txs, prevRoot, env).1.None?;
    }
  }

  lemma {:induction false} ResumeSetsLabels(w: World, id: PayloadId, txs: seq<Tx>, env: Env)
    requires var n := Height(Build(id)); n > 3 && Reachable(w, n - 2) && Reachable(w, n - 3)
    requires id.parent !in w.el.known || ResumeFits(w, id)
    requires env.safeLookup.Served? && env.finalizedLookup.Served?
    ensures var (w', root) := ProcessPayload(w, id, txs, env);
            root.Some? ==> LagsAt(w', root.value, Height(Build(id)))
  {
    if id.parent in w.el.known {
      ProcessPayloadLags(w, id, txs, env);
    }
  }

  lemma {:induction false} FreshSetsLabels(w: World, n: nat, time: int, txs: seq<Tx>, prevRoot: Option<Root>, env: Env)
    requires Inv(w) && n > 3
    requires env.safeLookup.Served? && env.finalizedLookup.Served?
    ensures var (w', root) := ExecuteFresh(w, n, time, txs, prevRoot, env);
            root.Some? ==> LagsAt(w', root.value, n)
  {
    if ExecuteFresh(w, n, time, txs, prevRoot, env).1.Some? {
      var w2, id := FreshBuilds(w, n, time, txs, prevRoot, env);
      CacheFits(w2, id);
      ProcessPayloadLags(w2, id, txs, env);
    }
  }

  /** A fresh execution that returns a root processed a payload built on the served block at `n - 1`. */
  lemma {:induction false} FreshBuilds(w: World, n: nat, time: int, txs: seq<Tx>, prevRoot: Option<Root>, env: Env)
    returns (w': World, id: PayloadId)
    requires Inv(w) && n > 0 && ExecuteFresh(w, n, time, txs, prevRoot, env).1.Some?
    ensures n - 1 <= Height(w.el.head) && id == PayloadId(At(w.el.head, n - 1), time, FilterTransactions(txs))
    ensures Inv(w') && OnServedParent(w'.el, id) && Comparable(Build(id), w'.el.head)
    ensures ExecuteFresh(w, n, time, txs, prevRoot, env) == ProcessPayload(w', id, txs, env)
  {
    var p := HeaderByNumber(w.el, n - 1, env.parentLookup).block;
    ServedBelow(w.el, n - 1, env.parentLookup);
    CacheServedKeeps(w, n - 1, p);
    var w1 := w.(c := w.c.(cache := CachePut(w.c.cache, n - 1, p)));
    var payload := FilterTransactions(txs);
    BuildKeeps(w1, p, time, payload, env.build);
    var (el, ok) := ForkchoiceBuild(w1.el, p, w1.c.safe, w1.c.finalized, time, payload, env.build);
    id := PayloadId(p, time, payload);
    w' := SaveMeta(w1.(el := el), n, Started(time, HashTxs(txs), id), env.startedWrite);
    PayloadFits(w', id);
  }

  /** finalized <= safe is not kept in general. Promoting block N keeps it if and only if a safe label that moves
      alone, to N-2, does not move below finalized, and a finalized label that moves alone, to N-3, does not move
      above safe. Safe moves alone at block 3, and whenever only the finalized look-up fails. */
  lemma {:induction false} FinalizedBelowSafe(w: World, b: Block, safeLookup: Lookup, finalizedLookup: Lookup)
    requires CacheOn(w.c.cache, b) && b.Block? && (OnChain(b.parent, w.el.head) || Comparable(b, w.el.head))
    requires Height(w.c.finalized) <= Height(w.c.safe)
    ensures var n := Height(b);
            var c := PromoteLabels(w, b, n, safeLookup, finalizedLookup);
            var s := Answers(w, n, SAFE_BLOCK_LAG, safeLookup);
            var f := Answers(w, n, FINALIZED_BLOCK_LAG, finalizedLookup);
            Height(c.finalized) <= Height(c.safe) <==>
              && (s && !f ==> Height(w.c.finalized) <= n - SAFE_BLOCK_LAG)
              && (f && !s ==> n - FINALIZED_BLOCK_LAG <= Height(w.c.safe))
  {
    LabelsLand(w, b, safeLookup, finalizedLookup);
  }

  // ---------------------------------------------------------------- the resume condition is exact

  /** After resuming with the calls ending as in `e`, and one more admissible operation, the labels and the cache are on
      the chain of the head. */
  ghost predicate KeptAfter(w: World, r: Op, e: Env, op: Op)
    requires r.Execute? && r.n > 0
  {
    var w' := ExecuteTxs(w, r.n, r.time, r.txs, r.prevRoot, e).0;
    Admissible(w', op) ==> var c := Step(w', op).c; LabelsOn(c, c.head) && CacheOn(c.cache, c.head)
  }

  ghost predicate ResumesSafely(w: World, r: Op, id: PayloadId)
    requires r.Execute? && r.n > 0
  {
    forall e, op :: ResumeOf(w, r.n, r.time, r.txs, e) == Some(id) ==> KeptAfter(w, r, e, op)
  }

  /** Resuming a recorded payload keeps the labels and the cache on the chain of the head, for every way the calls
      can end and every operation that follows, if and only if the execution layer does not know the payload's parent,
      or the payload fits. */
  lemma {:induction false} ResumeExact(w: World, r: Op, env: Env)
    requires r.Execute? && 0 < r.n && (Inv(w) || (Ahead(w) && Height(w.c.head) <= r.n))
    requires ResumeOf(w, r.n, r.time, r.txs, env).Some?
    ensures var id := ResumeOf(w, r.n, r.time, r.txs, env).value;
            ResumesSafely(w, r, id) <==> id.parent !in w.el.known || ResumeFits(w, id)
  {
    var id := ResumeOf(w, r.n, r.time, r.txs, env).value;
    if id.parent !in w.el.known || ResumeFits(w, id) {
      forall e, op | ResumeOf(w, r.n, r.time, r.txs, e) == Some(id) ensures KeptAfter(w, r, e, op) {
        ResumedKeeps(w, r.n, r.time, r.txs, r.prevRoot, e);
        var w' := ExecuteTxs(w, r.n, r.time, r.txs, r.prevRoot, e).0;
        if Admissible(w', op) {
          StepKeeps(w', op);
        }
      }
    } else if !Comparable(Build(id), w.el.head) {
      OffChainBreaks(w, r, id, env);
    } else {
      OffCacheBreaks(w, r, id, env);
    }
  }

  /** The call that resumes the payload and does not get its promotion, or a missing label, across. */
  function Unpromoted(env: Env): Env {
    env.(getPayload := true, newPayload := Answered, promote := NotReached, safeLookup := Down, finalizedLookup := Down)
  }

  lemma {:induction false} UnpromotedResume(w: World, r: Op, id: PayloadId, env: Env)
    requires r.Execute? && 0 < r.n && ResumeOf(w, r.n, r.time, r.txs, env) == Some(id) && id.parent in w.el.known
    ensures ResumeOf(w, r.n, r.time, r.txs, Unpromoted(env)) == Some(id)
    ensures var w' := ExecuteTxs(w, r.n, r.time, r.txs, r.prevRoot, Unpromoted(env)).0;
            var b := Build(id);
            var w2 := w.(c := w.c.(cache := CachePut(w.c.cache, Height(b), b)));
            w'.c == PromoteLabels(w2, b, Height(b), Down, Down) && w'.el.head == w.el.head
  {
    assert PromotedBlock(w, r.n, r.time, env).None?;
  }

  /** The promotion is not applied, and the next SetFinal names the block that is served instead. */
  lemma {:induction false} OffChainBreaks(w: World, r: Op, id: PayloadId, env: Env)
    requires r.Execute? && 0 < r.n && ResumeOf(w, r.n, r.time, r.txs, env) == Some(id)
    requires !Comparable(Build(id), w.el.head) && id.parent in w.el.known
    ensures !ResumesSafely(w, r, id)
  {
    var b, h := Build(id), w.el.head;
    UnpromotedResume(w, r, id, env);
    var k := if Height(b) <= Height(h) then Height(b) else Height(h);
    var op := Finalize(k, Served, Served, NotReached);
    var w' := ExecuteTxs(w, r.n, r.time, r.txs, r.prevRoot, Unpromoted(env)).0;
    assert Step(w', op).c.head == b && Step(w', op).c.safe == At(h, k);
    assert !KeptAfter(w, r, Unpromoted(env), op);
  }

  /** A cached hash or a label that stays is not an ancestor of the new head. */
  lemma {:induction false} OffCacheBreaks(w: World, r: Op, id: PayloadId, env: Env)
    requires r.Execute? && 0 < r.n && ResumeOf(w, r.n, r.time, r.txs, env) == Some(id)
    requires Comparable(Build(id), w.el.head) && !ResumeFits(w, id) && id.parent in w.el.known
    ensures !ResumesSafely(w, r, id)
  {
    UnpromotedResume(w, r, id, env);
    assert !KeptAfter(w, r, Unpromoted(env), LosePayloads);
  }

  /** With the invariant, at or above the head, the labels always fit; up to one above the served head the payload fits
      if and only if its parent is still served at N-1 and no other block is served at N. */
  lemma {:induction false} FitsExactly(w: World, id: PayloadId)
    requires Inv(w)
    ensures var b := Build(id);
            && (Height(w.c.head) <= Height(b) ==>
                  (ResumeFits(w, id) <==>
                     Comparable(b, w.el.head) && CacheOn(CachePut(w.c.cache, Height(b), b), b)))
            && (Height(w.c.head) <= Height(b) <= Height(w.el.head) + 1 ==>
                  (ResumeFits(w, id) <==> OnServedParent(w.el, id)))
  {
    var b := Build(id);
    if Comparable(b, w.el.head) {
      if Height(w.c.head) <= Height(b) {
        OnChainCarries(w.c.safe, w.el.head, b);
        OnChainCarries(w.c.finalized, w.el.head, b);
      }
      if Height(b) <= Height(w.el.head) + 1 {
        ServedParent(w.el, id);
        CacheFits(w, id);
      }
    } else if OnServedParent(w.el, id) {
      PayloadFits(w, id);
    }
  }

  lemma {:induction false} ServedParent(el: EL, id: PayloadId)
    requires Comparable(Build(id), el.head) && Height(Build(id)) <= Height(el.head) + 1
    ensures OnServedParent(el, id)
  {
    var b := Build(id);
    var n := Height(b);
    assert At(b, n - 1) == id.parent;
    ComparableAgree(b, el.head, n - 1);
    if n <= Height(el.head) {
      ComparableAgree(b, el.head, n);
    }
  }

  // ---------------------------------------------------------------- the other admissibility conditions are exact

  /** A finalized height that is served moves the labels onto the chain of the head if and only if it is not above
      it. */
  lemma {:induction false} FinalizeExact(w: World, n: nat, l: Lookup, headLookup: Lookup, o: Rpc)
    requires Safe(w) && HeaderByNumber(w.el, n, l).Found?
    ensures var c := SetFinal(w, n, l, headLookup, o).0.c;
            LabelsOn(c, c.head) <==> Admissible(w, Finalize(n, l, headLookup, o))
  {
    ServedBelow(w.el, n, l);
    if n <= Height(w.c.head) {
      StepKeeps(w, Finalize(n, l, headLookup, o));
    }
  }

  /** A block at any height, below the head too: without a resumed record the invariant is kept if and only if a reused
      block is not below a label. */
  lemma {:induction false} ExecuteExact(w: World, n: nat, time: int, txs: seq<Tx>, prevRoot: Option<Root>, env: Env)
    requires Inv(w) && n > 0 && ResumeOf(w, n, time, txs, env).None?
    ensures var w' := ExecuteTxs(w, n, time, txs, prevRoot, env).0;
            var labelsBelow := Height(w.c.safe) <= n && Height(w.c.finalized) <= n;
            var kept := Reconcile(w, n, time, txs, env).1.Reuse? ==> labelsBelow;
            (Inv(w') <==> kept) && (LabelsOn(w'.c, w'.c.head) <==> kept)
  {
    var (w1, d) := Reconcile(w, n, time, txs, env);
    if d.Reuse? {
      ReuseExact(w, n, time, txs, env);
    } else {
      if HeaderByNumber(w.el, n, env.existingLookup).Found? {
        RollbackKeeps(w, n - 1, env.rollbackLookup, env.rollback);
      }
      ExecuteFreshKeeps(w1, n, time, txs, prevRoot, env);
    }
  }

  lemma {:induction false} ReuseExact(w: World, n: nat, time: int, txs: seq<Tx>, env: Env)
    requires Inv(w) && n > 0 && Reconcile(w, n, time, txs, env).1.Reuse?
    ensures var w' := Reconcile(w, n, time, txs, env).0;
            var kept := Height(w.c.safe) <= n && Height(w.c.finalized) <= n;
            (Inv(w') <==> kept) && (LabelsOn(w'.c, w'.c.head) <==> kept)
  {
    var promoted := PromotedBlock(w, n, time, env).Some?;
    var l := if promoted then env.promotedLookup else env.existingLookup;
    ServedBelow(w.el, n, l);
    var b := HeaderByNumber(w.el, n, l).block;
    if Height(w.c.safe) <= n && Height(w.c.finalized) <= n {
      OnChainCarries(w.c.safe, w.el.head, b);
      OnChainCarries(w.c.finalized, w.el.head, b);
      ServedHeadKeeps(w, w.c.(head := b), b);
    }
  }
}
