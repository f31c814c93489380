/** Crash recovery: repeating one ExecuteTxs until it answers yields one block. */
module EngineRecovery {
  import opened Common
  import opened ExecutionLayer
  import opened EngineSpec
  import opened EngineSafety

  /** One requested block: its parent, height, time and transactions. */
  datatype Request = Request(parent: Block, time: int, txs: seq<Tx>)

  function IdOf(q: Request): PayloadId {
    PayloadId(q.parent, q.time, FilterTransactions(q.txs))
  }

  function BlockOf(q: Request): Block {
    Build(IdOf(q))
  }

  function HeightOf(q: Request): nat {
    Height(q.parent) + 1
  }

  /** What can happen while a caller keeps retrying: an attempt with any failures, a crash of the node, the loss of the
      execution layer's payload cache, and the loss of a tip it had not yet persisted. A crash inside an attempt is that
      attempt with the next call unanswered, followed by `Crash`. */
  datatype Event = Attempt(prevRoot: Option<Root>, env: Env) | Crash | PayloadsLost | TipLost

  function After(w: World, q: Request, e: Event): World {
    match e
    case Attempt(prevRoot, env) => ExecuteTxs(w, HeightOf(q), q.time, q.txs, prevRoot, env).0
    case Crash => w.(c := FRESH_CLIENT)
    case PayloadsLost => w.(el := w.el.(payloads := {}))
    case TipLost => if w.el.head == BlockOf(q) then w.(el := w.el.(head := q.parent)) else w
  }

  function Retry(w: World, q: Request, es: seq<Event>): World
    decreases |es|
  {
    if es == [] then w else Retry(After(w, q, es[0]), q, es[1..])
  }

  /** Every root answered along the way. */
  function Answers(w: World, q: Request, es: seq<Event>): seq<Root>
    decreases |es|
  {
    if es == [] then []
    else
      var rest := Answers(After(w, q, es[0]), q, es[1..]);
      match es[0]
      case Attempt(prevRoot, env) =>
        var root := ExecuteTxs(w, HeightOf(q), q.time, q.txs, prevRoot, env).1;
        (if root.Some? then [root.value] else []) + rest
      case _ => rest
  }

  /** A record that would be resumed for this request is the request's own payload. It rules out a record on another
      parent, and a record of other transactions with the same concatenation. */
  predicate RecordAgrees(w: World, q: Request) {
    var n := HeightOf(q);
    n in w.metas && w.metas[n].Started? && w.metas[n].time == q.time && w.metas[n].txHash == HashTxs(q.txs)
    && w.metas[n].id in w.el.payloads
    ==> w.metas[n].id == IdOf(q)
  }

  /** What recovery keeps beside the invariant. */
  predicate Around(w: World, q: Request) {
    && (w.el.head == q.parent || w.el.head == BlockOf(q))
    && q.parent in w.el.known && Height(w.c.head) <= HeightOf(q)
    && LabelsOn(w.c, q.parent) && RecordAgrees(w, q)
  }

  ghost predicate Recovering(w: World, q: Request) {
    Inv(w) && Around(w, q)
  }

  // ---------------------------------------------------------------- one attempt

  /** The canonical chain at the request's height: nothing, or the block itself. */
  lemma {:induction false} ServedAtHeight(w: World, q: Request, l: Lookup)
    requires Recovering(w, q)
    ensures var f := HeaderByNumber(w.el, HeightOf(q), l);
            f.Found? ==> f.block == BlockOf(q) && w.el.head == BlockOf(q)
    ensures var f := HeaderByNumber(w.el, HeightOf(q) - 1, l);
            f.Found? ==> f.block == q.parent
  {
    assert At(BlockOf(q), HeightOf(q) - 1) == q.parent;
  }

  lemma {:induction false} ReuseIsBlock(w: World, q: Request, env: Env)
    requires Recovering(w, q)
    ensures var (w', d) := Reconcile(w, HeightOf(q), q.time, q.txs, env);
            && Recovering(w', q) && w'.el.known == w.el.known
            && (d.Reuse? ==> d.root == RootOf(BlockOf(q)) && w'.el.head == w'.c.head == BlockOf(q))
            && (d.Resume? ==> d.id == IdOf(q) && w' == w && IdOf(q) in w.el.payloads)
            && (d.Fresh? ==> w' == w)
  {
    var n := HeightOf(q);
    ReconcileKeeps(w, n, q.time, q.txs, env);
    ServedAtHeight(w, q, env.promotedLookup);
    ServedAtHeight(w, q, env.existingLookup);
  }

  /** Promoting the request's block, applied or not. */
  lemma {:induction false} PromoteRecovers(w: World, q: Request, env: Env)
    requires CacheOn(w.c.cache, BlockOf(q)) && LabelsOn(w.c, q.parent)
    requires w.el.head == q.parent || w.el.head == BlockOf(q)
    ensures var (w', ok) := SetFinalWithHeight(w, BlockOf(q), HeightOf(q), env.safeLookup, env.finalizedLookup,
                                               env.promote);
            && LabelsOn(w'.c, q.parent) && w'.c.head == BlockOf(q)
            && (w'.el == w.el || w'.el == w.el.(head := BlockOf(q)))
            && (ok ==> w'.el.head == BlockOf(q))
            && w'.metas == w.metas
  {
    assert OnChain(q.parent, BlockOf(q));
    LabelsStayBelow(w, q, env);
  }

  lemma {:induction false} ProcessIsBlock(w: World, q: Request, env: Env)
    requires Recovering(w, q)
    ensures var (w', root) := ProcessPayload(w, IdOf(q), q.txs, env);
            && Recovering(w', q) && w'.el.known <= w.el.known + {BlockOf(q)}
            && (root.Some? ==> root.value == RootOf(BlockOf(q)) && w'.el.head == w'.c.head == BlockOf(q))
  {
    var id := IdOf(q);
    var b := BlockOf(q);
    assert At(b, HeightOf(q) - 1) == q.parent;
    assert OnServedParent(w.el, id);
    ProcessPayloadKeeps(w, id, q.txs, env);
    CacheFits(w, id);
    ProcessFrame(w, q, env);
  }

  lemma {:induction false} PromoteFrame(w: World, q: Request, env: Env)
    requires CacheOn(CachePut(w.c.cache, HeightOf(q), BlockOf(q)), BlockOf(q)) && Around(w, q)
    ensures var (w', root) := PromotePayload(w, BlockOf(q), q.txs, env);
            && Around(w', q) && w'.el.known == w.el.known
            && (root.Some? ==> root.value == RootOf(BlockOf(q)) && w'.el.head == w'.c.head == BlockOf(q))
  {
    PromoteRecovers(w.(c := w.c.(cache := CachePut(w.c.cache, HeightOf(q), BlockOf(q)))), q, env);
  }

  lemma {:induction false} ProcessFrame(w: World, q: Request, env: Env)
    requires CacheOn(CachePut(w.c.cache, HeightOf(q), BlockOf(q)), BlockOf(q)) && Around(w, q)
    ensures var (w', root) := ProcessPayload(w, IdOf(q), q.txs, env);
            && Around(w', q) && w'.el.known <= w.el.known + {BlockOf(q)}
            && (root.Some? ==> root.value == RootOf(BlockOf(q)) && w'.el.head == w'.c.head == BlockOf(q))
  {
    PromoteFrame(w.(el := NewPayload(w.el, BlockOf(q), env.newPayload).0), q, env);
  }

  /** The lagging labels of the request's block are on its parent. */
  lemma {:induction false} LabelsStayBelow(w: World, q: Request, env: Env)
    requires CacheOn(w.c.cache, BlockOf(q)) && OnChain(q.parent, w.el.head)
    requires LabelsOn(w.c, q.parent)
    ensures LabelsOn(PromoteLabels(w, BlockOf(q), HeightOf(q), env.safeLookup, env.finalizedLookup), q.parent)
  {
    var b := BlockOf(q);
    var n := HeightOf(q);
    if n > SAFE_BLOCK_LAG {
      LagFits(w, b, n - SAFE_BLOCK_LAG, env.safeLookup);
    }
    if n > FINALIZED_BLOCK_LAG {
      LagFits(w, b, n - FINALIZED_BLOCK_LAG, env.finalizedLookup);
    }
  }

  /** The world of a fresh attempt once the payload build is open and recorded. */
  function Opened(w: World, q: Request, env: Env): (World, bool) {
    OpenBuild(w, HeightOf(q), q.parent, q.time, q.txs, env)
  }

  lemma {:induction false} OpenedFrame(w: World, q: Request, env: Env)
    requires Around(w, q)
    ensures var (w', ok) := Opened(w, q, env);
            && Around(w', q) && w'.el.known == w.el.known
            && (ok ==> IdOf(q) in w'.el.payloads)
            && (env.build.Answered? ==> ok)
  {
  }

  lemma {:induction false} OpenedRecovers(w: World, q: Request, env: Env)
    requires Recovering(w, q)
    ensures var (w', ok) := Opened(w, q, env);
            && Recovering(w', q) && w'.el.known == w.el.known
            && (ok ==> IdOf(q) in w'.el.payloads)
            && (env.build.Answered? ==> ok)
  {
    assert At(BlockOf(q), HeightOf(q) - 1) == q.parent;
    OpenKeeps(w, HeightOf(q), q.parent, q.time, q.txs, env);
    OpenedFrame(w, q, env);
  }

  lemma {:induction false} FreshUnfolds(w: World, q: Request, prevRoot: Option<Root>, env: Env)
    requires Recovering(w, q)
    ensures var r := ExecuteFresh(w, HeightOf(q), q.time, q.txs, prevRoot, env);
            var (w', ok) := Opened(w, q, env);
            if env.parentLookup.Served? && (prevRoot.None? || prevRoot.value == RootOf(q.parent)) then
              r == (if ok then ProcessPayload(w', IdOf(q), q.txs, env) else (w', None))
            else r == (w, None)
  {
    ServedAtHeight(w, q, env.parentLookup);
  }

  lemma {:induction false} FreshIsBlock(w: World, q: Request, prevRoot: Option<Root>, env: Env)
    requires Recovering(w, q)
    ensures var (w', root) := ExecuteFresh(w, HeightOf(q), q.time, q.txs, prevRoot, env);
            && Recovering(w', q) && w'.el.known <= w.el.known + {BlockOf(q)}
            && (root.Some? ==> root.value == RootOf(BlockOf(q)) && w'.el.head == w'.c.head == BlockOf(q))
  {
    FreshUnfolds(w, q, prevRoot, env);
    OpenedRecovers(w, q, env);
    ProcessIsBlock(Opened(w, q, env).0, q, env);
  }

  /** Whatever fails inside it, an attempt adds no block but the request's own, and answers only that block's root. */
  lemma {:induction false} AttemptIsBlock(w: World, q: Request, prevRoot: Option<Root>, env: Env)
    requires Recovering(w, q)
    ensures var (w', root) := ExecuteTxs(w, HeightOf(q), q.time, q.txs, prevRoot, env);
            && Recovering(w', q) && w'.el.known <= w.el.known + {BlockOf(q)}
            && (root.Some? ==> root.value == RootOf(BlockOf(q)) && w'.el.head == w'.c.head == BlockOf(q))
  {
    ReuseIsBlock(w, q, env);
    var (w1, d) := Reconcile(w, HeightOf(q), q.time, q.txs, env);
    match d
    case Reuse(_) =>
    case Resume(_) => ProcessIsBlock(w1, q, env);
    case Fresh => FreshIsBlock(w1, q, prevRoot, env);
  }

  lemma {:induction false} EventKeeps(w: World, q: Request, e: Event)
    requires Recovering(w, q)
    ensures Recovering(After(w, q, e), q) && After(w, q, e).el.known <= w.el.known + {BlockOf(q)}
  {
    match e
    case Attempt(prevRoot, env) => AttemptIsBlock(w, q, prevRoot, env);
    case Crash => GenesisOnChain(w.el.head); GenesisOnChain(q.parent);
    case PayloadsLost =>
    case TipLost =>
      if w.el.head == BlockOf(q) {
        assert OnChain(q.parent, BlockOf(q));
        LowerHeadKeeps(w, q.parent);
      }
  }

  // ---------------------------------------------------------------- any number of attempts

  /** However often and wherever attempts fail or the node crashes, the execution layer is at the parent or at the one
      block of the request, no sibling is ever created, and every answer is that block's state root. */
  lemma {:induction false} RetryIsOneBlock(w: World, q: Request, es: seq<Event>)
    requires Recovering(w, q)
    ensures var w' := Retry(w, q, es);
            && Recovering(w', q)
            && w'.el.known <= w.el.known + {BlockOf(q)}
            && (w'.el.head == q.parent || w'.el.head == BlockOf(q))
    ensures forall r :: r in Answers(w, q, es) ==> r == RootOf(BlockOf(q))
    decreases |es|
  {
    if es != [] {
      EventKeeps(w, q, es[0]);
      if es[0].Attempt? {
        AttemptIsBlock(w, q, es[0].prevRoot, es[0].env);
      }
      RetryIsOneBlock(After(w, q, es[0]), q, es[1..]);
    }
  }

  /** An attempt with no failure answers, from every state a failed history can leave. */
  lemma {:induction false} CleanAttemptAnswers(w: World, q: Request, prevRoot: Option<Root>)
    requires Recovering(w, q) && (prevRoot.None? || prevRoot.value == RootOf(q.parent))
    ensures ExecuteTxs(w, HeightOf(q), q.time, q.txs, prevRoot, NO_FAULTS).1 == Some(RootOf(BlockOf(q)))
  {
    ReuseIsBlock(w, q, NO_FAULTS);
    var (w1, d) := Reconcile(w, HeightOf(q), q.time, q.txs, NO_FAULTS);
    match d
    case Reuse(_) =>
    case Resume(_) => CleanProcessAnswers(w1, q);
    case Fresh => CleanFreshAnswers(w1, q, prevRoot);
  }

  lemma {:induction false} CleanProcessAnswers(w: World, q: Request)
    requires Recovering(w, q) && IdOf(q) in w.el.payloads
    ensures ProcessPayload(w, IdOf(q), q.txs, NO_FAULTS).1 == Some(RootOf(BlockOf(q)))
  {
    var b := BlockOf(q);
    assert OnServedParent(w.el, IdOf(q)) by {
      assert At(b, HeightOf(q) - 1) == q.parent;
    }
    CacheFits(w, IdOf(q));
    ProcessUnfolds(w, q, NO_FAULTS);
    var w1 := w.(el := w.el.(known := w.el.known + {b}));
    PromoteUnfolds(w1, b, q.txs, NO_FAULTS);
    CleanPromoteAnswers(w1.(c := w.c.(cache := CachePut(w.c.cache, HeightOf(q), b))), q);
  }

  lemma {:induction false} ProcessUnfolds(w: World, q: Request, env: Env)
    requires IdOf(q) in w.el.payloads && q.parent in w.el.known && env.getPayload && env.newPayload.Answered?
    ensures ProcessPayload(w, IdOf(q), q.txs, env)
         == PromotePayload(w.(el := w.el.(known := w.el.known + {BlockOf(q)})), BlockOf(q), q.txs, env)
  {
  }

  lemma {:induction false} PromoteUnfolds(w: World, b: Block, txs: seq<Tx>, env: Env)
    requires b.Block?
    ensures var w1 := w.(c := w.c.(cache := CachePut(w.c.cache, Height(b), b)));
            SetFinalWithHeight(w1, b, Height(b), env.safeLookup, env.finalizedLookup, env.promote).1 ==>
              PromotePayload(w, b, txs, env).1 == Some(RootOf(b))
  {
  }

  lemma {:induction false} CleanPromoteAnswers(w: World, q: Request)
    requires CacheOn(w.c.cache, BlockOf(q)) && OnChain(q.parent, w.el.head) && LabelsOn(w.c, q.parent)
    requires BlockOf(q) in w.el.known
    ensures SetFinalWithHeight(w, BlockOf(q), HeightOf(q), Served, Served, Answered).1
  {
    var b := BlockOf(q);
    LabelsStayBelow(w, q, NO_FAULTS);
    var c := PromoteLabels(w, b, HeightOf(q), Served, Served);
    assert OnChain(q.parent, b);
    OnChainTransitive(c.safe, q.parent, b);
    OnChainTransitive(c.finalized, q.parent, b);
  }

  lemma {:induction false} CleanFreshAnswers(w: World, q: Request, prevRoot: Option<Root>)
    requires Recovering(w, q) && (prevRoot.None? || prevRoot.value == RootOf(q.parent))
    ensures ExecuteFresh(w, HeightOf(q), q.time, q.txs, prevRoot, NO_FAULTS).1 == Some(RootOf(BlockOf(q)))
  {
    FreshUnfolds(w, q, prevRoot, NO_FAULTS);
    OpenedRecovers(w, q, NO_FAULTS);
    CleanProcessAnswers(Opened(w, q, NO_FAULTS).0, q);
  }

  /** The recovery promise in full: the execution layer stands at N-1 and no foreign record is in the way; after any
      history of failures one clean attempt returns the state root of the one block at N and makes it the head. */
  lemma {:induction false} RecoveryEndsWithTheBlock(w: World, q: Request, es: seq<Event>, prevRoot: Option<Root>)
    requires Inv(w) && w.el.head == q.parent && Height(w.c.head) <= HeightOf(q) && RecordAgrees(w, q)
    requires prevRoot.None? || prevRoot.value == RootOf(q.parent)
    ensures var w1 := Retry(w, q, es);
            var (w2, root) := ExecuteTxs(w1, HeightOf(q), q.time, q.txs, prevRoot, NO_FAULTS);
            && root == Some(RootOf(BlockOf(q)))
            && w2.el.head == w2.c.head == BlockOf(q)
            && w2.el.known <= w.el.known + {BlockOf(q)}
    ensures forall r :: r in Answers(w, q, es) ==> r == RootOf(BlockOf(q))
  {
    RetryIsOneBlock(w, q, es);
    var w1 := Retry(w, q, es);
    CleanAttemptAnswers(w1, q, prevRoot);
    AttemptIsBlock(w1, q, prevRoot, NO_FAULTS);
  }
}
