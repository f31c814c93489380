/** What the calls of the engine client answer and leave behind: which block, which labels, which record. */
module EngineAnswers {
  import opened Common
  import opened ExecutionLayer
  import opened EngineSpec
  import opened EngineSafety
  import opened EngineRecovery

  // ---------------------------------------------------------------- SetFinal and Rollback

  /** SetFinal moves both labels, and nothing else of the client, to the served block; it succeeds if and only if the
      fork choice is answered for a known head that is not below the height. A height that is not served changes
      nothing: it is a success only when the look-up says so without an error and the head is at or above it. */
  lemma {:induction false} SetFinalExact(w: World, n: nat, l: Lookup, headLookup: Lookup, o: Rpc)
    requires Safe(w)
    ensures var (w', ok) := SetFinal(w, n, l, headLookup, o);
            if l.Served? && n <= Height(w.el.head) then
              var b := At(w.el.head, n);
              var accepted := w.c.head in w.el.known && n <= Height(w.c.head);
              && w'.c == Client(w.c.head, w.c.headHeight, b, b, w.c.cache) && w'.metas == w.metas
              && w'.el == (if o.NotReached? || !accepted then w.el else w.el.(head := w.c.head))
              && (ok <==> o.Answered? && accepted)
            else w' == w && (ok <==> !l.Down? && headLookup.Served? && n <= Height(w.el.head))
  {
    if l.Served? && n <= Height(w.el.head) {
      var b := At(w.el.head, n);
      ServedBelow(w.el, n, l);
      if !Inv(w) {
        OnChainTransitive(b, w.el.head, w.c.head);
      } else if n <= Height(w.c.head) {
        OnChainCarries(b, w.el.head, w.c.head);
      }
    }
  }

  /** Rollback moves the head and both labels to the served block, keeps the cache, and succeeds if and only if the fork
      choice is answered. A height that is not served is an error that changes nothing. */
  lemma {:induction false} RollbackExact(w: World, n: nat, l: Lookup, o: Rpc)
    requires Safe(w)
    ensures var (w', ok) := Rollback(w, n, l, o);
            if l.Served? && n <= Height(w.el.head) then
              var b := At(w.el.head, n);
              && w'.c == Client(b, n, b, b, w.c.cache) && w'.metas == w.metas
              && w'.el == (if o.NotReached? then w.el else w.el.(head := b))
              && (ok <==> o.Answered?)
            else w' == w && !ok
  {
    if l.Served? && n <= Height(w.el.head) {
      ServedBelow(w.el, n, l);
    }
  }

  // ---------------------------------------------------------------- the hash cache

  lemma {:induction false} RangeSize(s: set<nat>, lo: nat, hi: nat)
    requires lo <= hi && forall k :: k in s ==> lo <= k < hi
    ensures |s| <= hi - lo
    decreases hi
  {
    if lo == hi {
      assert s == {};
    } else {
      RangeSize(s - {hi - 1}, lo, hi - 1);
      assert s <= (s - {hi - 1}) + {hi - 1};
    }
  }

  /** The cache holds the new hash and every entry at most nine heights below it, nothing that was not put, and, as long
      as heights only rise, at most ten entries. */
  lemma {:induction false} CacheBounded(m: map<nat, Block>, h: nat, b: Block)
    ensures var m' := CachePut(m, h, b);
            && h in m' && m'[h] == b
            && (forall k :: k in m && k != h && h <= k + 9 ==> k in m' && m'[k] == m[k])
            && (forall k :: k in m' && k != h ==> k in m && m'[k] == m[k])
            && (|m| <= 10 && (forall k :: k in m ==> k <= h) ==> |m'| <= 10)
  {
    var m' := CachePut(m, h, b);
    if |m[h := b]| > 10 && forall k :: k in m ==> k <= h {
      RangeSize(m'.Keys, MinCached(h), h + 1);
    }
  }

  // ---------------------------------------------------------------- the payload's transactions

  /** The payload holds exactly the non-empty transactions, in order. */
  lemma {:induction false} FilterExact(a: seq<Tx>, t: Tx)
    ensures FilterTransactions(a + [t]) == if t == [] then FilterTransactions(a) else FilterTransactions(a) + [t]
    ensures forall i :: 0 <= i < |FilterTransactions(a)| ==> FilterTransactions(a)[i] != []
    ensures Concat(FilterTransactions(a)) == Concat(a)
  {
    FilterSnoc(a, t);
    FilterDropsEmpty(a);
  }

  lemma {:induction false} FilterDropsEmpty(a: seq<Tx>)
    ensures forall i :: 0 <= i < |FilterTransactions(a)| ==> FilterTransactions(a)[i] != []
    ensures Concat(FilterTransactions(a)) == Concat(a)
  {
    if a != [] {
      FilterDropsEmpty(a[1..]);
      var rest := FilterTransactions(a[1..]);
      assert ([a[0]] + rest)[1..] == rest && [] + rest == rest;
      assert a[0] == [] ==> Concat(a) == Concat(a[1..]);
    }
  }

  // ---------------------------------------------------------------- what a block leaves behind

  /** A payload that answers leaves its block as head at its height, cached, and recorded with its time and
      transactions. */
  lemma {:induction false} ProcessShows(w: World, id: PayloadId, txs: seq<Tx>, env: Env)
    requires ProcessPayload(w, id, txs, env).1.Some?
    ensures var w' := ProcessPayload(w, id, txs, env).0;
            var b := Build(id);
            var n := Height(b);
            && w'.c.head == b == w'.el.head && w'.c.headHeight == n && w'.c.cache == CachePut(w.c.cache, n, b)
            && w'.el.known == w.el.known + {b}
            && w'.metas == (if env.promotedWrite then w.metas[n := Promoted(id.time, HashTxs(txs), RootOf(b))]
                            else w.metas)
  {
  }

  /** The block a fresh execution asks for. */
  function Wanted(el: EL, n: nat, time: int, txs: seq<Tx>): Block
    requires 0 < n <= Height(el.head) + 1
  {
    Block(At(el.head, n - 1), time, FilterTransactions(txs))
  }

  /** No record can be resumed, and the execution layer does not serve a block of this time at the height. */
  predicate NothingToReuse(w: World, n: nat, time: int, txs: seq<Tx>)
    requires 0 < n
  {
    && ResumeOf(w, n, time, txs, NO_FAULTS).None?
    && (n <= Height(w.el.head) ==> At(w.el.head, n).time != time)
  }

  lemma {:induction false} RollsBackOne(w: World, n: nat, time: int, txs: seq<Tx>)
    requires Inv(w) && 0 < n <= Height(w.el.head) && NothingToReuse(w, n, time, txs)
    ensures var (w1, d) := Reconcile(w, n, time, txs, NO_FAULTS);
            && d == Fresh && Recovering(w1, Request(At(w.el.head, n - 1), time, txs))
            && w1.el == w.el.(head := At(w.el.head, n - 1)) && w1.metas == w.metas
  {
    var p := At(w.el.head, n - 1);
    ServedBelow(w.el, n, Served);
    ServedBelow(w.el, n - 1, Served);
    RollbackExact(w, n - 1, Served, Answered);
    RollbackKeeps(w, n - 1, Served, Answered);
    assert PromotedBlock(w, n, time, NO_FAULTS).None?;
    assert Reconcile(w, n, time, txs, NO_FAULTS) == (Rollback(w, n - 1, Served, Answered).0, Fresh);
  }

  lemma {:induction false} TipIsFresh(w: World, n: nat, time: int, txs: seq<Tx>)
    requires Inv(w) && n == Height(w.el.head) + 1 && Height(w.c.head) <= n && NothingToReuse(w, n, time, txs)
    ensures Reconcile(w, n, time, txs, NO_FAULTS) == (w, Fresh)
    ensures Recovering(w, Request(w.el.head, time, txs))
  {
  }

  /** A call without faults that finds nothing to reuse builds the block of the given time and transactions on the
      block served at N-1, rolling another block at N back first, answers its root, makes it the head on both sides
      and records it. */
  lemma {:induction false} CleanCallBuilds(w: World, n: nat, time: int, txs: seq<Tx>, prevRoot: Option<Root>)
    requires Inv(w) && 0 < n <= Height(w.el.head) + 1 && NothingToReuse(w, n, time, txs)
    requires n <= Height(w.el.head) || Height(w.c.head) <= n
    requires prevRoot.None? || prevRoot.value == RootOf(At(w.el.head, n - 1))
    ensures var (w', root) := ExecuteTxs(w, n, time, txs, prevRoot, NO_FAULTS);
            var b := Wanted(w.el, n, time, txs);
            && root == Some(RootOf(b)) && w'.el.head == w'.c.head == b && w'.c.headHeight == n
            && w'.el.known == w.el.known + {b}
            && w'.metas == w.metas[n := Promoted(time, HashTxs(txs), RootOf(b))]
  {
    if n <= Height(w.el.head) {
      RollsBackOne(w, n, time, txs);
    } else {
      TipIsFresh(w, n, time, txs);
    }
    var w1 := Reconcile(w, n, time, txs, NO_FAULTS).0;
    FreshShows(w1, Request(At(w.el.head, n - 1), time, txs), prevRoot);
  }

  lemma {:induction false} FreshShows(w: World, q: Request, prevRoot: Option<Root>)
    requires Recovering(w, q) && (prevRoot.None? || prevRoot.value == RootOf(q.parent))
    ensures var (w', root) := ExecuteFresh(w, HeightOf(q), q.time, q.txs, prevRoot, NO_FAULTS);
            var b := BlockOf(q);
            && root == Some(RootOf(b)) && w'.el.head == w'.c.head == b && w'.c.headHeight == HeightOf(q)
            && w'.el.known == w.el.known + {b}
            && w'.metas == w.metas[HeightOf(q) := Promoted(q.time, HashTxs(q.txs), RootOf(b))]
  {
    FreshUnfolds(w, q, prevRoot, NO_FAULTS);
    OpenedRecovers(w, q, NO_FAULTS);
    var w1 := Opened(w, q, NO_FAULTS).0;
    CleanProcessAnswers(w1, q);
    ProcessShows(w1, IdOf(q), q.txs, NO_FAULTS);
  }

  /** A call for a block that is already served with its time answers that block's root and moves only the head to it;
      the execution layer follows if and only if no label is above the block. */
  lemma {:induction false} CleanCallReuses(w: World, n: nat, time: int, txs: seq<Tx>, prevRoot: Option<Root>)
    requires Inv(w) && 0 < n <= Height(w.el.head) && At(w.el.head, n).time == time
    requires ResumeOf(w, n, time, txs, NO_FAULTS).None?
    ensures var (w', root) := ExecuteTxs(w, n, time, txs, prevRoot, NO_FAULTS);
            var b := At(w.el.head, n);
            var labelsBelow := Height(w.c.safe) <= n && Height(w.c.finalized) <= n;
            && root == Some(RootOf(b)) && w'.c == w.c.(head := b)
            && w'.el == (if labelsBelow then w.el.(head := b) else w.el)
            && (forall k :: k != n ==>
                  (k in w'.metas <==> k in w.metas) && (k in w.metas ==> w'.metas[k] == w.metas[k]))
            && n in w'.metas && w'.metas[n].Promoted? && w'.metas[n].time == time
  {
    ServedBelow(w.el, n, Served);
    var b := At(w.el.head, n);
    if Height(w.c.safe) <= n {
      OnChainCarries(w.c.safe, w.el.head, b);
    }
    if Height(w.c.finalized) <= n {
      OnChainCarries(w.c.finalized, w.el.head, b);
    }
  }

  /** A call that resumes a record that fits answers the recorded payload's root and makes its block the head on both
      sides. */
  lemma {:induction false} CleanCallResumes(w: World, n: nat, time: int, txs: seq<Tx>, prevRoot: Option<Root>)
    requires n > 0 && ResumeOf(w, n, time, txs, NO_FAULTS).Some?
    requires var id := ResumeOf(w, n, time, txs, NO_FAULTS).value; ResumeFits(w, id) && id.parent in w.el.known
    ensures var (w', root) := ExecuteTxs(w, n, time, txs, prevRoot, NO_FAULTS);
            var b := Build(ResumeOf(w, n, time, txs, NO_FAULTS).value);
            root == Some(RootOf(b)) && w'.el.head == w'.c.head == b && w'.el.known == w.el.known + {b}
  {
    var id := ResumeOf(w, n, time, txs, NO_FAULTS).value;
    assert PromotedBlock(w, n, time, NO_FAULTS).None?;
    ResumedAnswers(w, id, txs);
    ProcessShows(w, id, txs, NO_FAULTS);
  }

  lemma {:induction false} ResumedAnswers(w: World, id: PayloadId, txs: seq<Tx>)
    requires ResumeFits(w, id) && id.parent in w.el.known && id in w.el.payloads
    ensures ProcessPayload(w, id, txs, NO_FAULTS).1 == Some(RootOf(Build(id)))
  {
    var b := Build(id);
    var w1 := w.(el := w.el.(known := w.el.known + {b}), c := w.c.(cache := CachePut(w.c.cache, Height(b), b)));
    ResumedLabels(w1, b, Served, Served);
    assert SetFinalWithHeight(w1, b, Height(b), Served, Served, Answered).1;
  }

  // ---------------------------------------------------------------- when an attempt answers

  lemma {:induction false} PromoteAnswersExactly(w: World, q: Request, env: Env)
    requires CacheOn(CachePut(w.c.cache, HeightOf(q), BlockOf(q)), BlockOf(q)) && Around(w, q)
    requires BlockOf(q) in w.el.known
    ensures PromotePayload(w, BlockOf(q), q.txs, env).1.Some? <==> env.promote.Answered?
  {
    var b := BlockOf(q);
    var w1 := w.(c := w.c.(cache := CachePut(w.c.cache, HeightOf(q), b)));
    assert OnChain(q.parent, b);
    LabelsStayBelow(w1, q, env);
    var c := PromoteLabels(w1, b, HeightOf(q), env.safeLookup, env.finalizedLookup);
    OnChainTransitive(c.safe, q.parent, b);
    OnChainTransitive(c.finalized, q.parent, b);
  }

  lemma {:induction false} ProcessAnswersExactly(w: World, q: Request, env: Env)
    requires Recovering(w, q) && IdOf(q) in w.el.payloads
    ensures ProcessPayload(w, IdOf(q), q.txs, env).1.Some? <==>
              env.getPayload && env.newPayload.Answered? && env.promote.Answered?
  {
    if env.getPayload && env.newPayload.Answered? {
      ProcessUnfolds(w, q, env);
      RecoveringCacheFits(w, q);
      PromoteAnswersExactly(w.(el := w.el.(known := w.el.known + {BlockOf(q)})), q, env);
    } else {
      UnfetchedAnswersNothing(w, IdOf(q), q.txs, env);
    }
  }

  lemma {:induction false} UnfetchedAnswersNothing(w: World, id: PayloadId, txs: seq<Tx>, env: Env)
    requires !env.getPayload || !env.newPayload.Answered?
    ensures ProcessPayload(w, id, txs, env).1.None?
  {
  }

  lemma {:induction false} RecoveringCacheFits(w: World, q: Request)
    requires Recovering(w, q)
    ensures CacheOn(CachePut(w.c.cache, HeightOf(q), BlockOf(q)), BlockOf(q))
  {
    assert At(BlockOf(q), HeightOf(q) - 1) == q.parent;
    CacheFits(w, IdOf(q));
  }

  /** While a block is being recovered the check reuses it if and only if it is served and can be seen, and resumes a
      record if and only if there is one to resume. */
  lemma {:induction false} DecisionExactly(w: World, q: Request, env: Env)
    requires Recovering(w, q)
    ensures var d := Reconcile(w, HeightOf(q), q.time, q.txs, env).1;
            var n := HeightOf(q);
            var resumed := ResumeOf(w, n, q.time, q.txs, env).Some?;
            var promoted := env.metaRead && n in w.metas && w.metas[n].Promoted? && w.metas[n].time == q.time;
            && (d.Resume? <==> resumed)
            && (d.Reuse? <==> w.el.head == BlockOf(q) && !resumed &&
                              ((promoted && env.promotedLookup.Served?) || env.existingLookup.Served?))
  {
    ServedAtHeight(w, q, env.promotedLookup);
    ServedAtHeight(w, q, env.existingLookup);
  }

  /** An attempt answers if and only if every call on its way is answered: all of them for a fresh block, the ones after
      the build for a resumed one, none for a reused one, and the proposer query in every case. */
  lemma {:induction false} AttemptAnswersExactly(w: World, q: Request, prevRoot: Option<Root>, env: Env)
    requires Recovering(w, q)
    ensures var d := Reconcile(w, HeightOf(q), q.time, q.txs, env).1;
            var processed := env.getPayload && env.newPayload.Answered? && env.promote.Answered?;
            var built := env.parentLookup.Served? && (prevRoot.None? || prevRoot.value == RootOf(q.parent))
                          && env.build.Answered?;
            ExecuteTxs(w, HeightOf(q), q.time, q.txs, prevRoot, env).1.Some? <==>
              env.proposer && (d.Reuse? || (d.Resume? && processed) || (d.Fresh? && built && processed))
  {
    ReuseIsBlock(w, q, env);
    var (w1, d) := Reconcile(w, HeightOf(q), q.time, q.txs, env);
    match d
    case Reuse(_) =>
    case Resume(_) => ProcessAnswersExactly(w1, q, env);
    case Fresh =>
      FreshUnfolds(w1, q, prevRoot, env);
      OpenedRecovers(w1, q, env);
      OpenedExactly(w1, q, env);
      if Opened(w1, q, env).1 {
        ProcessAnswersExactly(Opened(w1, q, env).0, q, env);
      }
  }

  lemma {:induction false} OpenedExactly(w: World, q: Request, env: Env)
    requires Recovering(w, q)
    ensures Opened(w, q, env).1 <==> env.build.Answered?
  {
  }
}
