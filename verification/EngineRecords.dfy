/** The transaction hash of a record: when it identifies the recorded transactions, and what a resumed payload then
    is. */
module EngineRecords {
  import opened Common
  import opened ExecutionLayer
  import opened EngineSpec
  import opened EngineSafety
  import opened EngineRecovery

  // ---------------------------------------------------------------- where transactions end

  predicate Over(txs: seq<Tx>, s: set<Tx>) {
    forall i :: 0 <= i < |txs| ==> txs[i] in s
  }

  /** No transaction is a proper prefix of another. */
  predicate PrefixFree(s: set<Tx>) {
    forall a, b :: a in s && b in s && a <= b ==> a == b
  }

  /** Two lists of one length that read the same bytes, whatever follows them. */
  predicate ReadsAlike(x: seq<Tx>, y: seq<Tx>, r: seq<nat>, s: seq<nat>) {
    |x| == |y| && Concat(x) + r == Concat(y) + s
  }

  /** The bytes tell where each transaction ends. */
  ghost predicate SelfDelimiting(s: set<Tx>) {
    forall x, y, r, t :: Over(x, s) && Over(y, s) && ReadsAlike(x, y, r, t) ==> x == y
  }

  /** Of two byte strings that start the same stream, one is a prefix of the other. */
  lemma {:induction false} OneIsPrefix(a: seq<nat>, b: seq<nat>, r: seq<nat>, s: seq<nat>)
    requires a + r == b + s
    ensures a <= b || b <= a
    ensures a == b ==> r == s
  {
    var all := a + r;
    assert all[..|a|] == a && all[..|b|] == b;
    assert a == b ==> all[|a|..] == r && all[|b|..] == s;
  }

  lemma {:induction false} FirstAgrees(x: seq<Tx>, y: seq<Tx>, r: seq<nat>, t: seq<nat>, s: set<Tx>)
    requires PrefixFree(s) && Over(x, s) && Over(y, s) && x != [] && y != []
    requires Concat(x) + r == Concat(y) + t
    ensures x[0] == y[0] && Concat(x[1..]) + r == Concat(y[1..]) + t
  {
    assert Concat(x) + r == x[0] + (Concat(x[1..]) + r);
    assert Concat(y) + t == y[0] + (Concat(y[1..]) + t);
    OneIsPrefix(x[0], y[0], Concat(x[1..]) + r, Concat(y[1..]) + t);
  }

  lemma {:induction false} PrefixFreeReads(x: seq<Tx>, y: seq<Tx>, r: seq<nat>, t: seq<nat>, s: set<Tx>)
    requires PrefixFree(s) && Over(x, s) && Over(y, s) && ReadsAlike(x, y, r, t)
    ensures x == y
    decreases |x|
  {
    if x != [] {
      FirstAgrees(x, y, r, t, s);
      PrefixFreeReads(x[1..], y[1..], r, t, s);
      assert x == [x[0]] + x[1..] && y == [y[0]] + y[1..];
    }
  }

  /** The bytes tell where each transaction ends if and only if none is a proper prefix of another. */
  lemma {:induction false} BoundariesExact(s: set<Tx>)
    ensures SelfDelimiting(s) <==> PrefixFree(s)
  {
    if PrefixFree(s) {
      forall x, y, r, t | Over(x, s) && Over(y, s) && ReadsAlike(x, y, r, t) ensures x == y {
        PrefixFreeReads(x, y, r, t, s);
      }
    } else {
      var a, b :| a in s && b in s && a <= b && a != b;
      var x, y: seq<Tx> := [a], [b];
      assert x[1..] == [] && y[1..] == [];
      assert Concat(x) == a && Concat(y) == b;
      assert ReadsAlike(x, y, b[|a|..], []);
      assert x[0] != y[0];
    }
  }

  lemma {:induction false} EmptyConcat(txs: seq<Tx>, s: set<Tx>)
    requires [] !in s && Over(txs, s)
    ensures Concat(txs) == [] <==> txs == []
  {
    assert txs != [] ==> txs[0] != [];
  }

  /** For non-empty transactions of which none is a proper prefix of another the recorded hash identifies the list. */
  lemma {:induction false} SameTxHash(x: seq<Tx>, y: seq<Tx>, s: set<Tx>)
    requires PrefixFree(s) && [] !in s && Over(x, s) && Over(y, s)
    ensures HashTxs(x) == HashTxs(y) <==> x == y
    decreases |x|
  {
    if x != [] && y != [] && Concat(x) == Concat(y) {
      assert Concat(x) + [] == Concat(x) && Concat(y) + [] == Concat(y);
      FirstAgrees(x, y, [], [], s);
      assert Concat(x[1..]) + [] == Concat(x[1..]) && Concat(y[1..]) + [] == Concat(y[1..]);
      assert x == [x[0]] + x[1..] && y == [y[0]] + y[1..];
      EmptyConcat(x[1..], s);
      EmptyConcat(y[1..], s);
      SameTxHash(x[1..], y[1..], s);
    }
  }

  lemma {:induction false} NothingFiltered(txs: seq<Tx>, s: set<Tx>)
    requires [] !in s && Over(txs, s)
    ensures FilterTransactions(txs) == txs
  {
    if txs != [] {
      NothingFiltered(txs[1..], s);
    }
  }

  // ---------------------------------------------------------------- records over whole runs

  /** The record of a payload build for the transactions `txs`. */
  predicate MadeFor(m: ExecMeta, txs: seq<Tx>) {
    m.Started? && m.id.time == m.time && m.txHash == HashTxs(txs) && m.id.txs == FilterTransactions(txs)
  }

  ghost predicate MadeOver(m: ExecMeta, s: set<Tx>) {
    exists txs :: Over(txs, s) && MadeFor(m, txs)
  }

  ghost predicate RecordsOver(metas: map<nat, ExecMeta>, s: set<Tx>) {
    forall n :: n in metas && metas[n].Started? ==> MadeOver(metas[n], s)
  }

  lemma {:induction false} ProcessRecords(w: World, id: PayloadId, txs: seq<Tx>, env: Env, s: set<Tx>)
    requires RecordsOver(w.metas, s)
    ensures RecordsOver(ProcessPayload(w, id, txs, env).0.metas, s)
  {
  }

  lemma {:induction false} OpenRecords(w: World, n: nat, p: Block, time: int, txs: seq<Tx>, env: Env, s: set<Tx>)
    requires n > 0 && RecordsOver(w.metas, s) && Over(txs, s)
    ensures RecordsOver(OpenBuild(w, n, p, time, txs, env).0.metas, s)
  {
    var m := Started(time, HashTxs(txs), PayloadId(p, time, FilterTransactions(txs)));
    assert MadeFor(m, txs);
    assert MadeOver(m, s);
  }

  lemma {:induction false} ExecuteRecords(
      w: World, n: nat, time: int, txs: seq<Tx>, prevRoot: Option<Root>, env: Env, s: set<Tx>)
    requires n > 0 && RecordsOver(w.metas, s) && Over(txs, s)
    ensures RecordsOver(ExecuteTxs(w, n, time, txs, prevRoot, env).0.metas, s)
  {
    var (w1, d) := Reconcile(w, n, time, txs, env);
    assert RecordsOver(w1.metas, s);
    match d
    case Reuse(_) =>
    case Resume(id) => ProcessRecords(w1, id, txs, env, s);
    case Fresh =>
      var f := HeaderByNumber(w1.el, n - 1, env.parentLookup);
      if f.Found? {
        OpenRecords(w1, n, f.block, time, txs, env, s);
        var w2 := OpenBuild(w1, n, f.block, time, txs, env).0;
        ProcessRecords(w2, PayloadId(f.block, time, FilterTransactions(txs)), txs, env, s);
      }
  }

  predicate RunOver(ops: seq<Op>, s: set<Tx>) {
    forall i :: 0 <= i < |ops| && ops[i].Execute? ==> Over(ops[i].txs, s)
  }

  lemma {:induction false} RunRecords(w: World, ops: seq<Op>, s: set<Tx>)
    requires RecordsOver(w.metas, s) && RunOver(ops, s)
    ensures RecordsOver(Run(w, ops).metas, s)
    decreases |ops|
  {
    if ops != [] {
      var op := ops[0];
      if op.Execute? && op.n > 0 {
        ExecuteRecords(w, op.n, op.time, op.txs, op.prevRoot, op.env, s);
      }
      RunRecords(Step(w, op), ops[1..], s);
    }
  }

  // ---------------------------------------------------------------- what a resumed payload is

  /** A record for the request's height whose payload could be resumed sits on the served block. */
  predicate RecordOnParent(w: World, n: nat) {
    n in w.metas && w.metas[n].Started? && w.metas[n].id in w.el.payloads ==> OnServedParent(w.el, w.metas[n].id)
  }

  /** With prefix-free transactions and the record on the served parent, a payload that is resumed is the requested
      one. */
  lemma {:induction false} ResumedIsRequested(w: World, q: Request, s: set<Tx>)
    requires Inv(w) && (w.el.head == q.parent || w.el.head == BlockOf(q))
    requires PrefixFree(s) && [] !in s && Over(q.txs, s)
    requires RecordsOver(w.metas, s) && RecordOnParent(w, HeightOf(q))
    ensures RecordAgrees(w, q)
    ensures forall env :: ResumeOf(w, HeightOf(q), q.time, q.txs, env).Some? ==>
                            ResumeOf(w, HeightOf(q), q.time, q.txs, env).value == IdOf(q)
  {
    var n := HeightOf(q);
    if n in w.metas && w.metas[n].Started? && w.metas[n].time == q.time && w.metas[n].txHash == HashTxs(q.txs)
       && w.metas[n].id in w.el.payloads {
      assert MadeOver(w.metas[n], s);
      var txs :| Over(txs, s) && MadeFor(w.metas[n], txs);
      SameTxHash(txs, q.txs, s);
      assert Height(Build(w.metas[n].id)) == n;
      assert At(BlockOf(q), n - 1) == q.parent;
    }
  }

  /** Recovery with conditions a caller can see: after any admissible run over prefix-free transactions that leaves the
      execution layer at the parent of the request and no record on another parent, any history of failures followed by
      one clean attempt ends with the one requested block and its root. */
  lemma {:induction false} RecoveryAfterAnyRun(
      w: World, ops: seq<Op>, q: Request, es: seq<Event>, prevRoot: Option<Root>, s: set<Tx>)
    requires Safe(w) && AdmissibleRun(w, ops) && RecordsOver(w.metas, s) && RunOver(ops, s)
    requires PrefixFree(s) && [] !in s && Over(q.txs, s)
    requires Run(w, ops).el.head == q.parent && Height(Run(w, ops).c.head) <= HeightOf(q)
    requires RecordOnParent(Run(w, ops), HeightOf(q))
    requires prevRoot.None? || prevRoot.value == RootOf(q.parent)
    ensures var w1 := Retry(Run(w, ops), q, es);
            var (w2, root) := ExecuteTxs(w1, HeightOf(q), q.time, q.txs, prevRoot, NO_FAULTS);
            && root == Some(RootOf(BlockOf(q)))
            && w2.el.head == w2.c.head == BlockOf(q)
            && w2.el.known <= Run(w, ops).el.known + {BlockOf(q)}
  {
    RunSafe(w, ops);
    assert Inv(Run(w, ops));
    RunRecords(w, ops, s);
    ResumedIsRequested(Run(w, ops), q, s);
    RecoveryEndsWithTheBlock(Run(w, ops), q, es, prevRoot);
  }
}
