/** The EVM engine client as a state machine over the execution layer: what every call does to the
    client's labels, its hash cache, the ExecMeta records and the execution layer, for every way the
    remote calls can end. */
module EngineSpec {
  import opened Common
  import opened ExecutionLayer

  const SAFE_BLOCK_LAG := 2
  const FINALIZED_BLOCK_LAG := 3
  const MAX_CACHE_SIZE := 10

  /** A state root names the block whose execution produced it. */
  datatype Root = RootOf(block: Block)

  /** SHA-256 over the concatenated transactions; no transactions give no hash at all. */
  datatype TxHash = NoTxs | Sha(bytes: seq<nat>)

  function Concat(txs: seq<Tx>): seq<nat> {
    if txs == [] then [] else txs[0] + Concat(txs[1..])
  }

  function HashTxs(txs: seq<Tx>): TxHash {
    if txs == [] then NoTxs else Sha(Concat(txs))
  }

  /** Empty transactions are not sent to the execution layer. */
  function FilterTransactions(txs: seq<Tx>): seq<Tx> {
    if txs == [] then []
    else (if txs[0] == [] then [] else [txs[0]]) + FilterTransactions(txs[1..])
  }

  lemma {:induction false} FilterSnoc(txs: seq<Tx>, t: Tx)
    ensures FilterTransactions(txs + [t]) == FilterTransactions(txs) + if t == [] then [] else [t]
  {
    if txs == [] {
      assert (txs + [t])[1..] == [];
    } else {
      assert (txs + [t])[1..] == txs[1..] + [t];
      FilterSnoc(txs[1..], t);
    }
  }

  datatype ExecMeta =
    | Started(time: int, txHash: TxHash, id: PayloadId)
    | Promoted(time: int, txHash: TxHash, root: Root)

  datatype Client = Client(head: Block, headHeight: nat, safe: Block, finalized: Block, cache: map<nat, Block>)

  /** Everything the client can see: its memory, the execution layer and the persisted records. */
  datatype World = World(c: Client, el: EL, metas: map<nat, ExecMeta>)

  const FRESH_CLIENT := Client(Genesis, 0, Genesis, Genesis, map[])

  /** How each remote call and database write inside one ExecuteTxs ends. */
  datatype Env = Env(
    metaRead: bool,
    promotedLookup: Lookup,
    probe: bool,
    existingLookup: Lookup,
    setHead: Rpc,
    reuseWrite: bool,
    rollbackLookup: Lookup,
    rollback: Rpc,
    parentLookup: Lookup,
    build: Rpc,
    startedWrite: bool,
    getPayload: bool,
    newPayload: Rpc,
    safeLookup: Lookup,
    finalizedLookup: Lookup,
    promote: Rpc,
    promotedWrite: bool,
    proposer: bool)

  const NO_FAULTS := Env(true, Served, true, Served, Answered, true, Served, Answered, Served, Answered,
                         true, true, Answered, Served, Served, Answered, true, true)

  // ---------------------------------------------------------------- client memory

  function MinCached(h: nat): nat {
    if h >= MAX_CACHE_SIZE - 1 then h - (MAX_CACHE_SIZE - 1) else 0
  }

  /** cacheBlockHash: store, then drop everything more than nine heights below when over ten entries. */
  function CachePut(m: map<nat, Block>, h: nat, b: Block): map<nat, Block> {
    var m' := m[h := b];
    if |m'| > MAX_CACHE_SIZE then map k | k in m' && k >= MinCached(h) :: m'[k] else m'
  }

  /** A label look-up: the cache first, the execution layer on a miss. */
  function LookupHash(w: World, h: nat, l: Lookup): Option<Block> {
    if h in w.c.cache then Some(w.c.cache[h])
    else match HeaderByNumber(w.el, h, l)
         case Found(b) => Some(b)
         case _ => None
  }

  // ---------------------------------------------------------------- fork choice

  function SetHead(w: World, b: Block, o: Rpc): World {
    var c := w.c.(head := b);
    var (el, _) := Forkchoice(w.el, c.head, c.safe, c.finalized, o);
    w.(c := c, el := el)
  }

  /** The fields after promoting `b` at height `n`, before the fork choice call. */
  function PromoteLabels(w: World, b: Block, n: nat, safeLookup: Lookup, finalizedLookup: Lookup): Client {
    var safe := if n > SAFE_BLOCK_LAG then LookupHash(w, n - SAFE_BLOCK_LAG, safeLookup) else None;
    var final := if n > FINALIZED_BLOCK_LAG then LookupHash(w, n - FINALIZED_BLOCK_LAG, finalizedLookup) else None;
    w.c.(head := b, headHeight := n,
         safe := if safe.Some? then safe.value else w.c.safe,
         finalized := if final.Some? then final.value else w.c.finalized)
  }

  function SetFinalWithHeight(w: World, b: Block, n: nat, safeLookup: Lookup, finalizedLookup: Lookup, o: Rpc)
    : (World, bool)
  {
    var c := PromoteLabels(w, b, n, safeLookup, finalizedLookup);
    var (el, ok) := Forkchoice(w.el, c.head, c.safe, c.finalized, o);
    (w.(c := c, el := el), ok)
  }

  /** setFinalWithHeight with isFinal: both labels move to `b`, the head stays. */
  function MarkFinal(w: World, b: Block, o: Rpc): (World, bool) {
    var c := w.c.(finalized := b, safe := b);
    var (el, ok) := Forkchoice(w.el, c.head, c.safe, c.finalized, o);
    (w.(c := c, el := el), ok)
  }

  function SetFinal(w: World, n: nat, l: Lookup, headLookup: Lookup, o: Rpc): (World, bool) {
    match HeaderByNumber(w.el, n, l)
    case Found(b) => MarkFinal(w, b, o)
    case LookupError => (w, false)
    case Unavailable => (w, headLookup.Served? && n <= Height(w.el.head))
  }

  function Rollback(w: World, n: nat, l: Lookup, o: Rpc): (World, bool) {
    match HeaderByNumber(w.el, n, l)
    case Found(b) =>
      var c := w.c.(head := b, headHeight := n, safe := b, finalized := b);
      var (el, ok) := Forkchoice(w.el, b, b, b, o);
      (w.(c := c, el := el), ok)
    case _ => (w, false)
  }

  // ---------------------------------------------------------------- execution

  /** What the idempotency check decides. */
  datatype Decision = Reuse(root: Root) | Resume(id: PayloadId) | Fresh

  function SaveMeta(w: World, n: nat, m: ExecMeta, kept: bool): World {
    if kept then w.(metas := w.metas[n := m]) else w
  }

  /** The record of height `n`, if it can be read. */
  function ReadMeta(w: World, n: nat, env: Env): Option<ExecMeta> {
    if env.metaRead && n in w.metas then Some(w.metas[n]) else None
  }

  /** The idempotency check resumes exactly this payload. */
  function ResumeOf(w: World, n: nat, time: int, txs: seq<Tx>, env: Env): Option<PayloadId> {
    var m := ReadMeta(w, n, env);
    if m.Some? && m.value.Started? && m.value.time == time && m.value.txHash == HashTxs(txs)
       && env.probe && m.value.id in w.el.payloads
    then Some(m.value.id) else None
  }

  /** A promoted record of the same time whose block the execution layer serves with that time. */
  function PromotedBlock(w: World, n: nat, time: int, env: Env): Option<Block> {
    var m := ReadMeta(w, n, env);
    if m.Some? && m.value.Promoted? && m.value.time == time then
      match HeaderByNumber(w.el, n, env.promotedLookup)
      case Found(b) => if b.Block? && b.time == time then Some(b) else None
      case _ => None
    else None
  }

  function Reconcile(w: World, n: nat, time: int, txs: seq<Tx>, env: Env): (World, Decision)
    requires n > 0
  {
    var promoted := PromotedBlock(w, n, time, env);
    if promoted.Some? then (SetHead(w, promoted.value, env.setHead), Reuse(RootOf(promoted.value)))
    else
      var resumed := ResumeOf(w, n, time, txs, env);
      if resumed.Some? then (w, Resume(resumed.value))
      else ReconcileWithEL(w, n, time, txs, env)
  }

  /** Second half of the check: the execution layer's own block at this height. */
  function ReconcileWithEL(w: World, n: nat, time: int, txs: seq<Tx>, env: Env): (World, Decision)
    requires n > 0
  {
    match HeaderByNumber(w.el, n, env.existingLookup)
    case Found(b) =>
      if b.Block? && b.time == time then
        var w' := SetHead(w, b, env.setHead);
        (SaveMeta(w', n, Promoted(time, HashTxs(txs), RootOf(b)), env.reuseWrite), Reuse(RootOf(b)))
      else (Rollback(w, n - 1, env.rollbackLookup, env.rollback).0, Fresh)
    case _ => (w, Fresh)
  }

  /** After newPayload: cache the hash, move the labels, record the promotion. */
  function PromotePayload(w: World, b: Block, txs: seq<Tx>, env: Env): (World, Option<Root>)
    requires b.Block?
  {
    var n := Height(b);
    var w1 := w.(c := w.c.(cache := CachePut(w.c.cache, n, b)));
    var (w2, ok) := SetFinalWithHeight(w1, b, n, env.safeLookup, env.finalizedLookup, env.promote);
    if !ok then (w2, None)
    else (SaveMeta(w2, n, Promoted(b.time, HashTxs(txs), RootOf(b)), env.promotedWrite), Some(RootOf(b)))
  }

  function ProcessPayload(w: World, id: PayloadId, txs: seq<Tx>, env: Env): (World, Option<Root>) {
    if !env.getPayload || id !in w.el.payloads then (w, None)
    else
      var (el, accepted) := NewPayload(w.el, Build(id), env.newPayload);
      var w1 := w.(el := el);
      if !accepted then (w1, None) else PromotePayload(w1, Build(id), txs, env)
  }

  /** Opens a payload build on the block `p` at `n - 1` and records it. */
  function OpenBuild(w: World, n: nat, p: Block, time: int, txs: seq<Tx>, env: Env): (World, bool)
    requires n > 0
  {
    var payload := FilterTransactions(txs);
    var w1 := w.(c := w.c.(cache := CachePut(w.c.cache, n - 1, p)));
    var (el, ok) := ForkchoiceBuild(w1.el, p, w1.c.safe, w1.c.finalized, time, payload, env.build);
    var w2 := w1.(el := el);
    (if ok then SaveMeta(w2, n, Started(time, HashTxs(txs), PayloadId(p, time, payload)), env.startedWrite) else w2, ok)
  }

  /** Steps 2 to 4 of ExecuteTxs: build on the block at `n - 1`, record the payload, process it. */
  function ExecuteFresh(w: World, n: nat, time: int, txs: seq<Tx>, prevRoot: Option<Root>, env: Env)
    : (World, Option<Root>)
    requires n > 0
  {
    match HeaderByNumber(w.el, n - 1, env.parentLookup)
    case Found(p) =>
      if prevRoot.Some? && prevRoot.value != RootOf(p) then (w, None)
      else
        var (w', ok) := OpenBuild(w, n, p, time, txs, env);
        if ok then ProcessPayload(w', PayloadId(p, time, FilterTransactions(txs)), txs, env) else (w', None)
    case _ => (w, None)
  }

  function ExecuteTxs(w: World, n: nat, time: int, txs: seq<Tx>, prevRoot: Option<Root>, env: Env)
    : (World, Option<Root>)
    requires n > 0
  {
    var (w1, d) := Reconcile(w, n, time, txs, env);
    var (w2, root) := match d
      case Reuse(root) => (w1, Some(root))
      case Resume(id) => ProcessPayload(w1, id, txs, env)
      case Fresh => ExecuteFresh(w1, n, time, txs, prevRoot, env);
    // the proposer query after the block can still turn the answer into an error
    (w2, if env.proposer then root else None)
  }

  // ---------------------------------------------------------------- runs

  datatype Op =
    | Execute(n: nat, time: int, txs: seq<Tx>, prevRoot: Option<Root>, env: Env)
    | Finalize(n: nat, lookup: Lookup, headLookup: Lookup, o: Rpc)
    | RollBack(n: nat, lookup: Lookup, o: Rpc)
    | Restart
    | LosePayloads

  function Step(w: World, op: Op): World {
    match op
    case Execute(n, time, txs, prevRoot, env) => if n > 0 then ExecuteTxs(w, n, time, txs, prevRoot, env).0 else w
    case Finalize(n, l, hl, o) => SetFinal(w, n, l, hl, o).0
    case RollBack(n, l, o) => Rollback(w, n, l, o).0
    case Restart => w.(c := FRESH_CLIENT)
    case LosePayloads => w.(el := w.el.(payloads := {}))
  }

  function Run(w: World, ops: seq<Op>): World
    decreases |ops|
  {
    if ops == [] then w else Run(Step(w, ops[0]), ops[1..])
  }

  /** The payload sits on the block the execution layer serves at `n - 1`, and the execution layer serves no other
      block at `n`. ExecMeta.ParentHash is never filled, so the client does not check this itself. */
  predicate OnServedParent(el: EL, id: PayloadId) {
    var n := Height(Build(id));
    && n - 1 <= Height(el.head)
    && At(el.head, n - 1) == id.parent
    && (n <= Height(el.head) ==> At(el.head, n) == Build(id))
  }

  /** Safe and finalized name the head block or an ancestor of it. */
  predicate LabelsOn(c: Client, head: Block) {
    OnChain(c.safe, head) && OnChain(c.finalized, head)
  }

  /** Every cached hash at or below `head` belongs to the chain of `head`. */
  ghost predicate CacheOn(m: map<nat, Block>, head: Block) {
    forall h :: h in m && h <= Height(head) ==> m[h] == At(head, h)
  }

  /** The payload's block does not fork from the served chain, the cached hashes below it are its ancestors, and so is
      every label that a failing look-up would leave in place. */
  ghost predicate ResumeFits(w: World, id: PayloadId) {
    var b := Build(id);
    var n := Height(b);
    var cache := CachePut(w.c.cache, n, b);
    && Comparable(b, w.el.head) && CacheOn(cache, b)
    && (OnChain(w.c.safe, b) || (n > SAFE_BLOCK_LAG && n - SAFE_BLOCK_LAG in cache))
    && (OnChain(w.c.finalized, b) || (n > FINALIZED_BLOCK_LAG && n - FINALIZED_BLOCK_LAG in cache))
  }

  /** What a caller checks before a call: blocks are executed at or above the head, finalized at or below it, and a
      payload is resumed only where it still fits, or where the execution layer refuses it. */
  ghost predicate Admissible(w: World, op: Op) {
    match op
    case Execute(n, time, txs, _, env) =>
      && n > 0 && n >= Height(w.c.head)
      && var r := ResumeOf(w, n, time, txs, env);
         (r.Some? ==> r.value.parent !in w.el.known || ResumeFits(w, r.value))
    case Finalize(n, _, _, _) => n <= Height(w.c.head)
    case _ => true
  }

  ghost predicate AdmissibleRun(w: World, ops: seq<Op>)
    decreases |ops|
  {
    ops == [] || (Admissible(w, ops[0]) && AdmissibleRun(Step(w, ops[0]), ops[1..]))
  }
}
