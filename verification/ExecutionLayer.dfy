/** The execution layer as the Engine API client sees it: a tree of blocks with a canonical head,
    and a cache of payloads under construction. Only the client moves it. */
module ExecutionLayer {

  type Tx = seq<nat>

  /** Hashes are collision free, so a block stands for its own hash: two blocks with one hash have
      one parent, one time and one transaction list. */
  datatype Block = Genesis | Block(parent: Block, time: int, txs: seq<Tx>)

  function Height(b: Block): nat {
    if b.Genesis? then 0 else 1 + Height(b.parent)
  }

  /** The ancestor of `b` (or `b` itself) at height `h`. */
  function At(b: Block, h: nat): (a: Block)
    requires h <= Height(b)
    ensures Height(a) == h
  {
    if h == Height(b) then b else At(b.parent, h)
  }

  /** `a` is `b` or an ancestor of `b`. */
  predicate OnChain(a: Block, b: Block) {
    Height(a) <= Height(b) && At(b, Height(a)) == a
  }

  /** One of the two lies on the chain of the other: no fork between them. */
  predicate Comparable(a: Block, b: Block) {
    OnChain(a, b) || OnChain(b, a)
  }

  lemma {:induction false} AtOfAt(b: Block, h: nat, k: nat)
    requires k <= h <= Height(b)
    ensures At(At(b, h), k) == At(b, k)
    decreases b
  {
    if h < Height(b) {
      AtOfAt(b.parent, h, k);
    }
  }

  lemma GenesisOnChain(b: Block)
    ensures OnChain(Genesis, b)
  {
    if b.Block? {
      GenesisOnChain(b.parent);
    }
  }

  /** Below the lower of two comparable heads both chains serve the same block. */
  lemma ComparableAgree(a: Block, b: Block, h: nat)
    requires Comparable(a, b)
    requires h <= Height(a) && h <= Height(b)
    ensures At(a, h) == At(b, h)
  {
    if OnChain(a, b) {
      AtOfAt(b, Height(a), h);
    } else {
      AtOfAt(a, Height(b), h);
    }
  }

  lemma OnChainTransitive(a: Block, b: Block, c: Block)
    requires OnChain(a, b) && OnChain(b, c)
    ensures OnChain(a, c)
  {
    AtOfAt(c, Height(b), Height(a));
  }

  /** An ancestor of the lower of two comparable heads that is not above the other is on both chains. */
  lemma OnChainCarries(a: Block, b: Block, c: Block)
    requires OnChain(a, b) && Comparable(b, c) && Height(a) <= Height(c)
    ensures OnChain(a, c)
  {
    ComparableAgree(b, c, Height(a));
  }

  lemma AncestorsComparable(a: Block, b: Block, c: Block)
    requires OnChain(a, c) && OnChain(b, c)
    ensures Comparable(a, b)
  {
    if Height(a) <= Height(b) {
      AtOfAt(c, Height(b), Height(a));
    } else {
      AtOfAt(c, Height(a), Height(b));
    }
  }

  /** A payload build is named by its parent and attributes, and building is deterministic. */
  datatype PayloadId = PayloadId(parent: Block, time: int, txs: seq<Tx>)

  function Build(id: PayloadId): Block {
    Block(id.parent, id.time, id.txs)
  }

  /** How one remote call ends: answered, executed but the answer is lost, or never executed. */
  datatype Rpc = Answered | ReplyLost | NotReached

  /** How one block look-up ends: served from the canonical chain, pruned history, or a transport error. */
  datatype Lookup = Served | Pruned | Down

  datatype Found = Found(block: Block) | Unavailable | LookupError

  datatype EL = EL(head: Block, known: set<Block>, payloads: set<PayloadId>)

  /** The head is known, and so is every parent of a known block. */
  ghost predicate Wf(el: EL) {
    && el.head in el.known
    && forall b :: b in el.known && b.Block? ==> b.parent in el.known
  }

  lemma {:induction false} AncestorKnown(el: EL, b: Block, h: nat)
    requires Wf(el) && b in el.known && h <= Height(b)
    ensures At(b, h) in el.known
    decreases b
  {
    if h < Height(b) {
      AncestorKnown(el, b.parent, h);
    }
  }

  function HeaderByNumber(el: EL, n: nat, l: Lookup): Found {
    match l
    case Down => LookupError
    case Pruned => Unavailable
    case Served => if n <= Height(el.head) then Found(At(el.head, n)) else Unavailable
  }

  /** engine_forkchoiceUpdated: an unknown head, or a safe or finalized block off the head's chain, is
      refused (Paris specification, engine_forkchoiceUpdatedV1, "-38002: Invalid forkchoice state"). */
  predicate ForkchoiceValid(el: EL, head: Block, safe: Block, finalized: Block) {
    head in el.known && OnChain(safe, head) && OnChain(finalized, head)
  }

  function Forkchoice(el: EL, head: Block, safe: Block, finalized: Block, o: Rpc): (EL, bool) {
    if o.NotReached? || !ForkchoiceValid(el, head, safe, finalized) then (el, false)
    else (el.(head := head), o.Answered?)
  }

  /** engine_forkchoiceUpdated with payload attributes: also opens a payload build on the new head. */
  function ForkchoiceBuild(el: EL, head: Block, safe: Block, finalized: Block,
                           time: int, txs: seq<Tx>, o: Rpc): (EL, bool)
  {
    if o.NotReached? || !ForkchoiceValid(el, head, safe, finalized) then (el, false)
    else (el.(head := head, payloads := el.payloads + {PayloadId(head, time, txs)}), o.Answered?)
  }

  /** engine_newPayload: VALID only on a known parent. */
  function NewPayload(el: EL, b: Block, o: Rpc): (EL, bool) {
    if o.NotReached? || b.Genesis? || b.parent !in el.known then (el, false)
    else (el.(known := el.known + {b}), o.Answered?)
  }
}
