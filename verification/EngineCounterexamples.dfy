/** Runs that break what the engine client does not guard. */
module EngineCounterexamples {
  import opened Common
  import opened ExecutionLayer
  import opened EngineSpec
  import opened EngineSafety

  const START := World(FRESH_CLIENT, EL(Genesis, {Genesis}, {}), map[])

  function Exec(n: nat, time: int, env: Env): Op {
    Execute(n, time, [], None, env)
  }

  lemma {:induction false} SmallCachePut(m: map<nat, Block>, h: nat, b: Block)
    requires h < MAX_CACHE_SIZE
    ensures CachePut(m, h, b) == m[h := b]
  {
  }

  /** The payload is built and recorded, but not fetched. */
  const UNFINISHED := NO_FAULTS.(getPayload := false)

  /** Only the look-up of the safe block fails. */
  const SAFE_DOWN := NO_FAULTS.(safeLookup := Down)

  /** The world after one block on the served tip, when every call up to fetching the payload is answered. */
  function Recorded(w: World, n: nat, time: int): World
    requires n > 0
  {
    var id := PayloadId(w.el.head, time, []);
    w.(c := w.c.(cache := w.c.cache[n - 1 := w.el.head]),
       el := w.el.(payloads := w.el.payloads + {id}),
       metas := w.metas[n := Started(time, NoTxs, id)])
  }

  /** Every call up to recording the payload is answered. */
  predicate Opens(env: Env) {
    && env.metaRead && env.promotedLookup.Served? && env.existingLookup.Served? && env.parentLookup.Served?
    && env.build.Answered? && env.startedWrite
  }

  lemma {:induction false} RecordBlock(w: World, n: nat, time: int, env: Env)
    requires 0 < n < MAX_CACHE_SIZE && w.el.head in w.el.known && n == Height(w.el.head) + 1
    requires LabelsOn(w.c, w.el.head) && Opens(env)
    requires n in w.metas ==> w.metas[n].time != time
    ensures Step(w, Exec(n, time, env)) ==
            ProcessPayload(Recorded(w, n, time), PayloadId(w.el.head, time, []), [], env).0
  {
    assert Reconcile(w, n, time, [], env) == (w, Fresh);
    SmallCachePut(w.c.cache, n - 1, w.el.head);
  }

  /** The world after promoting a recorded payload with every call answered. */
  lemma {:induction false} PromoteBlock(w: World, id: PayloadId)
    requires id in w.el.payloads && id.parent in w.el.known && Height(id.parent) <= 2 && id.txs == []
    requires Height(id.parent) == 2 ==> 1 in w.c.cache
    ensures var b := Build(id);
            var n := Height(b);
            var safe := if n == 3 then w.c.cache[1] else w.c.safe;
            var w' := ProcessPayload(w, id, [], NO_FAULTS).0;
            && w'.c == Client(b, n, safe, w.c.finalized, w.c.cache[n := b])
            && w'.el.known == w.el.known + {b} && w'.el.payloads == w.el.payloads
            && w'.el.head == (if OnChain(safe, b) && OnChain(w.c.finalized, b) then b else w.el.head)
            && (w'.el.head == b != w.el.head ==> w'.metas == w.metas[n := Promoted(id.time, NoTxs, RootOf(b))])
  {
    var b := Build(id);
    SmallCachePut(w.c.cache, Height(b), b);
  }

  lemma {:induction false} RunCons(w: World, op: Op, rest: seq<Op>)
    ensures Run(w, [op] + rest) == Run(Step(w, op), rest)
    ensures AdmissibleRun(w, [op] + rest) <==> Admissible(w, op) && AdmissibleRun(Step(w, op), rest)
  {
    assert ([op] + rest)[1..] == rest;
  }

  const A1 := Block(Genesis, 1, [])
  const A2 := Block(A1, 2, [])

  /** The parts of a world the runs below look at. */
  predicate Looks(w: World, c: Client, head: Block, known: set<Block>, metas: map<nat, ExecMeta>) {
    w.c == c && w.el.head == head && w.el.known == known && w.metas == metas
  }

  predicate AfterOne(w: World) {
    Looks(w, Client(A1, 1, Genesis, Genesis, map[0 := Genesis, 1 := A1]), A1, {Genesis, A1},
          map[1 := Promoted(1, NoTxs, RootOf(A1))])
  }

  lemma {:induction false} FirstBlock()
    ensures AfterOne(Step(START, Exec(1, 1, NO_FAULTS)))
  {
    RecordBlock(START, 1, 1, NO_FAULTS);
    PromoteBlock(Recorded(START, 1, 1), PayloadId(Genesis, 1, []));
  }

  // Two blocks, Rollback(2), block 3.

  const LAST_BLOCK := [Exec(3, 3, NO_FAULTS)] + []
  const ROLL_AND_BLOCK := [RollBack(2, Served, Answered)] + LAST_BLOCK
  const TWO_MORE := [Exec(2, 2, NO_FAULTS)] + ROLL_AND_BLOCK
  const THREE_BLOCKS := [Exec(1, 1, NO_FAULTS)] + TWO_MORE

  predicate AfterTwo(w: World, tag: Block) {
    Looks(w, Client(A2, 2, tag, tag, map[0 := Genesis, 1 := A1, 2 := A2]), A2, {Genesis, A1, A2},
          map[1 := Promoted(1, NoTxs, RootOf(A1)), 2 := Promoted(2, NoTxs, RootOf(A2))])
  }

  lemma {:induction false} SecondBlock(w: World)
    requires AfterOne(w)
    ensures AfterTwo(Step(w, Exec(2, 2, NO_FAULTS)), Genesis)
  {
    RecordBlock(w, 2, 2, NO_FAULTS);
    PromoteBlock(Recorded(w, 2, 2), PayloadId(A1, 2, []));
  }

  lemma {:induction false} ThirdBlock(w: World)
    requires AfterTwo(w, A2)
    ensures var c := Step(w, Exec(3, 3, NO_FAULTS)).c;
            Height(c.safe) == 1 && Height(c.finalized) == 2
  {
    RecordBlock(w, 3, 3, NO_FAULTS);
    PromoteBlock(Recorded(w, 3, 3), PayloadId(A2, 3, []));
  }

  /** Every call is admissible and answered, and yet safe ends at height 1 with finalized at height 2. */
  lemma {:induction false} BlockThreeReordersLabels()
    ensures AdmissibleRun(START, THREE_BLOCKS)
    ensures Height(Run(START, THREE_BLOCKS).c.safe) == 1 && Height(Run(START, THREE_BLOCKS).c.finalized) == 2
  {
    var w1 := Step(START, Exec(1, 1, NO_FAULTS));
    FirstBlock();
    RunCons(START, Exec(1, 1, NO_FAULTS), TWO_MORE);
    RollbackReorders(w1);
  }

  lemma {:induction false} RollbackReorders(w1: World)
    requires AfterOne(w1)
    ensures AdmissibleRun(w1, TWO_MORE)
    ensures Height(Run(w1, TWO_MORE).c.safe) == 1 && Height(Run(w1, TWO_MORE).c.finalized) == 2
  {
    var w2 := Step(w1, Exec(2, 2, NO_FAULTS));
    SecondBlock(w1);
    RunCons(w1, Exec(2, 2, NO_FAULTS), ROLL_AND_BLOCK);
    var w3 := Step(w2, RollBack(2, Served, Answered));
    assert AfterTwo(w3, A2);
    RunCons(w2, RollBack(2, Served, Answered), LAST_BLOCK);
    ThirdBlock(w3);
    RunCons(w3, Exec(3, 3, NO_FAULTS), []);
  }

  // Three blocks, a restart that empties the cache, block 4 without an answer for the safe block.

  const A3 := Block(A2, 3, [])
  const FOURTH := [Exec(4, 4, SAFE_DOWN)] + []
  const RESTART_AND_FOURTH := [Restart] + FOURTH
  const THIRD_AND_MORE := [Exec(3, 3, NO_FAULTS)] + RESTART_AND_FOURTH
  const SECOND_AND_MORE := [Exec(2, 2, NO_FAULTS)] + THIRD_AND_MORE
  const FOUR_BLOCKS := [Exec(1, 1, NO_FAULTS)] + SECOND_AND_MORE

  lemma {:induction false} PlainThird(w: World)
    requires AfterTwo(w, Genesis)
    ensures var w' := Step(w, Exec(3, 3, NO_FAULTS)); w'.el.head == A3 && A3 in w'.el.known && 4 !in w'.metas
  {
    RecordBlock(w, 3, 3, NO_FAULTS);
    assert At(A3, 1) == A1 && At(A3, 0) == Genesis;
    PromoteBlock(Recorded(w, 3, 3), PayloadId(A2, 3, []));
  }

  lemma {:induction false} FourthOvertakes(w: World)
    requires w.c == FRESH_CLIENT && w.el.head == A3 && A3 in w.el.known && 4 !in w.metas
    ensures var (w', root) := ExecuteTxs(w, 4, 4, [], None, SAFE_DOWN);
            root.Some? && Height(w'.c.safe) == 0 && Height(w'.c.finalized) == 1
  {
    GenesisOnChain(A3);
    RecordBlock(w, 4, 4, SAFE_DOWN);
    var r := Recorded(w, 4, 4);
    var b := Block(A3, 4, []);
    SmallCachePut(r.c.cache, 4, b);
    assert At(A3, 1) == A1 && At(b, 1) == A1 && At(b, 0) == Genesis;
  }

  /** Every call is admissible, and yet finalized ends at height 1 with safe at height 0. */
  lemma {:induction false} LostLookupReordersLabels()
    ensures AdmissibleRun(START, FOUR_BLOCKS)
    ensures Height(Run(START, FOUR_BLOCKS).c.safe) == 0 && Height(Run(START, FOUR_BLOCKS).c.finalized) == 1
  {
    FirstBlock();
    RunCons(START, Exec(1, 1, NO_FAULTS), SECOND_AND_MORE);
    LostLookupFrom(Step(START, Exec(1, 1, NO_FAULTS)));
  }

  lemma {:induction false} LostLookupFrom(w1: World)
    requires AfterOne(w1)
    ensures AdmissibleRun(w1, SECOND_AND_MORE)
    ensures Height(Run(w1, SECOND_AND_MORE).c.safe) == 0 && Height(Run(w1, SECOND_AND_MORE).c.finalized) == 1
  {
    SecondBlock(w1);
    RunCons(w1, Exec(2, 2, NO_FAULTS), THIRD_AND_MORE);
    LostLookupThird(Step(w1, Exec(2, 2, NO_FAULTS)));
  }

  lemma {:induction false} LostLookupThird(w2: World)
    requires AfterTwo(w2, Genesis)
    ensures AdmissibleRun(w2, THIRD_AND_MORE)
    ensures Height(Run(w2, THIRD_AND_MORE).c.safe) == 0 && Height(Run(w2, THIRD_AND_MORE).c.finalized) == 1
  {
    PlainThird(w2);
    RunCons(w2, Exec(3, 3, NO_FAULTS), RESTART_AND_FOURTH);
    LostLookupAfterRestart(Step(w2, Exec(3, 3, NO_FAULTS)));
  }

  lemma {:induction false} LostLookupAfterRestart(w3: World)
    requires w3.el.head == A3 && A3 in w3.el.known && 4 !in w3.metas
    ensures AdmissibleRun(w3, RESTART_AND_FOURTH)
    ensures Height(Run(w3, RESTART_AND_FOURTH).c.safe) == 0 && Height(Run(w3, RESTART_AND_FOURTH).c.finalized) == 1
  {
    var w4 := Step(w3, Restart);
    RunCons(w3, Restart, FOURTH);
    FourthOvertakes(w4);
    assert ResumeOf(w4, 4, 4, [], SAFE_DOWN).None?;
    RunCons(w4, Exec(4, 4, SAFE_DOWN), []);
  }

  // Calls above the head, and below a label.

  /** A restart, then SetFinal(1) before the first block: the labels are above the head. */
  lemma {:induction false} FinalizeAfterRestart()
    ensures var w := World(FRESH_CLIENT, EL(A1, {Genesis, A1}, {}), map[]);
            var c := Step(w, Finalize(1, Served, Served, Answered)).c;
            Inv(w) && Height(c.safe) == 1 && Height(c.head) == 0 && !LabelsOn(c, c.head)
  {
    assert At(A1, 0) == Genesis;
  }

  /** Both labels at block 2, then block 1 is asked for again and reused: the labels are above the head. */
  lemma {:induction false} ReuseBelowLabels()
    ensures var w := World(Client(A2, 2, A2, A2, map[]), EL(A2, {Genesis, A1, A2}, {}), map[]);
            var c := Step(w, Exec(1, 1, NO_FAULTS)).c;
            Inv(w) && c.head == A1 && c.safe == A2 && !LabelsOn(c, c.head)
  {
    assert At(A2, 1) == A1 && At(A2, 2) == A2;
  }

  // Block 2 is recorded on block 1 and never finished; block 1 is replaced; block 2 is asked for again.

  const B1 := Block(Genesis, 5, [])

  predicate AfterRecord(w: World, c: Client, head: Block) {
    && Looks(w, c, head, {Genesis, A1},
             map[1 := Promoted(1, NoTxs, RootOf(A1)), 2 := Started(2, NoTxs, PayloadId(A1, 2, []))])
    && PayloadId(A1, 2, []) in w.el.payloads
  }

  lemma {:induction false} RecordSecond(w: World)
    requires AfterOne(w)
    ensures AfterRecord(Step(w, Exec(2, 2, UNFINISHED)), w.c, A1)
  {
    RecordBlock(w, 2, 2, UNFINISHED);
  }

  predicate AfterReplace(w: World) {
    && Looks(w, Client(B1, 1, Genesis, Genesis, map[0 := Genesis, 1 := B1]), B1, {Genesis, A1, B1},
             map[1 := Promoted(5, NoTxs, RootOf(B1)), 2 := Started(2, NoTxs, PayloadId(A1, 2, []))])
    && PayloadId(A1, 2, []) in w.el.payloads
  }

  lemma {:induction false} ReplacePromoted(w: World, r: World)
    requires AfterRecord(w, Client(Genesis, 0, Genesis, Genesis, map[0 := Genesis, 1 := A1]), Genesis)
    requires r == Recorded(w, 1, 5)
    ensures AfterReplace(ProcessPayload(r, PayloadId(Genesis, 5, []), [], NO_FAULTS).0)
  {
    assert r.c == w.c && r.el.head == Genesis && r.el.known == w.el.known;
    assert OnChain(Genesis, B1);
    PromoteBlock(r, PayloadId(Genesis, 5, []));
    var w' := ProcessPayload(r, PayloadId(Genesis, 5, []), [], NO_FAULTS).0;
    assert w'.metas == r.metas[1 := Promoted(5, NoTxs, RootOf(B1))];
  }

  lemma {:induction false} ReplaceFirst(w: World)
    requires AfterRecord(w, Client(Genesis, 0, Genesis, Genesis, map[0 := Genesis, 1 := A1]), Genesis)
    ensures AfterReplace(Step(w, Exec(1, 5, NO_FAULTS)))
  {
    RecordBlock(w, 1, 5, NO_FAULTS);
    ReplacePromoted(w, Recorded(w, 1, 5));
  }

  predicate AfterResume(w: World) {
    && w.c == Client(A2, 2, Genesis, Genesis, map[0 := Genesis, 1 := B1, 2 := A2])
    && w.el.head == A2 && w.el.known == {Genesis, A1, B1, A2} && 3 !in w.metas
  }

  lemma {:induction false} ResumeSecond(w: World)
    requires AfterReplace(w)
    ensures AfterResume(Step(w, Exec(2, 2, NO_FAULTS)))
  {
    assert Reconcile(w, 2, 2, [], NO_FAULTS) == (w, Resume(PayloadId(A1, 2, [])));
    PromoteBlock(w, PayloadId(A1, 2, []));
  }

  lemma {:induction false} BlockOnStaleCache(w: World)
    requires AfterResume(w)
    ensures var c := Step(w, Exec(3, 3, NO_FAULTS)).c;
            !LabelsOn(c, c.head) && !CacheOn(c.cache, c.head)
  {
    RecordBlock(w, 3, 3, NO_FAULTS);
    PromoteBlock(Recorded(w, 3, 3), PayloadId(A2, 3, []));
    var c := Step(w, Exec(3, 3, NO_FAULTS)).c;
    assert c.head == Block(A2, 3, []) && c.safe == B1 && c.cache[1] == B1;
    assert At(c.head, 1) == At(A2, 1) == A1;
  }

  const STALE_TAIL := [Exec(2, 2, NO_FAULTS)] + ([Exec(3, 3, NO_FAULTS)] + [])
  const STALE_REPLACE := [RollBack(0, Served, Answered)] + ([Exec(1, 5, NO_FAULTS)] + STALE_TAIL)
  const STALE_RUN := [Exec(1, 1, NO_FAULTS)] + ([Exec(2, 2, UNFINISHED)] + STALE_REPLACE)

  /** Without the check on a resumed payload's parent the labels and the cache leave the head's chain. */
  lemma {:induction false} StaleParentBreaks()
    ensures var c := Run(START, STALE_RUN).c;
            !LabelsOn(c, c.head) && !CacheOn(c.cache, c.head)
  {
    var w1 := Step(START, Exec(1, 1, NO_FAULTS));
    FirstBlock();
    RunCons(START, Exec(1, 1, NO_FAULTS), [Exec(2, 2, UNFINISHED)] + STALE_REPLACE);
    var w2 := Step(w1, Exec(2, 2, UNFINISHED));
    RecordSecond(w1);
    RunCons(w1, Exec(2, 2, UNFINISHED), STALE_REPLACE);
    ReplacedParentBreaks(w2);
  }

  lemma {:induction false} ReplacedParentBreaks(w2: World)
    requires AfterRecord(w2, Client(A1, 1, Genesis, Genesis, map[0 := Genesis, 1 := A1]), A1)
    ensures var c := Run(w2, STALE_REPLACE).c;
            !LabelsOn(c, c.head) && !CacheOn(c.cache, c.head)
  {
    var w3 := Step(w2, RollBack(0, Served, Answered));
    assert At(A1, 0) == Genesis;
    RunCons(w2, RollBack(0, Served, Answered), [Exec(1, 5, NO_FAULTS)] + STALE_TAIL);
    var w4 := Step(w3, Exec(1, 5, NO_FAULTS));
    ReplaceFirst(w3);
    RunCons(w3, Exec(1, 5, NO_FAULTS), STALE_TAIL);
    var w5 := Step(w4, Exec(2, 2, NO_FAULTS));
    ResumeSecond(w4);
    RunCons(w4, Exec(2, 2, NO_FAULTS), [Exec(3, 3, NO_FAULTS)] + []);
    BlockOnStaleCache(w5);
    RunCons(w5, Exec(3, 3, NO_FAULTS), []);
  }

  // Block 2 is recorded on block 1, which is rolled back, built again and not promoted; block 2 is asked for again.

  const UNAPPLIED := NO_FAULTS.(promote := NotReached)
  const AHEAD_TAIL := [Exec(2, 2, NO_FAULTS)] + []
  const AHEAD_REBUILD := [RollBack(0, Served, Answered)] + ([Exec(1, 1, UNAPPLIED)] + AHEAD_TAIL)
  const AHEAD_RUN := [Exec(1, 1, NO_FAULTS)] + ([Exec(2, 2, UNFINISHED)] + AHEAD_REBUILD)

  /** The client is at block 1, the execution layer at genesis. */
  predicate AfterRebuild(w: World) {
    && w.c == Client(A1, 1, Genesis, Genesis, map[0 := Genesis, 1 := A1])
    && w.el.head == Genesis && A1 in w.el.known
    && 2 in w.metas && w.metas[2] == Started(2, NoTxs, PayloadId(A1, 2, [])) && PayloadId(A1, 2, []) in w.el.payloads
  }

  lemma {:induction false} RebuildFirst(w: World)
    requires AfterRecord(w, Client(Genesis, 0, Genesis, Genesis, map[0 := Genesis, 1 := A1]), Genesis)
    ensures Admissible(w, Exec(1, 1, UNAPPLIED)) && AfterRebuild(Step(w, Exec(1, 1, UNAPPLIED)))
  {
    assert Reconcile(w, 1, 1, [], UNAPPLIED) == (w, Fresh);
    var r := Recorded(w, 1, 1);
    SmallCachePut(w.c.cache, 0, Genesis);
    assert OpenBuild(w, 1, Genesis, 1, [], UNAPPLIED) == (r, true);
    assert Step(w, Exec(1, 1, UNAPPLIED)) == ProcessPayload(r, PayloadId(Genesis, 1, []), [], UNAPPLIED).0;
    SmallCachePut(r.c.cache, 1, A1);
    assert r.c.cache[1 := A1] == map[0 := Genesis, 1 := A1];
  }

  lemma {:induction false} ResumeAhead(w: World)
    requires AfterRebuild(w)
    ensures ResumeOf(w, 2, 2, [], NO_FAULTS) == Some(PayloadId(A1, 2, []))
    ensures !OnServedParent(w.el, PayloadId(A1, 2, [])) && Admissible(w, Exec(2, 2, NO_FAULTS))
    ensures var w' := Step(w, Exec(2, 2, NO_FAULTS)); w'.el.head == w'.c.head == A2
  {
    var id := PayloadId(A1, 2, []);
    assert At(A2, 0) == Genesis && At(A2, 1) == A1 && At(A2, 2) == A2;
    SmallCachePut(w.c.cache, 2, A2);
    assert ResumeFits(w, id);
    assert Reconcile(w, 2, 2, [], NO_FAULTS) == (w, Resume(id));
    PromoteBlock(w, id);
  }

  /** A payload whose parent is known but not served can be resumed: the run is admissible and ends at block 2. */
  lemma {:induction false} UnservedParentResumes()
    ensures AdmissibleRun(START, AHEAD_RUN)
    ensures Run(START, AHEAD_RUN).el.head == Run(START, AHEAD_RUN).c.head == A2
  {
    var w1 := Step(START, Exec(1, 1, NO_FAULTS));
    FirstBlock();
    RunCons(START, Exec(1, 1, NO_FAULTS), [Exec(2, 2, UNFINISHED)] + AHEAD_REBUILD);
    var w2 := Step(w1, Exec(2, 2, UNFINISHED));
    RecordSecond(w1);
    RunCons(w1, Exec(2, 2, UNFINISHED), AHEAD_REBUILD);
    RebuiltParentResumes(w2);
  }

  lemma {:induction false} RebuiltParentResumes(w2: World)
    requires AfterRecord(w2, Client(A1, 1, Genesis, Genesis, map[0 := Genesis, 1 := A1]), A1)
    ensures AdmissibleRun(w2, AHEAD_REBUILD)
    ensures Run(w2, AHEAD_REBUILD).el.head == Run(w2, AHEAD_REBUILD).c.head == A2
  {
    var w3 := Step(w2, RollBack(0, Served, Answered));
    assert At(A1, 0) == Genesis;
    RunCons(w2, RollBack(0, Served, Answered), [Exec(1, 1, UNAPPLIED)] + AHEAD_TAIL);
    RebuildFirst(w3);
    RunCons(w3, Exec(1, 1, UNAPPLIED), AHEAD_TAIL);
    var w4 := Step(w3, Exec(1, 1, UNAPPLIED));
    ResumeAhead(w4);
    RunCons(w4, Exec(2, 2, NO_FAULTS), []);
  }

  // ---------------------------------------------------------------- the transaction hash

  const WHOLE: seq<Tx> := [[1, 2]]
  const SPLIT: seq<Tx> := [[1], [2]]

  lemma {:induction false} SplitHashes()
    ensures HashTxs(WHOLE) == HashTxs(SPLIT) && FilterTransactions(WHOLE) == WHOLE
  {
    assert WHOLE[1..] == [] && SPLIT[1..] == [[2]] && SPLIT[1..][1..] == [];
    assert Concat(WHOLE) == [1, 2] == Concat(SPLIT);
  }

  lemma {:induction false} WholeIsRecorded(w: World)
    requires w == ExecuteTxs(START, 1, 7, WHOLE, None, UNFINISHED).0
    ensures var id := PayloadId(Genesis, 7, WHOLE);
            w.metas == map[1 := Started(7, HashTxs(WHOLE), id)] && w.el == EL(Genesis, {Genesis}, {id})
  {
    SplitHashes();
    assert Reconcile(START, 1, 7, WHOLE, UNFINISHED) == (START, Fresh);
  }

  /** The recorded hash does not see where one byte string ends and the next begins, so a recorded payload can be
      resumed for another split of the same bytes, and the block then holds strings that were not asked for. One of the
      strings is a prefix of another, which encoded Ethereum transactions never are. */
  lemma {:induction false} ResplitResumes()
    ensures var w := ExecuteTxs(START, 1, 7, WHOLE, None, UNFINISHED).0;
            ExecuteTxs(w, 1, 7, SPLIT, None, NO_FAULTS).1 == Some(RootOf(Block(Genesis, 7, WHOLE)))
  {
    var w := ExecuteTxs(START, 1, 7, WHOLE, None, UNFINISHED).0;
    WholeIsRecorded(w);
    SplitHashes();
    assert Reconcile(w, 1, 7, SPLIT, NO_FAULTS) == (w, Resume(PayloadId(Genesis, 7, WHOLE)));
  }
}
