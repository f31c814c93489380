/** Replaying stored blocks into the execution layer until both stand at one height. */
module Replay {
  import opened Common
  import opened ChainState

  datatype Block = Block(header: Header, txs: seq<Bytes>)

  datatype Genesis = Genesis(chainID: string, startTime: int, initialHeight: uint64, proposer: Bytes)

  datatype Outcome = Outcome(root: Bytes, nextProposer: Bytes)

  /** A deterministic executor: from its own state root, the root the caller names and a block, to the outcome. */
  type Executor = (Bytes, Bytes, Block) -> Option<Outcome>

  /** The store's blocks and states, and the roots of the execution layer: `roots[k]` after its block k. */
  datatype World = World(blocks: map<uint64, Block>, states: map<uint64, State>, roots: seq<Bytes>)

  /** How one ExecuteTxs ends besides the executor's own refusal. */
  datatype Call = Answered | Lost | LostAfter

  /** What may go wrong while one height is replayed. */
  datatype Faults = Faults(blockRead: bool, prevRead: bool, call: Call, expectedRead: bool, commit: bool)

  type Env = uint64 -> Faults

  const NO_FAULTS := Faults(true, true, Answered, true, true)

  /** Blocks are stored under the height of their header, from the first height on. */
  predicate Valid(w: World) {
    && 0 < |w.roots| <= TWO64
    && 0 !in w.blocks
    && forall h :: h in w.blocks ==> w.blocks[h].header.height == h
  }

  function GenesisState(g: Genesis, appHash: Bytes): State {
    State(Version(0, 0), g.chainID, g.initialHeight, (g.initialHeight - 1) % TWO64, g.startTime, [], 0, appHash,
          g.proposer)
  }

  /** The state block `h` is executed on. */
  function PrevState(g: Genesis, w: World, h: uint64): Option<State>
    requires h in w.blocks
  {
    if h == g.initialHeight then Some(GenesisState(g, w.blocks[h].header.appHash))
    else if h > 0 && h - 1 in w.states then Some(w.states[h - 1])
    else None
  }

  /** The check of a replayed state against the one already stored. */
  predicate Matches(expected: State, s: State) {
    && s.appHash == expected.appHash
    && (expected.nextProposer == [] || s.nextProposer == expected.nextProposer)
  }

  function ReplayOne(g: Genesis, run: Executor, w: World, h: uint64, f: Faults): (World, bool)
    requires Valid(w)
  {
    if !f.blockRead || h !in w.blocks then (w, false)
    else
      var prev := PrevState(g, w, h);
      if prev.None? || (h != g.initialHeight && !f.prevRead) then (w, false)
      else
        var out := run(w.roots[|w.roots| - 1], prev.value.appHash, w.blocks[h]);
        if out.None? || f.call.Lost? then (w, false)
        else
          var w1 := w.(roots := w.roots + [out.value.root]);
          var s := NextState(prev.value, w.blocks[h].header, out.value.root, out.value.nextProposer);
          if f.call.LostAfter? then (w1, false)
          else if f.expectedRead && h in w.states && !Matches(w.states[h], s) then (w1, false)
          else if !f.commit then (w1, false)
          else (w1.(states := w1.states[s.lastBlockHeight := s]), true)
  }

  /** Replays `h`, `h + 1`, ... up to `target`. After the largest height the counter wraps to a height without block. */
  function ReplayFrom(g: Genesis, run: Executor, w: World, h: uint64, target: uint64, env: Env): (World, bool)
    requires Valid(w) && |w.roots| == h
    decreases TWO64 - h
  {
    if h > target then (w, true)
    else
      var (w1, ok) := ReplayOne(g, run, w, h, env(h));
      if !ok || h == TWO64 - 1 then (w1, false)
      else ReplayFrom(g, run, w1, h + 1, target, env)
  }

  lemma {:induction false} StepUnfolds(g: Genesis, run: Executor, w: World, h: uint64, target: uint64, env: Env)
    requires Valid(w) && h <= target && (h > 0 ==> |w.roots| == h)
    ensures var (w1, ok) := ReplayOne(g, run, w, h, env(h));
            && (h == 0 ==> !ok && w1 == w)
            && (ok ==> |w1.roots| == h + 1)
            && Valid(w1)
            && (h > 0 ==> ReplayFrom(g, run, w, h, target, env) ==
                          if !ok || h == TWO64 - 1 then (w1, false) else ReplayFrom(g, run, w1, h + 1, target, env))
  {
  }

  /** The last height whose replay committed its state; `h - 1` if none did. */
  function Committed(g: Genesis, run: Executor, w: World, h: uint64, target: uint64, env: Env): nat
    requires Valid(w) && |w.roots| == h
    decreases TWO64 - h
  {
    if h > target then h - 1
    else
      var (w1, ok) := ReplayOne(g, run, w, h, env(h));
      if !ok then h - 1
      else if h == TWO64 - 1 then h
      else Committed(g, run, w1, h + 1, target, env)
  }

  // ---------------------------------------------------------------- what a replay leaves

  /** Height `k` is replayed: its state follows from the one below by executing its block on the executor's own root,
      and agrees with the state that was stored before if that one could be read. */
  predicate Done(g: Genesis, run: Executor, w: World, w': World, k: uint64, env: Env) {
    && 0 < k < |w'.roots|
    && k in w'.blocks && k in w'.states
    && PrevState(g, w', k).Some?
    && (var p := PrevState(g, w', k).value;
        var out := run(w'.roots[k - 1], p.appHash, w'.blocks[k]);
        && out.Some?
        && w'.roots[k] == out.value.root
        && w'.states[k] == NextState(p, w'.blocks[k].header, out.value.root, out.value.nextProposer))
    && (k in w.states && env(k).expectedRead ==> Matches(w.states[k], w'.states[k]))
  }

  predicate SameState(w: World, w': World, k: uint64) {
    (k in w.states <==> k in w'.states) && (k in w.states ==> w'.states[k] == w.states[k])
  }

  /** Exactly the heights `h` to `m` are replayed; nothing else in the store changed and the execution layer only
      grew. */
  ghost predicate Replayed(g: Genesis, run: Executor, w: World, w': World, h: uint64, m: int, env: Env) {
    && 0 < h && h - 1 <= m < |w'.roots|
    && w'.blocks == w.blocks
    && h <= |w.roots| && h <= |w'.roots| && w'.roots[..h] == w.roots[..h]
    && (forall k: uint64 :: h <= k <= m ==> Done(g, run, w, w', k, env))
    && (forall k: uint64 :: k < h || m < k ==> SameState(w, w', k))
  }

  lemma {:induction false} OneReplayed(g: Genesis, run: Executor, w: World, h: uint64, env: Env)
    requires Valid(w) && |w.roots| == h
    ensures var (w1, ok) := ReplayOne(g, run, w, h, env(h));
            && Replayed(g, run, w, w1, h, if ok then h else h - 1, env)
            && (ok ==> |w1.roots| == h + 1)
            && h <= |w1.roots| <= h + 1
  {
  }

  lemma {:induction false} JoinReplayed(
      g: Genesis, run: Executor, w: World, w1: World, w': World, h: uint64, m: int, env: Env)
    requires h < TWO64 - 1 && Replayed(g, run, w, w1, h, h, env) && Replayed(g, run, w1, w', h + 1, m, env)
    ensures Replayed(g, run, w, w', h, m, env)
  {
    assert w'.roots[..h] == w'.roots[..h + 1][..h];
    assert w1.roots[..h] == w1.roots[..h + 1][..h];
    forall k: uint64 | h <= k <= m
      ensures Done(g, run, w, w', k, env)
    {
      if k == h {
        assert Done(g, run, w, w1, h, env);
        assert SameState(w1, w', h) && SameState(w1, w', h - 1);
        assert w'.roots[h] == w'.roots[..h + 1][h] == w1.roots[h];
        assert w'.roots[h - 1] == w'.roots[..h + 1][h - 1] == w1.roots[h - 1];
      } else {
        assert Done(g, run, w1, w', k, env);
        assert SameState(w, w1, k);
      }
    }
    forall k: uint64 | k < h || m < k
      ensures SameState(w, w', k)
    {
      assert SameState(w, w1, k) && SameState(w1, w', k);
    }
  }

  /** A replay leaves exactly a replayed prefix. */
  lemma {:induction false} ReplayLeavesPrefix(g: Genesis, run: Executor, w: World, h: uint64, target: uint64, env: Env)
    requires Valid(w) && |w.roots| == h <= target
    ensures Replayed(g, run, w, ReplayFrom(g, run, w, h, target, env).0, h, Committed(g, run, w, h, target, env), env)
    decreases TWO64 - h
  {
    OneReplayed(g, run, w, h, env);
    var (w1, ok) := ReplayOne(g, run, w, h, env(h));
    if ok && h < target {
      ReplayLeavesPrefix(g, run, w1, h + 1, target, env);
      var w' := ReplayFrom(g, run, w1, h + 1, target, env).0;
      JoinReplayed(g, run, w, w1, w', h, Committed(g, run, w1, h + 1, target, env), env);
    }
  }

  /** The prefix ends at the target if and only if the replay reached it, and the executor is at most one block
      further. */
  lemma {:induction false} ReplayBounds(g: Genesis, run: Executor, w: World, h: uint64, target: uint64, env: Env)
    requires Valid(w) && |w.roots| == h <= target
    ensures var (w', ok) := ReplayFrom(g, run, w, h, target, env);
            var m := Committed(g, run, w, h, target, env);
            && m <= target
            && (ok <==> m == target < TWO64 - 1)
            && (if m == target then |w'.roots| == target + 1 else m < |w'.roots| <= m + 2)
    decreases TWO64 - h
  {
    var (w1, ok) := ReplayOne(g, run, w, h, env(h));
    if ok && h < target {
      ReplayBounds(g, run, w1, h + 1, target, env);
    }
  }

  // ---------------------------------------------------------------- when a replay succeeds

  /** The state the blocks `h` to `k` lead to, executed on the executor's root and the state stored below `h`,
      whatever is stored above. */
  function Clean(g: Genesis, run: Executor, w: World, h: uint64, k: uint64): Option<State>
    requires Valid(w) && |w.roots| == h <= k
    decreases k
  {
    if k !in w.blocks then None
    else
      var below := if k == h then None else Clean(g, run, w, h, k - 1);
      var prev := if k == h || k == g.initialHeight then PrevState(g, w, k) else below;
      if prev.None? || (h < k && below.None?) then None
      else
        var own := if k == h then w.roots[h - 1] else below.value.appHash;
        var out := run(own, prev.value.appHash, w.blocks[k]);
        if out.None? then None
        else Some(NextState(prev.value, w.blocks[k].header, out.value.root, out.value.nextProposer))
  }

  /** The blocks up to `k` can be executed, and a state stored at `k` is the one they lead to. */
  predicate Agrees(g: Genesis, run: Executor, w: World, h: uint64, k: uint64)
    requires Valid(w) && |w.roots| == h <= k
  {
    var s := Clean(g, run, w, h, k);
    && s.Some?
    && (k in w.states ==> s.value.appHash == w.states[k].appHash)
    && (k in w.states && w.states[k].nextProposer != [] ==> s.value.nextProposer == w.states[k].nextProposer)
  }

  /** Block `h` is replayed with the state `s`. */
  function WithState(w: World, h: uint64, s: State): World {
    w.(states := w.states[h := s], roots := w.roots + [s.appHash])
  }

  lemma {:induction false} CleanStep(g: Genesis, run: Executor, w: World, h: uint64)
    requires Valid(w) && |w.roots| == h
    ensures var (w1, ok) := ReplayOne(g, run, w, h, NO_FAULTS);
            var s := Clean(g, run, w, h, h);
            && (ok <==> Agrees(g, run, w, h, h))
            && (ok ==> w1 == WithState(w, h, s.value))
  {
  }

  /** Replaying block `h` changes nothing about what the blocks above it lead to. */
  lemma {:induction false} CleanShift(g: Genesis, run: Executor, w: World, w1: World, h: uint64, k: uint64)
    requires Valid(w) && |w.roots| == h < k && Clean(g, run, w, h, h).Some?
    requires var s := Clean(g, run, w, h, h).value;
             w1 == WithState(w, h, s)
    ensures Clean(g, run, w1, h + 1, k) == Clean(g, run, w, h, k)
    decreases k
  {
    if h + 1 < k {
      CleanShift(g, run, w, w1, h, k - 1);
    }
  }

  ghost predicate AllAgree(g: Genesis, run: Executor, w: World, h: uint64, target: uint64)
    requires Valid(w) && |w.roots| == h
  {
    forall k: uint64 :: h <= k <= target ==> Agrees(g, run, w, h, k)
  }

  lemma {:induction false} AgreeFirst(g: Genesis, run: Executor, w: World, h: uint64, target: uint64)
    requires Valid(w) && |w.roots| == h <= target
    ensures AllAgree(g, run, w, h, target) ==> Agrees(g, run, w, h, h)
    ensures h == target && Agrees(g, run, w, h, h) ==> AllAgree(g, run, w, h, target)
  {
  }

  lemma {:induction false} AgreeShift(g: Genesis, run: Executor, w: World, w1: World, h: uint64, target: uint64)
    requires Valid(w) && |w.roots| == h < target && Agrees(g, run, w, h, h)
    requires var s := Clean(g, run, w, h, h).value;
             w1 == WithState(w, h, s)
    ensures AllAgree(g, run, w1, h + 1, target) <==> AllAgree(g, run, w, h, target)
  {
    forall k: uint64 | h < k <= target ensures Agrees(g, run, w1, h + 1, k) <==> Agrees(g, run, w, h, k) {
      CleanShift(g, run, w, w1, h, k);
    }
    if AllAgree(g, run, w1, h + 1, target) {
      forall k: uint64 | h <= k <= target ensures Agrees(g, run, w, h, k) {
        assert h < k ==> Agrees(g, run, w1, h + 1, k);
      }
    }
    if AllAgree(g, run, w, h, target) {
      var next: uint64 := h + 1;
      forall k: uint64 | next <= k <= target ensures Agrees(g, run, w1, next, k) {
        assert Agrees(g, run, w, h, k);
      }
    }
  }

  ghost predicate Faultless(env: Env) {
    forall k: uint64 :: env(k) == NO_FAULTS
  }

  lemma {:induction false} FaultlessStep(g: Genesis, run: Executor, w: World, h: uint64, target: uint64, env: Env)
    requires Valid(w) && |w.roots| == h <= target < TWO64 - 1 && Faultless(env)
    ensures var s := Clean(g, run, w, h, h);
            if !Agrees(g, run, w, h, h) then !ReplayFrom(g, run, w, h, target, env).1
            else
              var w1 := WithState(w, h, s.value);
              Valid(w1) && ReplayFrom(g, run, w, h, target, env) == ReplayFrom(g, run, w1, h + 1, target, env)
  {
    CleanStep(g, run, w, h);
    assert env(h) == NO_FAULTS;
  }

  lemma {:induction false} ExactBelow(
      g: Genesis, run: Executor, w: World, w1: World, h: uint64, target: uint64, env: Env)
    requires Valid(w) && |w.roots| == h < target < TWO64 - 1 && Faultless(env) && Agrees(g, run, w, h, h)
    requires w1 == WithState(w, h, Clean(g, run, w, h, h).value)
    requires ReplayFrom(g, run, w1, h + 1, target, env).1 <==> AllAgree(g, run, w1, h + 1, target)
    ensures ReplayFrom(g, run, w, h, target, env).1 <==> AllAgree(g, run, w, h, target)
  {
    FaultlessStep(g, run, w, h, target, env);
    AgreeShift(g, run, w, w1, h, target);
  }

  /** Without faults a replay succeeds if and only if every block can be executed and every state that is stored,
      with its proposer if that is set, is the one the blocks lead to. */
  lemma {:induction false} FaultlessReplayExact(
      g: Genesis, run: Executor, w: World, h: uint64, target: uint64, env: Env)
    requires Valid(w) && |w.roots| == h <= target < TWO64 - 1 && Faultless(env)
    ensures ReplayFrom(g, run, w, h, target, env).1 <==> AllAgree(g, run, w, h, target)
    decreases target - h
  {
    if Agrees(g, run, w, h, h) && h < target {
      var w1 := WithState(w, h, Clean(g, run, w, h, h).value);
      FaultlessReplayExact(g, run, w1, h + 1, target, env);
      ExactBelow(g, run, w, w1, h, target, env);
    } else {
      FaultlessStep(g, run, w, h, target, env);
      AgreeFirst(g, run, w, h, target);
    }
  }

  /** Whatever fails on the way, every state that a replay commits is the one the blocks lead to. */
  lemma {:induction false} ReplayedIsClean(
      g: Genesis, run: Executor, w: World, w': World, h: uint64, m: int, env: Env, k: uint64)
    requires Valid(w) && |w.roots| == h <= k <= m && Replayed(g, run, w, w', h, m, env)
    ensures k in w'.states && Clean(g, run, w, h, k) == Some(w'.states[k])
    decreases k
  {
    assert Done(g, run, w, w', k, env);
    assert w'.roots[h - 1] == w'.roots[..h][h - 1] == w.roots[h - 1];
    if h < k {
      ReplayedIsClean(g, run, w, w', h, m, env, k - 1);
      assert Done(g, run, w, w', k - 1, env);
    } else {
      assert SameState(w, w', h - 1);
    }
  }

  /** Every committed height in the terms of the execution interface: the block was executed on the executor's own root
      and the app hash of the state below, which for the first block is the one in its header. The state records the
      block and the root, and its proposer is the announced one, or the one below, or the block's own. */
  lemma {:induction false} ReplayedMeans(
      g: Genesis, run: Executor, w: World, h: uint64, target: uint64, env: Env, k: uint64)
    requires Valid(w) && |w.roots| == h <= target && h <= k <= Committed(g, run, w, h, target, env)
    ensures var w' := ReplayFrom(g, run, w, h, target, env).0;
            && 0 < k < |w'.roots| && k in w.blocks && k in w'.states
            && (k == g.initialHeight || k - 1 in w'.states)
            && var block, s := w.blocks[k], w'.states[k];
            var prevAppHash := if k == g.initialHeight then block.header.appHash else w'.states[k - 1].appHash;
            var prevProposer := if k == g.initialHeight then g.proposer else w'.states[k - 1].nextProposer;
            var result := run(w'.roots[k - 1], prevAppHash, block);
            && result.Some? && result.value.root == w'.roots[k] == s.appHash
            && s.lastBlockHeight == k && s.lastHeaderHash == block.header.hash
            && (result.value.nextProposer != [] ==> s.nextProposer == result.value.nextProposer)
            && (result.value.nextProposer == [] ==>
                  s.nextProposer == if prevProposer != [] then prevProposer else block.header.proposer)
  {
    ReplayLeavesPrefix(g, run, w, h, target, env);
    assert Done(g, run, w, ReplayFrom(g, run, w, h, target, env).0, k, env);
  }

  /** A readable stored state keeps its app hash, and its proposer where it has one, through every replay. */
  lemma {:induction false} ReplayKeepsAppHash(
      g: Genesis, run: Executor, w: World, h: uint64, target: uint64, env: Env, k: uint64)
    requires Valid(w) && |w.roots| == h <= target && k in w.states && env(k).expectedRead
    ensures var w' := ReplayFrom(g, run, w, h, target, env).0;
            && k in w'.states && w'.states[k].appHash == w.states[k].appHash
            && (w.states[k].nextProposer != [] ==> w'.states[k].nextProposer == w.states[k].nextProposer)
  {
    ReplayLeavesPrefix(g, run, w, h, target, env);
    var w', m := ReplayFrom(g, run, w, h, target, env).0, Committed(g, run, w, h, target, env);
    if h <= k <= m {
      assert Done(g, run, w, w', k, env);
    } else {
      assert SameState(w, w', k);
    }
  }

  // ---------------------------------------------------------------- what a replay does not keep

  /** The part of a state that NextState carries over. */
  function Carried(s: State): (Version, string, uint64, uint64) {
    (s.version, s.chainID, s.initialHeight, s.daHeight)
  }

  /** The version, chain, initial height and DA height of every replayed state are those of the state below the first
      one, or of the genesis state (version 0, DA height 0), whatever was stored before. A stored DA height is kept
      if and only if it is that one. */
  lemma {:induction false} ReplayCarriesDAHeight(
      g: Genesis, run: Executor, w: World, w': World, h: uint64, m: int, k: uint64, env: Env)
    requires Replayed(g, run, w, w', h, m, env) && h <= k <= m
    ensures k in w'.states
    ensures if h <= g.initialHeight <= k then Carried(w'.states[k]) == (Version(0, 0), g.chainID, g.initialHeight, 0)
            else h - 1 in w.states && Carried(w'.states[k]) == Carried(w.states[h - 1])
    decreases k
  {
    assert Done(g, run, w, w', k, env);
    if k > h {
      ReplayCarriesDAHeight(g, run, w, w', h, m, k - 1, env);
    } else {
      assert SameState(w, w', h - 1);
    }
  }

  /** Nothing but the executor and the comparison can stop the replay of `h`. */
  predicate MayCommit(g: Genesis, w: World, h: uint64, f: Faults) {
    && f.blockRead && f.call.Answered? && f.commit
    && h in w.blocks && PrevState(g, w, h).Some? && (h == g.initialHeight || f.prevRead)
  }

  /** A successful replay of `h` leaves the stored app hash of `h`. */
  predicate KeepsAppHash(g: Genesis, run: Executor, w: World, h: uint64, f: Faults)
    requires Valid(w) && h in w.states
  {
    var (w1, ok) := ReplayOne(g, run, w, h, f);
    ok ==> h in w1.states && w1.states[h].appHash == w.states[h].appHash
  }

  /** A stored app hash survives a successful replay with every executor if and only if the stored state can be read, or
      something else stops the replay: a state that cannot be read is not compared, and replaced. */
  lemma {:induction false} UnreadStateExact(g: Genesis, w: World, h: uint64, f: Faults)
    requires Valid(w) && h in w.states
    ensures (forall run: Executor :: KeepsAppHash(g, run, w, h, f)) <==> f.expectedRead || !MayCommit(g, w, h, f)
  {
    if !f.expectedRead && MayCommit(g, w, h, f) {
      var other := w.states[h].appHash + [0];
      var run: Executor := (own, prev, b) => Some(Outcome(other, []));
      var (w1, ok) := ReplayOne(g, run, w, h, f);
      assert ok && w1.states[h].appHash == other;
      assert !KeepsAppHash(g, run, w, h, f);
    }
  }

  /** For a stored block without a stored state and an executor that answers, a replay without faults gets past the
      executor's height if and only if the state of that height is stored, or the next block is the first one. */
  lemma {:induction false} PastExecutorExact(g: Genesis, run: Executor, w: World, h: uint64)
    requires Valid(w) && |w.roots| == h && h in w.blocks && h !in w.states
    requires forall own, prev :: run(own, prev, w.blocks[h]).Some?
    ensures ReplayOne(g, run, w, h, NO_FAULTS).1 <==> h == g.initialHeight || h - 1 in w.states
  {
    if PrevState(g, w, h).Some? {
      assert run(w.roots[h - 1], PrevState(g, w, h).value.appHash, w.blocks[h]).Some?;
    }
  }

  lemma {:induction false} NothingBelow(g: Genesis, run: Executor, w: World, target: uint64, env: Env)
    requires Valid(w) && |w.roots| <= target && |w.roots| != g.initialHeight && |w.roots| - 1 !in w.states
    ensures ReplayFrom(g, run, w, |w.roots|, target, env) == (w, false)
  {
    var h: uint64 := |w.roots|;
    assert h in w.blocks ==> PrevState(g, w, h).None?;
  }

  /** A sync that failed after executing a height whose state is not stored, because the reply or the commit was lost,
      leaves a world in which every later sync from below fails and changes nothing. */
  lemma {:induction false} LostCommitStops(
      g: Genesis, run: Executor, w: World, h: uint64, target: uint64, env: Env, later: uint64, env': Env)
    requires Valid(w) && |w.roots| == h <= target && !ReplayFrom(g, run, w, h, target, env).1
    requires var m := Committed(g, run, w, h, target, env);
             var w' := ReplayFrom(g, run, w, h, target, env).0;
             |w'.roots| == m + 2 <= later && m + 1 !in w.states && m + 2 != g.initialHeight
    ensures var w' := ReplayFrom(g, run, w, h, target, env).0;
            Valid(w') && ReplayFrom(g, run, w', |w'.roots|, later, env') == (w', false)
  {
    ReplayLeavesPrefix(g, run, w, h, target, env);
    ReplayBounds(g, run, w, h, target, env);
    var w' := ReplayFrom(g, run, w, h, target, env).0;
    var stuck: uint64 := Committed(g, run, w, h, target, env) + 1;
    assert SameState(w, w', stuck);
    NothingBelow(g, run, w', later, env');
  }

  // Two blocks of a chain that starts at height 1.

  const GENESIS := Genesis("c", 0, 1, [7])
  const FIRST := Header("c", 1, 0, [], [0], [7], [9])
  const SECOND := Header("c", 2, 0, [9], [1], [7], [8])
  const BLOCKS: map<uint64, Block> := map[1 := Block(FIRST, []), 2 := Block(SECOND, [])]

  function Counting(own: Bytes, prev: Bytes, b: Block): Option<Outcome> {
    Some(Outcome([b.header.height], []))
  }

  /** The stored app hash [2] of block 1 cannot be read, and is replaced by [1] with success. */
  lemma {:induction false} UnreadStateIsReplaced()
    ensures var w := World(BLOCKS, map[1 := GenesisState(GENESIS, [2])], [[0]]);
            Valid(w) &&
            var (w', ok) := ReplayOne(GENESIS, Counting, w, 1, NO_FAULTS.(expectedRead := false));
            ok && 1 in w'.states && w'.states[1].appHash == [1]
  {
  }

  /** The stored DA height 5 of block 1 is replaced by 0. */
  lemma {:induction false} DAHeightIsLost()
    ensures var s := GenesisState(GENESIS, [1]).(daHeight := 5);
            var w := World(BLOCKS, map[1 := s], [[0]]);
            var (w', ok) := ReplayOne(GENESIS, Counting, w, 1, NO_FAULTS);
            Valid(w) && ok && 1 in w'.states && w'.states[1].daHeight == 0
  {
  }

  /** The commit of block 1 fails once; no replay of block 2 succeeds afterwards. */
  lemma {:induction false} FailedCommitIsFinal(env: Env)
    ensures var w := World(BLOCKS, map[], [[0]]);
            Valid(w) &&
            var (w', ok) := ReplayOne(GENESIS, Counting, w, 1, NO_FAULTS.(commit := false));
            !ok && Valid(w') && |w'.roots| == 2 && ReplayFrom(GENESIS, Counting, w', 2, 2, env) == (w', false)
  {
    var w := World(BLOCKS, map[], [[0]]);
    var w' := ReplayOne(GENESIS, Counting, w, 1, NO_FAULTS.(commit := false)).0;
    NothingBelow(GENESIS, Counting, w', 2, env);
  }

  // ---------------------------------------------------------------- SyncToHeight

  /** The optional interfaces of the executor and how its calls end. */
  datatype Ability = Ability(reportsHeight: bool, heightRead: bool, rollsBack: bool, rollbackDone: bool)

  class Replayer {
    const genesis: Genesis
    const exec: Executor
    var blocks: map<uint64, Block>
    var states: map<uint64, State>
    var roots: seq<Bytes>

    function W(): World
      reads this
    {
      World(blocks, states, roots)
    }

    constructor (genesis: Genesis, exec: Executor, w: World)
      ensures W() == w && this.genesis == genesis && this.exec == exec
    {
      this.genesis := genesis;
      this.exec := exec;
      blocks, states, roots := w.blocks, w.states, w.roots;
    }

    method ReplayBlock(h: uint64, f: Faults) returns (ok: bool)
      requires Valid(W()) && (h == 0 || |roots| == h)
      modifies this
      ensures (W(), ok) == ReplayOne(genesis, exec, old(W()), h, f)
      ensures Valid(W())
    {
      if !f.blockRead || h !in blocks {
        return false;
      }
      var block := blocks[h];
      var prevState;
      if h == genesis.initialHeight {
        prevState := GenesisState(genesis, block.header.appHash);
      } else {
        if !f.prevRead || h - 1 !in states {
          return false;
        }
        prevState := states[h - 1];
      }
      var result := exec(roots[|roots| - 1], prevState.appHash, block);
      if result.None? || f.call.Lost? {
        return false;
      }
      roots := roots + [result.value.root];
      if f.call.LostAfter? {
        return false;
      }
      var newState := NextState(prevState, block.header, result.value.root, result.value.nextProposer);
      if f.expectedRead && h in states {
        var expected := states[h];
        if newState.appHash != expected.appHash {
          return false;
        }
        if |expected.nextProposer| > 0 && newState.nextProposer != expected.nextProposer {
          return false;
        }
      }
      if !f.commit {
        return false;
      }
      states := states[newState.lastBlockHeight := newState];
      return true;
    }

    /** The executor ends at the target, or the replay of a height has failed. */
    method SyncToHeight(target: uint64, a: Ability, env: Env) returns (ok: bool)
      requires Valid(W())
      modifies this
      ensures Valid(W()) && blocks == old(blocks)
      ensures !a.reportsHeight || target < genesis.initialHeight ==> ok && W() == old(W())
      ensures a.reportsHeight && target >= genesis.initialHeight && !a.heightRead ==> !ok && W() == old(W())
      ensures a.reportsHeight && target >= genesis.initialHeight && a.heightRead ==>
                if old(|roots|) > target + 1 then
                  && ok == (a.rollsBack && a.rollbackDone)
                  && states == old(states)
                  && roots == if ok then old(roots)[..target + 1] else old(roots)
                else if old(|roots|) == target + 1 then ok && W() == old(W())
                else if target !in blocks || !env(target).blockRead then !ok && W() == old(W())
                else
                  && (W(), ok) == ReplayFrom(genesis, exec, old(W()), old(|roots|), target, env)
                  && Replayed(genesis, exec, old(W()), W(), old(|roots|),
                              Committed(genesis, exec, old(W()), old(|roots|), target, env), env)
                  && (ok ==> |roots| == target + 1 && target in states && states[target].appHash == roots[target])
    {
      if !a.reportsHeight {
        return true;
      }
      if target < genesis.initialHeight {
        return true;
      }
      if !a.heightRead {
        return false;
      }
      var execHeight := |roots| - 1;
      if execHeight > target {
        if a.rollsBack {
          if !a.rollbackDone {
            return false;
          }
          roots := roots[..target + 1];
          return true;
        }
        return false;
      }
      if execHeight < target {
        if target !in blocks || !env(target).blockRead {
          return false;
        }
        ok := ReplayUpTo(target, env);
      } else {
        ok := true;
      }
    }

    method ReplayUpTo(target: uint64, env: Env) returns (ok: bool)
      requires Valid(W()) && |roots| <= target
      modifies this
      ensures Valid(W()) && blocks == old(blocks)
      ensures (W(), ok) == ReplayFrom(genesis, exec, old(W()), old(|roots|), target, env)
      ensures Replayed(genesis, exec, old(W()), W(), old(|roots|),
                       Committed(genesis, exec, old(W()), old(|roots|), target, env), env)
      ensures ok ==> |roots| == target + 1 && target in states && states[target].appHash == roots[target]
    {
      ghost var start: uint64 := |roots|;
      ReplayLeavesPrefix(genesis, exec, W(), start, target, env);
      ReplayBounds(genesis, exec, W(), start, target, env);
      ok := ReplayLoop(target, env);
      if ok {
        assert Done(genesis, exec, old(W()), W(), target, env);
      }
    }

    method ReplayLoop(target: uint64, env: Env) returns (ok: bool)
      requires Valid(W()) && |roots| <= target
      modifies this
      ensures Valid(W())
      ensures (W(), ok) == ReplayFrom(genesis, exec, old(W()), old(|roots|), target, env)
    {
      var height: uint64 := |roots|;
      ghost var all := ReplayFrom(genesis, exec, W(), height, target, env);
      while height <= target
        invariant Valid(W()) && (height > 0 ==> |roots| == height)
        invariant all == if height == 0 then (W(), false) else ReplayFrom(genesis, exec, W(), height, target, env)
        decreases if height == 0 then 0 else TWO64 - height
      {
        StepUnfolds(genesis, exec, W(), height, target, env);
        ok := ReplayBlock(height, env(height));
        if !ok {
          return false;
        }
        height := if height == TWO64 - 1 then 0 else height + 1;
      }
      return true;
    }
  }
}
