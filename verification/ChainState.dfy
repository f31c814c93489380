/** Header validation against the chain state, and the state after a block. */
module ChainState {
  import opened Common

  type Bytes = seq<nat>

  /** A header hash is never empty. */
  type Hash = b: Bytes | b != [] witness [0]

  /** A header; `hash` is its own hash. */
  datatype Header = Header(
    chainID: string, height: uint64, nanos: uint64, lastHeaderHash: Bytes, appHash: Bytes, proposer: Bytes, hash: Hash)

  datatype Version = Version(block: nat, app: nat)

  datatype State = State(
    version: Version, chainID: string, initialHeight: uint64, lastBlockHeight: uint64, lastBlockTime: int,
    lastHeaderHash: Bytes, daHeight: uint64, appHash: Bytes, nextProposer: Bytes)

  /** time.Unix(0, int64(nanos)): the upper half of uint64 is negative. */
  function Time(h: Header): int {
    if h.nanos < TWO63 then h.nanos else h.nanos - TWO64
  }

  function NextState(s: State, h: Header, root: Bytes, nextProposer: Bytes): State {
    var p := if |nextProposer| > 0 then nextProposer else s.nextProposer;
    s.(lastBlockHeight := h.height, lastBlockTime := Time(h), lastHeaderHash := h.hash, appHash := root,
       nextProposer := if |p| > 0 then p else h.proposer)
  }

  predicate ExpectedProposer(s: State, h: Header) {
    s.nextProposer == [] || h.proposer == s.nextProposer
  }

  /** The header does not link to the state's last header. */
  predicate Broken(s: State, h: Header) {
    h.lastHeaderHash != s.lastHeaderHash
  }

  /** The checks of AssertValidSequence before the link check. */
  predicate Follows(s: State, h: Header) {
    h.height == (s.lastBlockHeight + 1) % TWO64 && s.lastBlockTime <= Time(h)
  }

  /** Whether the header is in sequence, and the link-error count after looking. */
  function ValidSequence(s: State, errCount: nat, h: Header): (bool, nat) {
    if h.chainID != s.chainID then (false, errCount)
    else if s.lastHeaderHash == [] then (true, errCount)
    else if !Follows(s, h) then (false, errCount)
    else if Broken(s, h) && errCount == 1 then (false, errCount)
    else (h.appHash == s.appHash, if Broken(s, h) then 1 else errCount)
  }

  /** One block as it arrives: its header, whether its data matches, and what executing it would give. */
  datatype Item = Item(header: Header, dataOk: bool, root: Bytes, nextProposer: Bytes)

  function ValidForNextState(s: State, errCount: nat, it: Item): (bool, nat) {
    if !ExpectedProposer(s, it.header) then (false, errCount)
    else
      var (ok, n) := ValidSequence(s, errCount, it.header);
      (ok && it.dataOk, n)
  }

  class Process {
    /** The process-wide lastHeaderHashErrCount and its sync.Once. */
    var lastHeaderHashErrCount: nat
    var onceDone: bool

    predicate Valid()
      reads this
    {
      lastHeaderHashErrCount == if onceDone then 1 else 0
    }

    constructor ()
      ensures Valid() && lastHeaderHashErrCount == 0
    {
      lastHeaderHashErrCount, onceDone := 0, false;
    }

    method AssertValidSequence(s: State, h: Header) returns (ok: bool)
      requires Valid()
      modifies this
      ensures Valid() && (ok, lastHeaderHashErrCount) == ValidSequence(s, old(lastHeaderHashErrCount), h)
    {
      if h.chainID != s.chainID {
        return false;
      }
      if |s.lastHeaderHash| == 0 {
        return true;
      }
      if h.height != (s.lastBlockHeight + 1) % TWO64 {
        return false;
      }
      if s.lastBlockTime > Time(h) {
        return false;
      }
      if h.lastHeaderHash != s.lastHeaderHash {
        if lastHeaderHashErrCount == 1 {
          return false;
        }
        if !onceDone {
          lastHeaderHashErrCount := lastHeaderHashErrCount + 1;
          onceDone := true;
        }
      }
      return h.appHash == s.appHash;
    }

    method AssertValidForNextState(s: State, it: Item) returns (ok: bool)
      requires Valid()
      modifies this
      ensures Valid() && (ok, lastHeaderHashErrCount) == ValidForNextState(s, old(lastHeaderHashErrCount), it)
    {
      if |s.nextProposer| > 0 && it.header.proposer != s.nextProposer {
        return false;
      }
      ok := AssertValidSequence(s, it.header);
      if ok {
        ok := it.dataOk;
      }
    }
  }

  // ---------------------------------------------------------------- sequences of accepted headers

  /** An accepted block with the state it was checked against and the state after it. */
  datatype Step = Step(item: Item, before: State, after: State)

  function Follow(s: State, errCount: nat, items: seq<Item>): seq<Step>
    decreases |items|
  {
    if items == [] then []
    else
      var (ok, n) := ValidForNextState(s, errCount, items[0]);
      if !ok then Follow(s, n, items[1..])
      else
        var s' := NextState(s, items[0].header, items[0].root, items[0].nextProposer);
        [Step(items[0], s, s')] + Follow(s', n, items[1..])
  }

  method FollowAll(s0: State, items: seq<Item>) returns (steps: seq<Step>)
    ensures steps == Follow(s0, 0, items)
  {
    var p := new Process();
    var s := s0;
    steps := [];
    for i := 0 to |items|
      invariant fresh(p) && p.Valid()
      invariant Follow(s0, 0, items) == steps + Follow(s, p.lastHeaderHashErrCount, items[i..])
    {
      assert items[i..][1..] == items[i + 1..];
      var ok := p.AssertValidForNextState(s, items[i]);
      if ok {
        var s' := NextState(s, items[i].header, items[i].root, items[i].nextProposer);
        assert steps + ([Step(items[i], s, s')] + Follow(s', p.lastHeaderHashErrCount, items[i + 1..]))
            == (steps + [Step(items[i], s, s')]) + Follow(s', p.lastHeaderHashErrCount, items[i + 1..]);
        steps := steps + [Step(items[i], s, s')];
        s := s';
      }
    }
  }

  /** The proposer announced for the block after a step. */
  function Announced(st: Step): Bytes {
    if |st.item.nextProposer| > 0 then st.item.nextProposer
    else if |st.before.nextProposer| > 0 then st.before.nextProposer
    else st.item.header.proposer
  }

  /** What ties an accepted header to the accepted header before it. */
  predicate Linked(a: Step, b: Step) {
    && b.item.header.height == (a.item.header.height + 1) % TWO64
    && Time(a.item.header) <= Time(b.item.header)
    && b.item.header.appHash == a.item.root
    && (Announced(a) == [] || b.item.header.proposer == Announced(a))
    && b.item.header.chainID == a.item.header.chainID
  }

  lemma {:induction false} FollowStarts(s: State, errCount: nat, items: seq<Item>)
    ensures var steps := Follow(s, errCount, items);
            steps != [] ==> steps[0].before == s && ExpectedProposer(s, steps[0].item.header)
                            && steps[0].item.header.chainID == s.chainID
                            && (s.lastHeaderHash != [] ==>
                                  Follows(s, steps[0].item.header) && steps[0].item.header.appHash == s.appHash)
    decreases |items|
  {
    if items != [] {
      var (ok, n) := ValidForNextState(s, errCount, items[0]);
      if !ok {
        FollowStarts(s, n, items[1..]);
      }
    }
  }

  /** Along any sequence of headers accepted and applied in one process, after the first one: heights rise by exactly
      one (in 64 bits), times never go back, each app hash is the previous root, each proposer is the one announced. */
  lemma {:induction false} AcceptedAreLinked(s: State, errCount: nat, items: seq<Item>, i: nat)
    requires i + 1 < |Follow(s, errCount, items)|
    ensures Linked(Follow(s, errCount, items)[i], Follow(s, errCount, items)[i + 1])
    decreases |items|
  {
    var (ok, n) := ValidForNextState(s, errCount, items[0]);
    if !ok {
      AcceptedAreLinked(s, n, items[1..], i);
    } else {
      var s' := NextState(s, items[0].header, items[0].root, items[0].nextProposer);
      if i == 0 {
        FollowStarts(s', n, items[1..]);
      } else {
        AcceptedAreLinked(s', n, items[1..], i - 1);
      }
    }
  }

  /** Accepted headers that do not carry the hash of the accepted header before them. */
  function BrokenAfter(last: Bytes, steps: seq<Step>): nat
    decreases |steps|
  {
    if steps == [] then 0
    else
      var h := steps[0].item.header;
      (if last != [] && h.lastHeaderHash != last then 1 else 0) + BrokenAfter(h.hash, steps[1..])
  }

  /** At most one header is ever accepted that does not carry the hash of the accepted header before it, or, for the
      first one, the last header hash of the state the process starts with. */
  lemma {:induction false} AtMostOneBroken(s: State, errCount: nat, items: seq<Item>)
    requires errCount <= 1
    ensures BrokenAfter(s.lastHeaderHash, Follow(s, errCount, items)) + errCount <= 1
    decreases |items|
  {
    if items != [] {
      var (ok, n) := ValidForNextState(s, errCount, items[0]);
      if !ok {
        AtMostOneBroken(s, n, items[1..]);
      } else {
        var s' := NextState(s, items[0].header, items[0].root, items[0].nextProposer);
        AtMostOneBroken(s', n, items[1..]);
        var rest := Follow(s', n, items[1..]);
        assert ([Step(items[0], s, s')] + rest)[1..] == rest;
      }
    }
  }

  // ---------------------------------------------------------------- exactly which headers are accepted

  /** Why a block is refused by the state it arrives at. */
  predicate Refused(s: State, errCount: nat, it: Item) {
    var h := it.header;
    || (s.nextProposer != [] && h.proposer != s.nextProposer)
    || h.chainID != s.chainID
    || !it.dataOk
    || (s.lastHeaderHash != [] &&
        (|| h.height != (s.lastBlockHeight + 1) % TWO64
         || Time(h) < s.lastBlockTime
         || h.appHash != s.appHash
         || (h.lastHeaderHash != s.lastHeaderHash && errCount == 1)))
  }

  /** The one tolerated broken link is used up by a header of the expected proposer and chain, at the next height and a
      later time, also when the header is refused for its app hash or its data. */
  predicate UsesTolerance(s: State, it: Item) {
    var h := it.header;
    && (s.nextProposer == [] || h.proposer == s.nextProposer)
    && h.chainID == s.chainID && s.lastHeaderHash != []
    && h.height == (s.lastBlockHeight + 1) % TWO64 && s.lastBlockTime <= Time(h)
    && h.lastHeaderHash != s.lastHeaderHash
  }

  /** The state after the accepted blocks. */
  function StateAfter(s: State, steps: seq<Step>): State {
    if steps == [] then s else steps[|steps| - 1].after
  }

  /** The link-error count after the blocks. */
  function CountAfter(s: State, errCount: nat, items: seq<Item>): nat
    decreases |items|
  {
    if items == [] then errCount
    else
      var (ok, n) := ValidForNextState(s, errCount, items[0]);
      CountAfter(if ok then NextState(s, items[0].header, items[0].root, items[0].nextProposer) else s, n, items[1..])
  }

  lemma {:induction false} OneExactly(s: State, errCount: nat, it: Item)
    requires errCount <= 1
    ensures ValidForNextState(s, errCount, it).0 <==> !Refused(s, errCount, it)
    ensures ValidForNextState(s, errCount, it).1 == if UsesTolerance(s, it) then 1 else errCount
  {
  }

  lemma {:induction false} FollowSplits(s: State, errCount: nat, items: seq<Item>, it: Item)
    ensures var steps := Follow(s, errCount, items);
            var s1, n := StateAfter(s, steps), CountAfter(s, errCount, items);
            && Follow(s, errCount, items + [it]) == steps + Follow(s1, n, [it])
            && CountAfter(s, errCount, items + [it]) == CountAfter(s1, n, [it])
    decreases |items|
  {
    if items == [] {
      assert items + [it] == [it];
    } else {
      var (ok, n) := ValidForNextState(s, errCount, items[0]);
      assert (items + [it])[1..] == items[1..] + [it] && (items + [it])[0] == items[0];
      if ok {
        var s' := NextState(s, items[0].header, items[0].root, items[0].nextProposer);
        FollowSplits(s', n, items[1..], it);
        var rest := Follow(s', n, items[1..]);
        var first := [Step(items[0], s, s')];
        assert StateAfter(s, first + rest) == StateAfter(s', rest);
        var last := Follow(StateAfter(s', rest), CountAfter(s', n, items[1..]), [it]);
        assert first + (rest + last) == (first + rest) + last;
      } else {
        FollowSplits(s, n, items[1..], it);
      }
    }
  }

  lemma {:induction false} CountStays(s: State, errCount: nat, items: seq<Item>)
    requires errCount <= 1
    ensures errCount <= CountAfter(s, errCount, items) <= 1
    decreases |items|
  {
    if items != [] {
      var (ok, n) := ValidForNextState(s, errCount, items[0]);
      CountStays(if ok then NextState(s, items[0].header, items[0].root, items[0].nextProposer) else s, n, items[1..]);
    }
  }

  /** After any blocks, the next one is accepted if and only if nothing speaks against it: it is then applied to the
      state of the last accepted block. The tolerance for a broken link is used up exactly by the headers that need
      it. */
  lemma {:induction false} RefusedExactly(s: State, items: seq<Item>, it: Item)
    ensures var steps := Follow(s, 0, items);
            var s1, n := StateAfter(s, steps), CountAfter(s, 0, items);
            && Follow(s, 0, items + [it]) ==
               (if Refused(s1, n, it) then steps
                else steps + [Step(it, s1, NextState(s1, it.header, it.root, it.nextProposer))])
            && CountAfter(s, 0, items + [it]) == (if UsesTolerance(s1, it) then 1 else n)
  {
    FollowSplits(s, 0, items, it);
    CountStays(s, 0, items);
    var s1, n := StateAfter(s, Follow(s, 0, items)), CountAfter(s, 0, items);
    OneExactly(s1, n, it);
    assert [it][1..] == [];
  }

  /** The state after a block: its height, time, hash and root, the proposer announced for the next one, and everything
      else as before. */
  lemma {:induction false} NextStateShows(s: State, h: Header, root: Bytes, nextProposer: Bytes)
    ensures var s' := NextState(s, h, root, nextProposer);
            && s'.lastBlockHeight == h.height && s'.lastHeaderHash == h.hash && s'.appHash == root
            && s'.lastBlockTime == (if h.nanos < TWO63 then h.nanos else h.nanos - TWO64)
            && (nextProposer != [] ==> s'.nextProposer == nextProposer)
            && (nextProposer == [] && s.nextProposer != [] ==> s'.nextProposer == s.nextProposer)
            && (nextProposer == [] && s.nextProposer == [] ==> s'.nextProposer == h.proposer)
            && s'.version == s.version && s'.chainID == s.chainID && s'.initialHeight == s.initialHeight
            && s'.daHeight == s.daHeight
  {
  }
}
