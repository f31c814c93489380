/** The raft state machine that replicates the latest block state, with its snapshots and its lossy apply channel. */
module RaftFSM {
  import opened Common

  type Bytes = seq<nat>

  datatype BlockState = BlockState(height: uint64, timestamp: uint64, hash: Bytes, header: Bytes, data: Bytes)

  datatype Log = Log(index: uint64, term: uint64, data: Bytes)

  datatype Msg = Msg(index: uint64, term: uint64, state: BlockState)

  /** proto.Unmarshal of a block state. */
  type Decoder = Bytes -> Option<BlockState>

  const EMPTY := BlockState(0, 0, [], [], [])

  predicate AssertValid(s: BlockState, next: BlockState) {
    s.height < next.height && s.timestamp < next.timestamp
  }

  // ---------------------------------------------------------------- the replicated state

  /** The entries of a log that are accepted, in order. */
  function Accepted(dec: Decoder, s: BlockState, logs: seq<Log>): seq<Msg> {
    if logs == [] then []
    else
      var before := Accepted(dec, s, logs[..|logs| - 1]);
      var l := logs[|logs| - 1];
      var next := dec(l.data);
      if next.Some? && AssertValid(Last(s, before), next.value) then before + [Msg(l.index, l.term, next.value)]
      else before
  }

  /** The state after the accepted entries. */
  function Last(s: BlockState, accepted: seq<Msg>): BlockState {
    if accepted == [] then s else accepted[|accepted| - 1].state
  }

  /** `b` is above `a` in height and in time. */
  predicate Above(a: BlockState, b: BlockState) {
    a.height < b.height && a.timestamp < b.timestamp
  }

  /** Every message is above the state `s` and above every message before it. */
  predicate Rising(s: BlockState, ms: seq<Msg>) {
    && (forall i :: 0 <= i < |ms| ==> Above(s, ms[i].state))
    && (forall i, j :: 0 <= i < j < |ms| ==> Above(ms[i].state, ms[j].state))
  }

  /** Heights and timestamps strictly increase over the accepted entries of any log. */
  lemma {:induction false} AcceptedIncrease(dec: Decoder, s: BlockState, logs: seq<Log>)
    ensures Rising(s, Accepted(dec, s, logs))
    decreases |logs|
  {
    if logs != [] {
      AcceptedIncrease(dec, s, logs[..|logs| - 1]);
    }
  }

  /** The entry is at or below `s` in height or time. */
  predicate NotAbove(s: BlockState, next: BlockState) {
    next.height <= s.height || next.timestamp <= s.timestamp
  }

  /** The entry is not above the state `s` or an accepted entry. */
  predicate Behind(s: BlockState, accepted: seq<Msg>, next: BlockState) {
    NotAbove(s, next) || exists i :: 0 <= i < |accepted| && NotAbove(accepted[i].state, next)
  }

  /** An entry is left out if and only if it does not decode or is not above everything accepted before it; otherwise
      it is accepted with its own index, term and state. */
  lemma {:induction false} RejectedExactly(dec: Decoder, s: BlockState, logs: seq<Log>, l: Log)
    ensures var before, next := Accepted(dec, s, logs), dec(l.data);
            Accepted(dec, s, logs + [l]) ==
            if next.None? || Behind(s, before, next.value) then before else before + [Msg(l.index, l.term, next.value)]
  {
    AcceptedIncrease(dec, s, logs);
    var before := Accepted(dec, s, logs);
    assert (logs + [l])[..|logs|] == logs;
    if dec(l.data).Some? && before != [] {
      assert Behind(s, before, dec(l.data).value) <==> NotAbove(before[|before| - 1].state, dec(l.data).value) by {
        var last := before[|before| - 1].state;
        forall i | 0 <= i < |before| && NotAbove(before[i].state, dec(l.data).value)
          ensures NotAbove(last, dec(l.data).value)
        {
        }
      }
    }
  }

  /** What Persist writes for the state, Restore reads back. */
  ghost predicate Inverse(enc: BlockState -> Bytes, dec: Decoder) {
    forall s :: dec(enc(s)) == Some(s)
  }

  lemma {:induction false} LastOfJoin(s: BlockState, a: seq<Msg>, b: seq<Msg>)
    ensures Last(s, a + b) == Last(Last(s, a), b)
  {
  }

  lemma {:induction false} AcceptedSplits(dec: Decoder, s: BlockState, a: seq<Log>, b: seq<Log>)
    ensures Accepted(dec, s, a + b) == Accepted(dec, s, a) + Accepted(dec, Last(s, Accepted(dec, s, a)), b)
    decreases |b|
  {
    if b == [] {
      assert a + b == a;
    } else {
      var b' := b[..|b| - 1];
      AcceptedSplits(dec, s, a, b');
      assert (a + b)[..|a + b| - 1] == a + b' && (a + b)[|a + b| - 1] == b[|b| - 1];
      LastOfJoin(s, Accepted(dec, s, a), Accepted(dec, Last(s, Accepted(dec, s, a)), b'));
    }
  }

  /** Restoring a snapshot taken after a prefix and applying the rest is applying the whole log. */
  lemma {:induction false} SnapshotThenRest(
      enc: BlockState -> Bytes, dec: Decoder, s: BlockState, prefix: seq<Log>, rest: seq<Log>)
    requires Inverse(enc, dec)
    ensures var snapshot := enc(Last(s, Accepted(dec, s, prefix)));
            && dec(snapshot).Some?
            && Accepted(dec, s, prefix + rest) == Accepted(dec, s, prefix) + Accepted(dec, dec(snapshot).value, rest)
            && Last(s, Accepted(dec, s, prefix + rest))
               == Last(dec(snapshot).value, Accepted(dec, dec(snapshot).value, rest))
  {
    AcceptedSplits(dec, s, prefix, rest);
  }

  // ---------------------------------------------------------------- the apply channel

  /** The state, the channel with its capacity if one is set, what it buffers, and what its readers have received. */
  datatype Fsm = Fsm(state: BlockState, ch: Option<nat>, queue: seq<Msg>, received: seq<Msg>)

  /** A send that does not wait: handed to a waiting reader, buffered, or dropped. */
  function Send(f: Fsm, m: Msg, readerWaits: bool): Fsm {
    if f.ch.None? then f
    else if f.queue == [] && readerWaits then f.(received := f.received + [m])
    else if |f.queue| < f.ch.value then f.(queue := f.queue + [m])
    else f
  }

  /** The new machine and what was applied. */
  function Apply(dec: Decoder, f: Fsm, l: Log, readerWaits: bool): (Fsm, Option<Msg>) {
    var next := dec(l.data);
    if next.None? || !AssertValid(f.state, next.value) then (f, None)
    else
      var m := Msg(l.index, l.term, next.value);
      (Send(f.(state := next.value), m, readerWaits), Some(m))
  }

  datatype Event =
    | Entry(log: Log, readerWaits: bool)
    | Receive
    | Restored(data: Option<Bytes>)     // None: the snapshot could not be read
    | Callback(capacity: nat)           // a new channel; what the old one buffers is not seen again

  function Handle(dec: Decoder, f: Fsm, e: Event): (Fsm, Option<Msg>) {
    match e
    case Entry(l, readerWaits) => Apply(dec, f, l, readerWaits)
    case Receive =>
      (if f.queue == [] then f else f.(queue := f.queue[1..], received := f.received + [f.queue[0]]), None)
    case Restored(data) =>
      (if data.Some? && dec(data.value).Some? then f.(state := dec(data.value).value) else f, None)
    case Callback(capacity) => (f.(ch := Some(capacity), queue := []), None)
  }

  /** The machine after the events, and the messages of all applied entries. */
  function Run(dec: Decoder, f: Fsm, es: seq<Event>): (Fsm, seq<Msg>) {
    if es == [] then (f, [])
    else
      var (f1, applied) := Run(dec, f, es[..|es| - 1]);
      var (f2, m) := Handle(dec, f1, es[|es| - 1]);
      (f2, if m.Some? then applied + [m.value] else applied)
  }

  /** `xs` are the elements of `ys` at the increasing positions `at`. */
  predicate Picks(at: seq<nat>, xs: seq<Msg>, ys: seq<Msg>) {
    && |at| == |xs|
    && (forall i :: 0 <= i < |at| ==> at[i] < |ys| && xs[i] == ys[at[i]])
    && (forall i, j :: 0 <= i < j < |at| ==> at[i] < at[j])
  }

  ghost predicate IsSubsequence(xs: seq<Msg>, ys: seq<Msg>) {
    exists at: seq<nat> :: Picks(at, xs, ys)
  }

  lemma SubsequenceDrops(xs: seq<Msg>, ys: seq<Msg>, n: nat, y: Msg)
    requires IsSubsequence(xs, ys) && n <= |xs|
    ensures IsSubsequence(xs[..n], ys) && IsSubsequence(xs, ys + [y])
  {
    var at: seq<nat> :| Picks(at, xs, ys);
    assert Picks(at[..n], xs[..n], ys);
    assert Picks(at, xs, ys + [y]);
  }

  lemma SubsequenceTakes(xs: seq<Msg>, ys: seq<Msg>, y: Msg)
    requires IsSubsequence(xs, ys)
    ensures IsSubsequence(xs + [y], ys + [y])
  {
    var at: seq<nat> :| Picks(at, xs, ys);
    var at' := at + [|ys| as nat];
    assert Picks(at', xs + [y], ys + [y]);
  }

  lemma SendDelivers(f: Fsm, m: Msg, readerWaits: bool, applied: seq<Msg>)
    requires IsSubsequence(f.received + f.queue, applied)
    ensures var f' := Send(f, m, readerWaits); IsSubsequence(f'.received + f'.queue, applied + [m])
  {
    var all := f.received + f.queue;
    var f' := Send(f, m, readerWaits);
    if f' == f {
      SubsequenceDrops(all, applied, |all|, m);
    } else {
      SubsequenceTakes(all, applied, m);
      assert f'.received + f'.queue == all + [m];
    }
  }

  lemma HandleDelivers(dec: Decoder, f: Fsm, e: Event, applied: seq<Msg>)
    requires IsSubsequence(f.received + f.queue, applied)
    ensures var (f', m) := Handle(dec, f, e);
            IsSubsequence(f'.received + f'.queue, if m.Some? then applied + [m.value] else applied)
  {
    var all := f.received + f.queue;
    var (f', m) := Handle(dec, f, e);
    match e
    case Entry(l, readerWaits) =>
      if m.Some? {
        SendDelivers(f.(state := m.value.state), m.value, readerWaits, applied);
      }
    case Callback(_) =>
      SubsequenceDrops(all, applied, |f.received|, Msg(0, 0, EMPTY));
      assert f'.received + f'.queue == all[..|f.received|];
    case _ =>
      assert f'.received + f'.queue == all;
  }

  /** Over every run, with snapshots restored and channels replaced at any time, what readers receive is a
      subsequence of what was applied. */
  lemma {:induction false} DeliveredIsSubsequence(dec: Decoder, f: Fsm, es: seq<Event>)
    requires f.received == f.queue == []
    ensures var (f', applied) := Run(dec, f, es); IsSubsequence(f'.received + f'.queue, applied)
    decreases |es|
  {
    if es == [] {
      assert Picks([], f.received + f.queue, []);
    } else {
      DeliveredIsSubsequence(dec, f, es[..|es| - 1]);
      var (f1, applied) := Run(dec, f, es[..|es| - 1]);
      HandleDelivers(dec, f1, es[|es| - 1], applied);
    }
  }

  function Logs(es: seq<Event>): seq<Log> {
    if es == [] then []
    else
      var e := es[|es| - 1];
      Logs(es[..|es| - 1]) + if e.Entry? then [e.log] else []
  }

  /** Between restores the machine is the accepted part of its log: readers and channels do not matter. */
  lemma {:induction false} RunAppliesLog(dec: Decoder, f: Fsm, es: seq<Event>)
    requires forall i :: 0 <= i < |es| ==> !es[i].Restored?
    ensures var (f', applied) := Run(dec, f, es);
            applied == Accepted(dec, f.state, Logs(es)) && f'.state == Last(f.state, applied)
    decreases |es|
  {
    if es != [] {
      var es' := es[..|es| - 1];
      var e := es[|es| - 1];
      RunAppliesLog(dec, f, es');
      if e.Entry? {
        var logs := Logs(es');
        assert Logs(es) == logs + [e.log] && (logs + [e.log])[..|logs|] == logs;
      } else {
        assert Logs(es) == Logs(es') + [] == Logs(es');
      }
    }
  }

  /** A machine that restores the snapshot of another one and then sees the same entries ends in the same state and
      applies the same entries. */
  lemma {:induction false} RestoredFollows(
      enc: BlockState -> Bytes, dec: Decoder, f: Fsm, prefix: seq<Event>, g: Fsm, rest: seq<Event>, rest': seq<Event>)
    requires Inverse(enc, dec) && Logs(rest) == Logs(rest')
    requires forall i :: 0 <= i < |rest| ==> !rest[i].Restored?
    requires forall i :: 0 <= i < |rest'| ==> !rest'[i].Restored?
    ensures var f1 := Run(dec, f, prefix).0;
            var g1 := Handle(dec, g, Restored(Some(enc(f1.state)))).0;
            && g1 == g.(state := f1.state)
            && Run(dec, g1, rest').0.state == Run(dec, f1, rest).0.state
            && Run(dec, g1, rest').1 == Run(dec, f1, rest).1
  {
    var f1 := Run(dec, f, prefix).0;
    RunAppliesLog(dec, f1, rest);
    RunAppliesLog(dec, f1.(ch := g.ch, queue := g.queue, received := g.received), rest');
    assert dec(enc(f1.state)) == Some(f1.state);
    assert g.(state := f1.state) == f1.(ch := g.ch, queue := g.queue, received := g.received);
  }

  // ---------------------------------------------------------------- what is dropped

  /** A message is dropped if and only if no channel is set, or its buffer is full and no reader waits at an empty
      one. */
  lemma {:induction false} DroppedExactly(f: Fsm, m: Msg, readerWaits: bool)
    ensures var f' := Send(f, m, readerWaits);
            && f'.state == f.state && f'.ch == f.ch
            && f'.received + f'.queue ==
               if f.ch.None? || (f.ch.value <= |f.queue| && !(readerWaits && f.queue == [])) then f.received + f.queue
               else f.received + f.queue + [m]
  {
    if Send(f, m, readerWaits).received != f.received {
      assert f.received + f.queue + [m] == f.received + [m] + f.queue;
    }
  }

  predicate FixedChannel(es: seq<Event>) {
    forall i :: 0 <= i < |es| ==> !es[i].Callback?
  }

  /** With a channel that has room for every entry of the run nothing is dropped: what readers have received and what is
      buffered is everything that was applied. */
  lemma {:induction false} NothingDropped(dec: Decoder, f: Fsm, es: seq<Event>)
    requires f.received == f.queue == [] && f.ch.Some? && |Logs(es)| <= f.ch.value && FixedChannel(es)
    ensures var (f', applied) := Run(dec, f, es);
            f'.ch == f.ch && f'.received + f'.queue == applied && |f'.queue| <= |Logs(es)|
    decreases |es|
  {
    if es != [] {
      var init, e := es[..|es| - 1], es[|es| - 1];
      NothingDropped(dec, f, init);
      var (f1, applied) := Run(dec, f, init);
      match e
      case Entry(l, readerWaits) =>
        var next := dec(l.data);
        if next.Some? {
          DroppedExactly(f1.(state := next.value), Msg(l.index, l.term, next.value), readerWaits);
        }
      case Receive =>
        if f1.queue != [] {
          assert f1.received + [f1.queue[0]] + f1.queue[1..] == f1.received + f1.queue;
        }
      case Restored(_) =>
    }
  }

  /** The buffer never holds more than the channel's capacity. */
  lemma {:induction false} BufferBounded(dec: Decoder, f: Fsm, es: seq<Event>)
    requires f.queue == []
    ensures var f' := Run(dec, f, es).0; if f'.ch.None? then f'.queue == [] else |f'.queue| <= f'.ch.value
    decreases |es|
  {
    if es != [] {
      BufferBounded(dec, f, es[..|es| - 1]);
    }
  }

  // ---------------------------------------------------------------- the machine

  class Machine {
    var state: BlockState
    var applyCh: Option<nat>
    var queue: seq<Msg>
    var received: seq<Msg>

    function Value(): Fsm
      reads this
    {
      Fsm(state, applyCh, queue, received)
    }

    constructor ()
      ensures Value() == Fsm(EMPTY, None, [], [])
    {
      state, applyCh, queue, received := EMPTY, None, [], [];
    }

    method Apply(dec: Decoder, l: Log, readerWaits: bool) returns (applied: Option<Msg>)
      modifies this
      ensures (Value(), applied) == Handle(dec, old(Value()), Entry(l, readerWaits))
    {
      var next := dec(l.data);
      if next.None? {
        return None;
      }
      if state.height >= next.value.height || state.timestamp >= next.value.timestamp {
        return None;
      }
      state := next.value;
      var m := Msg(l.index, l.term, next.value);
      if applyCh.Some? {
        if |queue| == 0 && readerWaits {
          received := received + [m];
        } else if |queue| < applyCh.value {
          queue := queue + [m];
        }
      }
      return Some(m);
    }

    method Restore(dec: Decoder, data: Option<Bytes>) returns (ok: bool)
      modifies this
      ensures (Value(), None) == Handle(dec, old(Value()), Restored(data))
      ensures ok <==> data.Some? && dec(data.value).Some?
    {
      if data.None? {
        return false;
      }
      var s := dec(data.value);
      if s.None? {
        return false;
      }
      state := s.value;
      return true;
    }

    /** Snapshot and Persist: the bytes of the state, and no change. */
    method Snapshot(enc: BlockState -> Bytes) returns (bytes: Bytes)
      ensures bytes == enc(state)
    {
      bytes := enc(state);
    }

    method SetApplyCallback(capacity: nat)
      modifies this
      ensures (Value(), None) == Handle(RejectAll, old(Value()), Callback(capacity))
    {
      applyCh, queue := Some(capacity), [];
    }

    method Take()
      modifies this
      ensures (Value(), None) == Handle(RejectAll, old(Value()), Receive)
    {
      if |queue| > 0 {
        received, queue := received + [queue[0]], queue[1..];
      }
    }
  }

  function RejectAll(data: Bytes): Option<BlockState> {
    None
  }

  /** Runs the machine over any events. */
  method Drive(dec: Decoder, es: seq<Event>) returns (delivered: seq<Msg>, applied: seq<Msg>, state: BlockState)
    ensures IsSubsequence(delivered, applied)
    ensures (forall i :: 0 <= i < |es| ==> !es[i].Restored?) ==>
              applied == Accepted(dec, EMPTY, Logs(es)) && state == Last(EMPTY, applied)
  {
    var m := new Machine();
    ghost var f := m.Value();
    applied := [];
    for i := 0 to |es|
      invariant fresh(m) && (m.Value(), applied) == Run(dec, f, es[..i])
    {
      assert es[..i + 1][..i] == es[..i];
      match es[i] {
        case Entry(l, readerWaits) =>
          var r := m.Apply(dec, l, readerWaits);
          if r.Some? {
            applied := applied + [r.value];
          }
        case Receive => m.Take();
        case Restored(data) => var _ := m.Restore(dec, data);
        case Callback(capacity) => m.SetApplyCallback(capacity);
      }
    }
    assert es[..|es|] == es;
    DeliveredIsSubsequence(dec, f, es);
    SubsequenceDrops(m.received + m.queue, applied, |m.received|, Msg(0, 0, EMPTY));
    assert (m.received + m.queue)[..|m.received|] == m.received;
    if forall i :: 0 <= i < |es| ==> !es[i].Restored? {
      RunAppliesLog(dec, f, es);
    }
    delivered, state := m.received, m.state;
  }
}
