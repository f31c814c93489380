/** Waiting for a height to be stored: the steps of concurrent SetHeight, Wait and cancellation, in every order. */
module HeightSub {
  import opened Common

  type Tid = nat
  type Chan = nat

  /** Where a call stands. Each call of SetHeight or Wait is its own thread. The height is stored outside the lock;
      registering and notifying happen under it. */
  datatype Thread =
    | Storing(h: nat)               // SetHeight, before the store
    | Notifying(h: nat)             // SetHeight, stored, before notifyUpTo
    | Notified(h: nat)              // SetHeight, done
    | Checking(w: nat)              // Wait, before the fast path
    | Locking(w: nat)               // Wait, wants the lock
    | Locked(w: nat)                // Wait, holds the lock, before the second look
    | Registering(w: nat)           // Wait, looked again under the lock, before it registers
    | Waiting(w: nat, ch: Chan)     // Wait, registered, in select
    | Cancelling(w: nat, ch: Chan)  // Wait, context ended, before removeWaiter
    | Elapsed(w: nat)               // Wait returned: height already reached
    | Woken(w: nat, ch: Chan)       // Wait returned: channel closed
    | Cancelled(w: nat, ch: Chan)   // Wait returned: context ended

  /** One closed channel: the height it was registered for and the SetHeight that closed it. */
  datatype Closing = Closing(ch: Chan, w: nat, setBy: nat)

  datatype State = State(
    height: nat,
    lock: Option<Tid>,
    waiters: map<Chan, nat>,
    closings: seq<Closing>,
    next: Chan,
    threads: map<Tid, Thread>,
    lastStorer: Option<Tid>)

  datatype Event =
    | CallSetHeight(t: Tid, h: nat)
    | CallWait(t: Tid, w: nat)
    | Advance(t: Tid)
    | ContextDone(t: Tid)

  function Init(height: nat): State {
    State(height, None, map[], [], 0, map[], None)
  }

  predicate IsClosed(s: State, ch: Chan) {
    exists i :: 0 <= i < |s.closings| && s.closings[i].ch == ch
  }

  /** The waiters left by notifyUpTo(h). */
  function NotifyUpTo(ws: map<Chan, nat>, h: nat): map<Chan, nat> {
    map ch | ch in ws && ws[ch] > h :: ws[ch]
  }

  /** The closings of notifyUpTo(h), in some order: one for each waiter at or below `h`. */
  ghost predicate ClosesAll(ws: map<Chan, nat>, h: nat, cs: seq<Closing>) {
    && (forall i :: 0 <= i < |cs| ==> cs[i].ch in ws && cs[i].w == ws[cs[i].ch] <= h && cs[i].setBy == h)
    && (forall i, j :: 0 <= i < j < |cs| ==> cs[i].ch != cs[j].ch)
    && (forall ch :: ch in ws && ws[ch] <= h ==> exists i :: 0 <= i < |cs| && cs[i].ch == ch)
  }

  /** One step, where notifyUpTo closes its channels in the order `cs`. */
  ghost predicate Next(s: State, e: Event, cs: seq<Closing>, s': State) {
    match e
    case CallSetHeight(t, h) =>
      t !in s.threads && s' == s.(threads := s.threads[t := Storing(h)])
    case CallWait(t, w) =>
      t !in s.threads && s' == s.(threads := s.threads[t := Checking(w)])
    case ContextDone(t) =>
      && t in s.threads && s.threads[t].Waiting?
      && s' == s.(threads := s.threads[t := Cancelling(s.threads[t].w, s.threads[t].ch)])
    case Advance(t) =>
      && t in s.threads
      && match s.threads[t]
         case Storing(h) =>
           s' == s.(height := h, lastStorer := Some(t), threads := s.threads[t := Notifying(h)])
         case Notifying(h) =>
           && s.lock.None? && ClosesAll(s.waiters, h, cs)
           && s' == s.(waiters := NotifyUpTo(s.waiters, h), closings := s.closings + cs,
                       threads := s.threads[t := Notified(h)])
         case Checking(w) =>
           s' == s.(threads := s.threads[t := if s.height >= w then Elapsed(w) else Locking(w)])
         case Locking(w) =>
           s.lock.None? && s' == s.(lock := Some(t), threads := s.threads[t := Locked(w)])
         case Locked(w) =>
           if s.height >= w then s' == s.(lock := None, threads := s.threads[t := Elapsed(w)])
           else s' == s.(threads := s.threads[t := Registering(w)])
         case Registering(w) =>
           s' == s.(lock := None, waiters := s.waiters[s.next := w], next := s.next + 1,
                    threads := s.threads[t := Waiting(w, s.next)])
         case Waiting(w, ch) =>
           IsClosed(s, ch) && s' == s.(threads := s.threads[t := Woken(w, ch)])
         case Cancelling(w, ch) =>
           s.lock.None? && s' == s.(waiters := s.waiters - {ch}, threads := s.threads[t := Cancelled(w, ch)])
         case _ => false
  }

  ghost predicate Steps(s: State, s': State) {
    exists e, cs :: Next(s, e, cs, s')
  }

  /** A run: the states it passes through. */
  ghost predicate IsRun(h0: nat, ss: seq<State>) {
    && |ss| > 0 && ss[0] == Init(h0)
    && forall i :: 0 < i < |ss| ==> Steps(ss[i - 1], ss[i])
  }

  // ---------------------------------------------------------------- the invariant

  /** The SetHeight that stored the current height has not run its notify yet. */
  predicate NotifyPending(s: State) {
    && s.lastStorer.Some? && s.lastStorer.value in s.threads
    && s.threads[s.lastStorer.value] == Notifying(s.height)
  }

  predicate HoldsLock(th: Thread) {
    th.Locked? || th.Registering?
  }

  predicate HasChan(th: Thread) {
    th.Waiting? || th.Cancelling? || th.Woken? || th.Cancelled?
  }

  ghost predicate LockOk(s: State) {
    forall t :: t in s.threads && HoldsLock(s.threads[t]) ==> s.lock == Some(t)
  }

  /** No wake-up is lost. */
  ghost predicate NoLostWakeup(s: State) {
    && (forall ch :: ch in s.waiters && s.waiters[ch] <= s.height ==> NotifyPending(s))
    && (forall t :: t in s.threads && s.threads[t].Registering? && s.threads[t].w <= s.height ==> NotifyPending(s))
  }

  ghost predicate StorerOk(s: State) {
    s.lastStorer.Some? ==>
      && s.lastStorer.value in s.threads
      && (s.threads[s.lastStorer.value] == Notifying(s.height) || s.threads[s.lastStorer.value] == Notified(s.height))
  }

  /** Channels are numbered as they are made, closed once, and never closed while registered. */
  ghost predicate ChansOk(s: State) {
    && (forall ch :: ch in s.waiters ==> ch < s.next && !IsClosed(s, ch))
    && (forall i :: 0 <= i < |s.closings| ==> s.closings[i].ch < s.next && s.closings[i].w <= s.closings[i].setBy)
    && (forall i, j :: 0 <= i < j < |s.closings| ==> s.closings[i].ch != s.closings[j].ch)
  }

  /** A waiting call's channel is registered for its height or has been closed for it. */
  ghost predicate WaitersOk(s: State) {
    && (forall t :: t in s.threads && HasChan(s.threads[t]) ==> s.threads[t].ch < s.next)
    && (forall t, u :: t in s.threads && u in s.threads && t != u && HasChan(s.threads[t]) && HasChan(s.threads[u]) ==>
          s.threads[t].ch != s.threads[u].ch)
    && (forall t :: t in s.threads && (s.threads[t].Waiting? || s.threads[t].Cancelling?) ==>
          Registered(s, s.threads[t].w, s.threads[t].ch) || ClosedFor(s, s.threads[t].w, s.threads[t].ch))
    && (forall t :: t in s.threads && s.threads[t].Woken? ==> ClosedFor(s, s.threads[t].w, s.threads[t].ch))
  }

  predicate Registered(s: State, w: nat, ch: Chan) {
    ch in s.waiters && s.waiters[ch] == w
  }

  /** Closed by a SetHeight at or above the waiter's height. */
  predicate ClosedFor(s: State, w: nat, ch: Chan) {
    exists i :: 0 <= i < |s.closings| && s.closings[i].ch == ch && s.closings[i].w == w <= s.closings[i].setBy
  }

  ghost predicate Inv(s: State) {
    LockOk(s) && StorerOk(s) && NoLostWakeup(s) && ChansOk(s) && WaitersOk(s)
  }

  // ---------------------------------------------------------------- each step keeps it

  lemma LockStep(s: State, e: Event, cs: seq<Closing>, s': State)
    requires LockOk(s) && Next(s, e, cs, s')
    ensures LockOk(s')
  {
  }

  lemma StorerStep(s: State, e: Event, cs: seq<Closing>, s': State)
    requires StorerOk(s) && Next(s, e, cs, s')
    ensures StorerOk(s')
    ensures NotifyPending(s) && !(e.Advance? && s.threads[e.t].Notifying?) ==> NotifyPending(s')
  {
  }

  lemma WakeupStep(s: State, e: Event, cs: seq<Closing>, s': State)
    requires Inv(s) && Next(s, e, cs, s')
    ensures NoLostWakeup(s')
  {
    StorerStep(s, e, cs, s');
  }

  lemma ClosingsGrow(s: State, e: Event, cs: seq<Closing>, s': State)
    requires Next(s, e, cs, s')
    ensures s.closings <= s'.closings
    ensures forall ch :: IsClosed(s, ch) ==> IsClosed(s', ch)
    ensures forall w: nat, ch: Chan :: ClosedFor(s, w, ch) ==> ClosedFor(s', w, ch)
  {
    assert forall i :: 0 <= i < |s.closings| ==> s'.closings[i] == s.closings[i];
    forall ch | IsClosed(s, ch) ensures IsClosed(s', ch) {
      var i :| 0 <= i < |s.closings| && s.closings[i].ch == ch;
      assert s'.closings[i].ch == ch;
    }
    forall w: nat, ch: Chan | ClosedFor(s, w, ch) ensures ClosedFor(s', w, ch) {
      var i :| 0 <= i < |s.closings| && s.closings[i].ch == ch && s.closings[i].w == w <= s.closings[i].setBy;
      assert s'.closings[i].ch == ch;
    }
  }

  /** notifyUpTo closes exactly the waiters it removes, and none of them was closed before. */
  lemma NotifyChans(s: State, h: nat, cs: seq<Closing>)
    requires ChansOk(s) && ClosesAll(s.waiters, h, cs)
    ensures ChansOk(s.(waiters := NotifyUpTo(s.waiters, h), closings := s.closings + cs))
  {
    var all := s.closings + cs;
    forall i, j | 0 <= i < j < |all| ensures all[i].ch != all[j].ch {
      if i < |s.closings| <= j {
        assert all[j] == cs[j - |s.closings|];
        assert IsClosed(s, all[i].ch);
      } else if |s.closings| <= i {
        assert all[i] == cs[i - |s.closings|] && all[j] == cs[j - |s.closings|];
      }
    }
    var s' := s.(waiters := NotifyUpTo(s.waiters, h), closings := all);
    forall ch | ch in s'.waiters ensures !IsClosed(s', ch) {
      if IsClosed(s', ch) {
        var i :| 0 <= i < |all| && all[i].ch == ch;
        assert i < |s.closings| ==> IsClosed(s, ch);
      }
    }
  }

  lemma ChansStep(s: State, e: Event, cs: seq<Closing>, s': State)
    requires Inv(s) && Next(s, e, cs, s')
    ensures ChansOk(s')
  {
    if e.Advance? && s.threads[e.t].Notifying? {
      NotifyChans(s, s.threads[e.t].h, cs);
    } else {
      assert s'.closings == s.closings;
      if e.Advance? && s.threads[e.t].Registering? {
        forall ch | ch in s'.waiters ensures !IsClosed(s', ch) {
          assert IsClosed(s', ch) ==> IsClosed(s, ch);
        }
      } else {
        assert forall ch :: IsClosed(s', ch) ==> IsClosed(s, ch);
      }
    }
  }

  /** A thread's channel was its own before the step, or was made by it. */
  lemma ChanFrom(s: State, e: Event, cs: seq<Closing>, s': State, t: Tid)
    requires Next(s, e, cs, s') && t in s'.threads && HasChan(s'.threads[t])
    ensures s.next <= s'.next
    ensures || (t in s.threads && HasChan(s.threads[t])
                && s'.threads[t].ch == s.threads[t].ch && s'.threads[t].w == s.threads[t].w)
            || (e == Advance(t) && s'.threads[t] == Waiting(s'.threads[t].w, s.next) && s'.next == s.next + 1)
  {
  }

  lemma WokenClosed(s: State, e: Event, cs: seq<Closing>, s': State, t: Tid)
    requires Inv(s) && Next(s, e, cs, s') && t in s'.threads && s'.threads[t].Woken?
    ensures ClosedFor(s', s'.threads[t].w, s'.threads[t].ch)
  {
    ClosingsGrow(s, e, cs, s');
    ChanFrom(s, e, cs, s', t);
    if !s.threads[t].Woken? {
      assert IsClosed(s, s.threads[t].ch);
      assert !Registered(s, s.threads[t].w, s.threads[t].ch);
    }
  }

  lemma ChansDistinct(s: State, e: Event, cs: seq<Closing>, s': State, t: Tid, u: Tid)
    requires Inv(s) && Next(s, e, cs, s')
    requires t in s'.threads && u in s'.threads && t != u && HasChan(s'.threads[t]) && HasChan(s'.threads[u])
    ensures s'.threads[t].ch != s'.threads[u].ch && s'.threads[t].ch < s'.next
  {
    ChanFrom(s, e, cs, s', t);
    ChanFrom(s, e, cs, s', u);
  }

  lemma WaitersStep(s: State, e: Event, cs: seq<Closing>, s': State)
    requires Inv(s) && Next(s, e, cs, s')
    ensures WaitersOk(s')
  {
    forall t | t in s'.threads && HasChan(s'.threads[t]) ensures s'.threads[t].ch < s'.next {
      ChanFrom(s, e, cs, s', t);
    }
    forall t, u | t in s'.threads && u in s'.threads && t != u && HasChan(s'.threads[t]) && HasChan(s'.threads[u])
      ensures s'.threads[t].ch != s'.threads[u].ch
    {
      ChansDistinct(s, e, cs, s', t, u);
    }
    forall t | t in s'.threads && (s'.threads[t].Waiting? || s'.threads[t].Cancelling?)
      ensures Registered(s', s'.threads[t].w, s'.threads[t].ch) || ClosedFor(s', s'.threads[t].w, s'.threads[t].ch)
    {
      WaiterKept(s, e, cs, s', t);
    }
    forall t | t in s'.threads && s'.threads[t].Woken? ensures ClosedFor(s', s'.threads[t].w, s'.threads[t].ch) {
      WokenClosed(s, e, cs, s', t);
    }
  }

  lemma {:induction false} DroppedIsClosed(s: State, e: Event, cs: seq<Closing>, s': State, w: nat, ch: Chan)
    requires Next(s, e, cs, s') && Registered(s, w, ch) && !Registered(s', w, ch)
    requires e.Advance? && s.threads[e.t].Notifying?
    ensures ClosedFor(s', w, ch)
  {
    var i :| 0 <= i < |cs| && cs[i].ch == ch;
    assert s'.closings[|s.closings| + i] == cs[i];
  }

  lemma WaiterKept(s: State, e: Event, cs: seq<Closing>, s': State, t: Tid)
    requires Inv(s) && Next(s, e, cs, s')
    requires t in s'.threads && (s'.threads[t].Waiting? || s'.threads[t].Cancelling?)
    ensures Registered(s', s'.threads[t].w, s'.threads[t].ch) || ClosedFor(s', s'.threads[t].w, s'.threads[t].ch)
  {
    ClosingsGrow(s, e, cs, s');
    var w, ch := s'.threads[t].w, s'.threads[t].ch;
    if !(e.Advance? && s.threads[e.t].Registering? && e.t == t) {
      assert HasChan(s.threads[t]) && s.threads[t].ch == ch && s.threads[t].w == w;
      if Registered(s, w, ch) && !Registered(s', w, ch) {
        assert e.Advance?;
        if s.threads[e.t].Notifying? {
          DroppedIsClosed(s, e, cs, s', w, ch);
        }
      }
    }
  }

  lemma StepKeeps(s: State, e: Event, cs: seq<Closing>, s': State)
    requires Inv(s) && Next(s, e, cs, s')
    ensures Inv(s')
  {
    LockStep(s, e, cs, s');
    StorerStep(s, e, cs, s');
    WakeupStep(s, e, cs, s');
    ChansStep(s, e, cs, s');
    WaitersStep(s, e, cs, s');
  }

  // ---------------------------------------------------------------- whole runs

  lemma {:induction false} RunInv(h0: nat, ss: seq<State>, i: nat)
    requires IsRun(h0, ss) && i < |ss|
    ensures Inv(ss[i])
  {
    if i > 0 {
      RunInv(h0, ss, i - 1);
      var e, cs :| Next(ss[i - 1], e, cs, ss[i]);
      StepKeeps(ss[i - 1], e, cs, ss[i]);
    }
  }

  /** Under every interleaving: a registered waiter whose height is reached is still going to be notified by the
      SetHeight that last stored the height; no channel is closed twice; none is closed by a SetHeight below it; and a
      Wait that returns because its channel closed was woken by a SetHeight at or above its height. */
  lemma {:induction false} NoWakeupLost(h0: nat, ss: seq<State>, i: nat)
    requires IsRun(h0, ss) && i < |ss|
    ensures forall ch :: ch in ss[i].waiters && ss[i].waiters[ch] <= ss[i].height ==> NotifyPending(ss[i])
    ensures forall a, b :: 0 <= a < b < |ss[i].closings| ==> ss[i].closings[a].ch != ss[i].closings[b].ch
    ensures forall a :: 0 <= a < |ss[i].closings| ==> ss[i].closings[a].w <= ss[i].closings[a].setBy
    ensures forall t :: t in ss[i].threads && ss[i].threads[t].Woken? ==>
              ClosedFor(ss[i], ss[i].threads[t].w, ss[i].threads[t].ch)
  {
    RunInv(h0, ss, i);
  }

  /** The pending notify does wake: once the last storer has notified, no waiting call at or below the height is left
      with an open channel. */
  lemma NotifyWakes(s: State, cs: seq<Closing>, s': State, t: Tid)
    requires Inv(s) && s.lastStorer.Some? && Next(s, Advance(s.lastStorer.value), cs, s')
    requires t in s'.threads && s'.threads[t].Waiting? && s'.threads[t].w <= s'.height
    ensures IsClosed(s', s'.threads[t].ch)
  {
    StepKeeps(s, Advance(s.lastStorer.value), cs, s');
    var w, ch := s'.threads[t].w, s'.threads[t].ch;
    assert Registered(s', w, ch) ==> NotifyPending(s');
    assert ClosedFor(s', w, ch);
    var i :| 0 <= i < |s'.closings| && s'.closings[i].ch == ch && s'.closings[i].w == w <= s'.closings[i].setBy;
  }

  // ---------------------------------------------------------------- what a return means

  /** The height was at least `w` at some moment of the run up to `i`. */
  predicate Reached(ss: seq<State>, i: nat, w: nat)
    requires i < |ss|
  {
    exists j :: 0 <= j <= i && ss[j].height >= w
  }

  /** The height was `h` at some moment of the run up to `i`. */
  predicate WasStored(ss: seq<State>, i: nat, h: nat)
    requires i < |ss|
  {
    exists j :: 0 <= j <= i && ss[j].height == h
  }

  lemma {:induction false} StillReached(ss: seq<State>, i: nat, w: nat)
    requires 0 < i < |ss| && Reached(ss, i - 1, w)
    ensures Reached(ss, i, w)
  {
  }

  /** A Wait that returns because the height is already reached does so only when it was, and a SetHeight that has
      passed its store has stored its height. */
  lemma {:induction false} ReturnsMean(h0: nat, ss: seq<State>, i: nat, t: Tid)
    requires IsRun(h0, ss) && i < |ss| && t in ss[i].threads
    ensures ss[i].threads[t].Elapsed? ==> Reached(ss, i, ss[i].threads[t].w)
    ensures ss[i].threads[t].Notifying? || ss[i].threads[t].Notified? ==> WasStored(ss, i, ss[i].threads[t].h)
  {
    if i > 0 {
      var e, cs :| Next(ss[i - 1], e, cs, ss[i]);
      if t in ss[i - 1].threads {
        ReturnsMean(h0, ss, i - 1, t);
        if ss[i - 1].threads[t] == ss[i].threads[t] && ss[i].threads[t].Elapsed? {
          StillReached(ss, i, ss[i].threads[t].w);
        }
      }
    }
  }

  /** Some SetHeight of the run has stored `h`. */
  ghost predicate StoredBy(s: State, h: nat) {
    exists t :: t in s.threads && (s.threads[t] == Notifying(h) || s.threads[t] == Notified(h))
  }

  /** The height of a state is the first one, or one that a SetHeight has stored. */
  lemma {:induction false} HeightWasSet(h0: nat, ss: seq<State>, i: nat)
    requires IsRun(h0, ss) && i < |ss|
    ensures ss[i].height == h0 || StoredBy(ss[i], ss[i].height)
  {
    if i > 0 {
      HeightWasSet(h0, ss, i - 1);
      var e, cs :| Next(ss[i - 1], e, cs, ss[i]);
      if ss[i].height != h0 {
        if e.Advance? && ss[i - 1].threads[e.t].Storing? {
          assert ss[i].threads[e.t] == Notifying(ss[i].height);
        } else {
          var t :| t in ss[i - 1].threads && (ss[i - 1].threads[t] == Notifying(ss[i].height)
                                              || ss[i - 1].threads[t] == Notified(ss[i].height));
          assert ss[i].threads[t] == Notifying(ss[i].height) || ss[i].threads[t] == Notified(ss[i].height);
        }
      }
    }
  }

  // ---------------------------------------------------------------- no waiter is left behind, no call is stuck

  /** The registered waiter `ch` belongs to a call that still waits. */
  predicate Owned(s: State, ch: Chan)
    requires ch in s.waiters
  {
    exists t :: t in s.threads && Owns(s.threads[t], ch, s.waiters[ch])
  }

  /** Every registered waiter belongs to a waiting call, and the lock to the call that registers. */
  ghost predicate NoLeak(s: State) {
    && (forall ch :: ch in s.waiters ==> Owned(s, ch))
    && (s.lock.Some? ==> s.lock.value in s.threads && HoldsLock(s.threads[s.lock.value]))
  }

  predicate Owns(th: Thread, ch: Chan, w: nat) {
    th == Waiting(w, ch) || th == Cancelling(w, ch)
  }

  /** A call goes on waiting through every step that leaves its channel registered. */
  lemma {:induction false} OwnerStays(s: State, e: Event, cs: seq<Closing>, s': State, t: Tid, ch: Chan, w: nat)
    requires Next(s, e, cs, s') && t in s.threads && Owns(s.threads[t], ch, w) && ch in s'.waiters && !IsClosed(s, ch)
    ensures t in s'.threads && Owns(s'.threads[t], ch, w)
  {
  }

  lemma {:induction false} WaiterFrom(s: State, e: Event, cs: seq<Closing>, s': State, ch: Chan)
    requires Next(s, e, cs, s') && ch in s'.waiters && ch < s.next
    ensures ch in s.waiters && s'.waiters[ch] == s.waiters[ch]
  {
  }

  lemma {:induction false} NewWaiter(s: State, e: Event, cs: seq<Closing>, s': State, ch: Chan)
    requires ChansOk(s) && Next(s, e, cs, s') && ch in s'.waiters && ch !in s.waiters
    ensures e.Advance? && e.t in s'.threads && s'.threads[e.t] == Waiting(s'.waiters[ch], ch)
  {
  }

  lemma {:induction false} LockStays(s: State, e: Event, cs: seq<Closing>, s': State)
    requires Next(s, e, cs, s') && (s.lock.Some? ==> s.lock.value in s.threads && HoldsLock(s.threads[s.lock.value]))
    ensures s'.lock.Some? ==> s'.lock.value in s'.threads && HoldsLock(s'.threads[s'.lock.value])
  {
  }

  lemma {:induction false} LeakStep(s: State, e: Event, cs: seq<Closing>, s': State)
    requires Inv(s) && NoLeak(s) && Next(s, e, cs, s')
    ensures NoLeak(s')
  {
    forall ch | ch in s'.waiters ensures Owned(s', ch) {
      if ch in s.waiters {
        WaiterFrom(s, e, cs, s', ch);
        var t :| t in s.threads && Owns(s.threads[t], ch, s.waiters[ch]);
        OwnerStays(s, e, cs, s', t, ch, s.waiters[ch]);
      } else {
        NewWaiter(s, e, cs, s', ch);
      }
    }
    LockStays(s, e, cs, s');
  }

  lemma {:induction false} AnyLeakStep(s: State, s': State)
    requires Inv(s) && NoLeak(s) && Steps(s, s')
    ensures NoLeak(s')
  {
    var e, cs :| Next(s, e, cs, s');
    LeakStep(s, e, cs, s');
  }

  lemma {:induction false} NeverLeaks(h0: nat, ss: seq<State>, i: nat)
    requires IsRun(h0, ss) && i < |ss|
    ensures NoLeak(ss[i])
  {
    if i > 0 {
      NeverLeaks(h0, ss, i - 1);
      RunInv(h0, ss, i - 1);
      assert Steps(ss[i - 1], ss[i]);
      AnyLeakStep(ss[i - 1], ss[i]);
    }
  }

  /** In every run each registered waiter belongs to a call that still waits: a call that has returned, woken or
      cancelled, has left nothing in the table. */
  lemma {:induction false} NoWaiterLeaks(h0: nat, ss: seq<State>, i: nat, t: Tid)
    requires IsRun(h0, ss) && i < |ss|
    ensures NoLeak(ss[i])
    ensures t in ss[i].threads && (ss[i].threads[t].Woken? || ss[i].threads[t].Cancelled?) ==>
              ss[i].threads[t].ch !in ss[i].waiters
  {
    NeverLeaks(h0, ss, i);
    RunInv(h0, ss, i);
  }

  predicate Returned(th: Thread) {
    th.Notified? || th.Elapsed? || th.Woken? || th.Cancelled?
  }

  ghost predicate CanAdvance(s: State, t: Tid) {
    exists cs, s' :: Next(s, Advance(t), cs, s')
  }

  /** The closings of a notify always exist. */
  lemma {:induction false} ClosingsExist(ws: map<Chan, nat>, h: nat, todo: set<Chan>) returns (cs: seq<Closing>)
    requires todo <= ws.Keys
    ensures forall i :: 0 <= i < |cs| ==> cs[i].ch in todo && cs[i].w == ws[cs[i].ch] <= h && cs[i].setBy == h
    ensures forall i, j :: 0 <= i < j < |cs| ==> cs[i].ch != cs[j].ch
    ensures forall ch :: ch in todo && ws[ch] <= h ==> exists i :: 0 <= i < |cs| && cs[i].ch == ch
    decreases |todo|
  {
    if todo == {} {
      cs := [];
    } else {
      var ch :| ch in todo;
      var rest := ClosingsExist(ws, h, todo - {ch});
      cs := if ws[ch] <= h then rest + [Closing(ch, ws[ch], h)] else rest;
      forall c | c in todo && ws[c] <= h ensures exists i :: 0 <= i < |cs| && cs[i].ch == c {
        if c == ch {
          assert cs[|rest|].ch == c;
        } else {
          var i :| 0 <= i < |rest| && rest[i].ch == c;
          assert cs[i].ch == c;
        }
      }
    }
  }

  lemma {:induction false} NotifyAdvances(s: State, t: Tid, h: nat)
    requires t in s.threads && s.threads[t] == Notifying(h) && s.lock.None?
    ensures CanAdvance(s, t)
  {
    var cs := ClosingsExist(s.waiters, h, s.waiters.Keys);
    assert ClosesAll(s.waiters, h, cs);
    var s' := s.(waiters := NotifyUpTo(s.waiters, h), closings := s.closings + cs,
                 threads := s.threads[t := Notified(h)]);
    assert Next(s, Advance(t), cs, s');
  }

  lemma {:induction false} FreeAdvances(s: State, t: Tid)
    requires t in s.threads && !Returned(s.threads[t])
    requires s.lock.None? || HoldsLock(s.threads[t])
    requires s.threads[t].Waiting? ==> IsClosed(s, s.threads[t].ch)
    ensures CanAdvance(s, t)
  {
    match s.threads[t]
    case Storing(h) =>
      var s' := s.(height := h, lastStorer := Some(t), threads := s.threads[t := Notifying(h)]);
      assert Next(s, Advance(t), [], s');
    case Notifying(h) => NotifyAdvances(s, t, h);
    case Checking(w) =>
      var s' := s.(threads := s.threads[t := if s.height >= w then Elapsed(w) else Locking(w)]);
      assert Next(s, Advance(t), [], s');
    case Locking(w) =>
      var s' := s.(lock := Some(t), threads := s.threads[t := Locked(w)]);
      assert Next(s, Advance(t), [], s');
    case Locked(w) =>
      var s' := if s.height >= w then s.(lock := None, threads := s.threads[t := Elapsed(w)])
                else s.(threads := s.threads[t := Registering(w)]);
      assert Next(s, Advance(t), [], s');
    case Registering(w) =>
      var s' := s.(lock := None, waiters := s.waiters[s.next := w], next := s.next + 1,
                   threads := s.threads[t := Waiting(w, s.next)]);
      assert Next(s, Advance(t), [], s');
    case Waiting(w, ch) =>
      var s' := s.(threads := s.threads[t := Woken(w, ch)]);
      assert Next(s, Advance(t), [], s');
    case Cancelling(w, ch) =>
      var s' := s.(waiters := s.waiters - {ch}, threads := s.threads[t := Cancelled(w, ch)]);
      assert Next(s, Advance(t), [], s');
  }

  /** In every run the call that holds the lock can go on, and when the lock is free so can every call that has not
      returned, except a Wait whose channel is open. */
  lemma {:induction false} NoCallIsStuck(h0: nat, ss: seq<State>, i: nat, t: Tid)
    requires IsRun(h0, ss) && i < |ss| && t in ss[i].threads
    requires !Returned(ss[i].threads[t])
    requires ss[i].threads[t].Waiting? ==> IsClosed(ss[i], ss[i].threads[t].ch)
    ensures ss[i].lock.None? ==> CanAdvance(ss[i], t)
    ensures ss[i].lock.Some? ==> CanAdvance(ss[i], ss[i].lock.value)
  {
    NoWaiterLeaks(h0, ss, i, t);
    if ss[i].lock.None? {
      FreeAdvances(ss[i], t);
    } else {
      FreeAdvances(ss[i], ss[i].lock.value);
    }
  }

  // ---------------------------------------------------------------- the waiter table

  predicate Distinct(chs: seq<Chan>) {
    forall i, j :: 0 <= i < j < |chs| ==> chs[i] != chs[j]
  }

  /** `ws` gives for each registered channel its height. */
  ghost predicate Tabulates(table: map<nat, seq<Chan>>, ws: map<Chan, nat>) {
    && (forall h :: h in table ==> table[h] != [] && Distinct(table[h]))
    && (forall h, ch :: h in table && ch in table[h] ==> ch in ws && ws[ch] == h)
    && (forall ch :: ch in ws ==> ws[ch] in table && ch in table[ws[ch]])
  }

  /** The heights-to-channels map that the lock protects. */
  class Table {
    var heightChs: map<nat, seq<Chan>>
    var closings: seq<Closing>
    ghost var waiters: map<Chan, nat>

    ghost predicate Valid()
      reads this
    {
      Tabulates(heightChs, waiters)
    }

    constructor ()
      ensures Valid() && waiters == map[] && closings == []
    {
      heightChs, closings, waiters := map[], [], map[];
    }

    method Register(w: nat, ch: Chan)
      requires Valid() && ch !in waiters
      modifies this`heightChs, this`waiters
      ensures Valid() && waiters == old(waiters)[ch := w]
    {
      var chs := if w in heightChs then heightChs[w] else [];
      assert ch !in chs;
      heightChs := heightChs[w := chs + [ch]];
      waiters := waiters[ch := w];
    }

    /** Closes and forgets every waiter at or below `h`. */
    method NotifyAllUpTo(h: nat)
      requires Valid()
      modifies this
      ensures Valid() && waiters == NotifyUpTo(old(waiters), h)
      ensures old(closings) <= closings && ClosesAll(old(waiters), h, closings[|old(closings)|..])
    {
      ghost var table := heightChs;
      var cs;
      heightChs, cs := CloseUpTo(heightChs, h, waiters);
      NotifyTable(table, waiters, h, cs);
      closings := closings + cs;
      waiters := NotifyUpTo(waiters, h);
      assert closings[|old(closings)|..] == cs;
    }

    /** Unregisters one channel, if it is still registered for this height. */
    method RemoveWaiter(w: nat, target: Chan)
      requires Valid()
      modifies this`heightChs, this`waiters
      ensures Valid()
      ensures waiters == if target in old(waiters) && old(waiters)[target] == w then old(waiters) - {target}
                         else old(waiters)
    {
      if w !in heightChs {
        return;
      }
      var chs := heightChs[w];
      for i := 0 to |chs|
        invariant heightChs == old(heightChs) && waiters == old(waiters)
        invariant target !in chs[..i]
      {
        if chs[i] == target {
          var rest := chs[..i] + chs[i + 1..];
          RemoveTable(heightChs, waiters, w, i);
          if rest == [] {
            heightChs := heightChs - {w};
          } else {
            heightChs := heightChs[w := rest];
          }
          waiters := waiters - {target};
          return;
        }
      }
    }
  }

  lemma RemoveTable(table: map<nat, seq<Chan>>, ws: map<Chan, nat>, w: nat, i: nat)
    requires Tabulates(table, ws) && w in table && i < |table[w]|
    ensures var rest := table[w][..i] + table[w][i + 1..];
            && table[w][i] in ws && ws[table[w][i]] == w
            && Tabulates(if rest == [] then table - {w} else table[w := rest], ws - {table[w][i]})
  {
    var chs := table[w];
    var rest := chs[..i] + chs[i + 1..];
    assert chs[i] in chs;
    forall ch ensures ch in rest <==> ch in chs && ch != chs[i] {
      if ch in chs && ch != chs[i] {
        var j :| 0 <= j < |chs| && chs[j] == ch;
        assert rest[if j < i then j else j - 1] == ch;
      }
      if ch in rest {
        var j :| 0 <= j < |rest| && rest[j] == ch;
        assert chs[if j < i then j else j + 1] == ch;
      }
    }
  }

  /** The double loop of notifyUpTo: what stays in the table, and the closings in the order they happen. */
  method CloseUpTo(table: map<nat, seq<Chan>>, h: nat, ghost ws: map<Chan, nat>)
    returns (rest: map<nat, seq<Chan>>, cs: seq<Closing>)
    requires Tabulates(table, ws)
    ensures rest == map k | k in table && k > h :: table[k]
    ensures forall i :: 0 <= i < |cs| ==> ClosedFrom(table, h, {}, cs[i])
    ensures Distinct(Chans(cs))
    ensures forall k, ch :: k in table && k <= h && ch in table[k] ==> ch in Chans(cs)
  {
    rest, cs := table, [];
    var todo := table.Keys;
    while todo != {}
      invariant todo <= table.Keys
      invariant forall k :: k in rest <==> k in table && (k in todo || k > h)
      invariant forall k :: k in rest ==> rest[k] == table[k]
      invariant forall i :: 0 <= i < |cs| ==> ClosedFrom(table, h, todo, cs[i])
      invariant Distinct(Chans(cs))
      invariant forall k, ch :: k in table && k !in todo && k <= h && ch in table[k] ==> ch in Chans(cs)
      decreases |todo|
    {
      var k :| k in todo;
      if k <= h {
        var more := CloseAll(rest[k], k, h);
        JoinDistinct(table, ws, h, todo, k, cs, more);
        cs := cs + more;
        rest := rest - {k};
      }
      todo := todo - {k};
    }
  }

  /** The channels of a list of closings. */
  function Chans(cs: seq<Closing>): (r: seq<Chan>)
    ensures |r| == |cs| && forall i :: 0 <= i < |cs| ==> r[i] == cs[i].ch
  {
    seq(|cs|, i requires 0 <= i < |cs| => cs[i].ch)
  }

  predicate ClosedFrom(table: map<nat, seq<Chan>>, h: nat, todo: set<nat>, c: Closing) {
    c.w in table && c.w !in todo && c.w <= h && c.setBy == h && c.ch in table[c.w]
  }

  method CloseAll(chs: seq<Chan>, w: nat, h: nat) returns (cs: seq<Closing>)
    ensures Chans(cs) == chs
    ensures forall i :: 0 <= i < |cs| ==> cs[i] == Closing(chs[i], w, h)
  {
    cs := [];
    for i := 0 to |chs|
      invariant |cs| == i
      invariant forall k :: 0 <= k < i ==> cs[k] == Closing(chs[k], w, h)
    {
      cs := cs + [Closing(chs[i], w, h)];
    }
  }

  lemma JoinDistinct(table: map<nat, seq<Chan>>, ws: map<Chan, nat>, h: nat, todo: set<nat>, k: nat,
                     cs: seq<Closing>, more: seq<Closing>)
    requires Tabulates(table, ws) && k in table && k in todo && k <= h
    requires forall i :: 0 <= i < |cs| ==> ClosedFrom(table, h, todo, cs[i])
    requires Distinct(Chans(cs)) && Chans(more) == table[k]
    ensures Distinct(Chans(cs + more)) && Chans(cs + more) == Chans(cs) + Chans(more)
  {
    assert Chans(cs + more) == Chans(cs) + Chans(more);
    forall i, j | 0 <= i < |cs| && 0 <= j < |more| ensures Chans(cs)[i] != Chans(more)[j] {
      assert ClosedFrom(table, h, todo, cs[i]);
      var ch := cs[i].ch;
      assert ch in table[cs[i].w] && ws[ch] == cs[i].w != k;
      assert Chans(more)[j] in table[k];
    }
  }

  lemma NotifyTable(table: map<nat, seq<Chan>>, ws: map<Chan, nat>, h: nat, cs: seq<Closing>)
    requires Tabulates(table, ws)
    requires forall i :: 0 <= i < |cs| ==> ClosedFrom(table, h, {}, cs[i])
    requires Distinct(Chans(cs))
    requires forall k, ch :: k in table && k <= h && ch in table[k] ==> ch in Chans(cs)
    ensures Tabulates(map k | k in table && k > h :: table[k], NotifyUpTo(ws, h))
    ensures ClosesAll(ws, h, cs)
  {
    forall i, j | 0 <= i < j < |cs| ensures cs[i].ch != cs[j].ch {
      assert Chans(cs)[i] != Chans(cs)[j];
    }
    forall ch | ch in ws && ws[ch] <= h ensures exists i :: 0 <= i < |cs| && cs[i].ch == ch {
      assert ch in table[ws[ch]];
      assert ch in Chans(cs);
      var i :| 0 <= i < |Chans(cs)| && Chans(cs)[i] == ch;
      assert cs[i].ch == ch;
    }
  }
}
