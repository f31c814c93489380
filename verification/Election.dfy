/** The election loop that starts and stops leader and follower workers on raft notifications. */
module Election {
  import opened Common

  datatype Role = Leader | Follower

  /** IsSynced against a raft state: local height minus raft height, or an error. */
  datatype Sync = Diff(d: int) | SyncError

  /** What the select of the loop can receive. */
  datatype Notice = Gained | LostRole | Ticked | Ended | Failed | Closed

  /** What the loop does, as seen from outside. A raft state is named by a number. */
  datatype Act =
    | Notified(n: Notice)   // a new event is taken from the select
    | Landed                // the committed log has been applied
    | GotState(s: nat)      // the raft state was read
    | Checked(s: nat, sync: Sync)
    | Recovered(s: nat)
    | Started(role: Role)
    | Exited                // a worker goroutine has ended

  // ---------------------------------------------------------------- the safety monitor

  /** What is known after a list of actions; `safe` turns false at the first violation. */
  datatype Monitor = Monitor(
    alive: nat, leaderRan: bool, followerRan: bool,
    landed: bool, state: Option<nat>, check: Option<Sync>, recovered: bool, safe: bool)

  const QUIET := Monitor(0, false, false, false, None, None, false, true)

  /** A leader may start: no worker alive, the log landed for this event, and, if a follower ran before, the raft state
      just read was found in sync or recovered. */
  predicate LeaderMayStart(m: Monitor) {
    && m.alive == 0 && m.landed
    && (m.followerRan ==> m.state.Some? && (m.check == Some(Diff(0)) || m.recovered))
  }

  /** A follower may start: no worker alive, no leader before it in this run, and local blocks ahead of the raft state,
      or an unreadable sync state, have been recovered. */
  predicate FollowerMayStart(m: Monitor) {
    && m.alive == 0 && !m.leaderRan
    && (m.check.Some? && (m.check.value.SyncError? || m.check.value.d > 0) ==> m.recovered)
  }

  function Observe(m: Monitor, a: Act): Monitor {
    match a
    case Notified(_) => m.(landed := false, state := None, check := None, recovered := false)
    case Landed => m.(landed := true)
    case GotState(s) => m.(state := Some(s), check := None, recovered := false)
    case Checked(s, sync) => m.(check := Some(sync), safe := m.safe && m.state == Some(s))
    case Recovered(s) => m.(recovered := true, safe := m.safe && m.state == Some(s))
    case Started(Leader) => m.(alive := m.alive + 1, leaderRan := true, safe := m.safe && LeaderMayStart(m))
    case Started(Follower) => m.(alive := m.alive + 1, followerRan := true, safe := m.safe && FollowerMayStart(m))
    case Exited => if m.alive > 0 then m.(alive := m.alive - 1) else m.(safe := false)
  }

  function Watch(trace: seq<Act>): Monitor {
    if trace == [] then QUIET else Observe(Watch(trace[..|trace| - 1]), trace[|trace| - 1])
  }

  lemma {:induction false} WatchSnoc(trace: seq<Act>, a: Act)
    ensures Watch(trace + [a]) == Observe(Watch(trace), a)
  {
    assert (trace + [a])[..|trace|] == trace;
  }

  lemma {:induction false} SafeBefore(m: Monitor, a: Act)
    requires Observe(m, a).safe
    ensures m.safe
  {
  }

  lemma {:induction false} SafePrefix(trace: seq<Act>, i: nat)
    requires i <= |trace| && Watch(trace).safe
    ensures Watch(trace[..i]).safe
    decreases |trace|
  {
    if i == |trace| {
      assert trace[..i] == trace;
    } else {
      var init := trace[..|trace| - 1];
      SafeBefore(Watch(init), trace[|trace| - 1]);
      SafePrefix(init, i);
      assert init[..i] == trace[..i];
    }
  }

  /** Workers started and not yet ended. */
  function Alive(trace: seq<Act>): int {
    if trace == [] then 0
    else
      var last := trace[|trace| - 1];
      Alive(trace[..|trace| - 1]) + (if last.Started? then 1 else if last.Exited? then -1 else 0)
  }

  lemma {:induction false} SafeStep(m: Monitor, a: Act)
    requires Observe(m, a).safe && m.alive <= 1
    ensures m.safe && Observe(m, a).alive <= 1
    ensures Observe(m, a).alive == m.alive + (if a.Started? then 1 else if a.Exited? then -1 else 0)
    ensures Observe(m, a).leaderRan <==> m.leaderRan || a == Started(Leader)
    ensures Observe(m, a).followerRan <==> m.followerRan || a == Started(Follower)
  {
  }

  lemma {:induction false} MonitorCounts(trace: seq<Act>)
    requires Watch(trace).safe
    ensures Watch(trace).alive == Alive(trace) <= 1
    ensures Watch(trace).leaderRan <==> Started(Leader) in trace
    ensures Watch(trace).followerRan <==> Started(Follower) in trace
  {
    if trace != [] {
      var init, last := trace[..|trace| - 1], trace[|trace| - 1];
      SafePrefix(trace, |trace| - 1);
      MonitorCounts(init);
      SafeStep(Watch(init), last);
      assert trace == init + [last];
    }
  }

  lemma {:induction false} LandedSince(trace: seq<Act>)
    ensures Watch(trace).landed ==>
              exists j :: 0 <= j < |trace| && trace[j] == Landed && forall k :: j < k < |trace| ==> !trace[k].Notified?
  {
    if trace != [] {
      var n := |trace| - 1;
      LandedSince(trace[..n]);
      if Watch(trace).landed {
        if trace[n] != Landed {
          var j :| 0 <= j < n && trace[..n][j] == Landed && forall k :: j < k < n ==> !trace[..n][k].Notified?;
          assert trace[j] == Landed;
          forall k | j < k < |trace| ensures !trace[k].Notified? {
            assert k < n ==> trace[..n][k] == trace[k];
          }
        }
      }
    }
  }

  predicate Clears(a: Act, s: nat) {
    a == Checked(s, Diff(0)) || a == Recovered(s)
  }

  predicate Cleared(m: Monitor) {
    m.state.Some? && (m.check == Some(Diff(0)) || m.recovered)
  }

  /** A cleared state was found in sync or recovered after it was last read, within the same event. */
  lemma {:induction false} ClearedSince(trace: seq<Act>)
    requires Watch(trace).safe && Cleared(Watch(trace))
    ensures exists j :: 0 <= j < |trace| && Clears(trace[j], Watch(trace).state.value) &&
                        forall k :: j < k < |trace| ==> !trace[k].Notified? && !trace[k].GotState?
  {
    var n := |trace| - 1;
    var init, m := trace[..n], Watch(trace);
    SafePrefix(trace, n);
    if !Clears(trace[n], m.state.value) {
      assert Cleared(Watch(init)) && Watch(init).state == m.state;
      ClearedSince(init);
      var j :| 0 <= j < n && Clears(init[j], m.state.value) &&
           forall k :: j < k < n ==> !init[k].Notified? && !init[k].GotState?;
      assert Clears(trace[j], m.state.value);
      forall k | j < k < |trace| ensures !trace[k].Notified? && !trace[k].GotState? {
        assert k < n ==> init[k] == trace[k];
      }
    }
  }

  lemma {:induction false} StateKept(m: Monitor, a: Act)
    requires Observe(m, a).state.Some? && !a.GotState?
    ensures m.state == Observe(m, a).state && !a.Notified?
  {
  }

  /** The state a monitor knows was read last, within the same event. */
  lemma {:induction false} StateSince(trace: seq<Act>) returns (g: nat)
    requires Watch(trace).state.Some?
    ensures g < |trace| && trace[g] == GotState(Watch(trace).state.value)
    ensures forall k :: g < k < |trace| ==> !trace[k].Notified? && !trace[k].GotState?
  {
    g := |trace| - 1;
    if !trace[g].GotState? {
      var init, last := trace[..g], trace[g];
      StateKept(Watch(init), last);
      g := StateSince(init);
      assert trace == init + [last];
    }
  }

  /** The raft state `s` was read at `g`, found in sync or recovered at `j`, and nothing was read or notified since. */
  ghost predicate ClearedState(trace: seq<Act>, g: nat, j: nat, s: nat) {
    && g < j < |trace| && trace[g] == GotState(s) && Clears(trace[j], s)
    && forall k :: g < k < |trace| ==> !trace[k].Notified? && !trace[k].GotState?
  }

  lemma {:induction false} ClearedWasRead(trace: seq<Act>) returns (g: nat, j: nat)
    requires Watch(trace).safe && Cleared(Watch(trace))
    ensures ClearedState(trace, g, j, Watch(trace).state.value)
  {
    var s := Watch(trace).state.value;
    g := StateSince(trace);
    ClearedSince(trace);
    j :| j < |trace| && Clears(trace[j], s) &&
         forall k :: j < k < |trace| ==> !trace[k].Notified? && !trace[k].GotState?;
  }

  /** The notice ends the loop: leadership lost after a leader ran, a worker that failed, or the end of the context. */
  predicate Ends(n: Notice, leaderRan: bool) {
    n.Failed? || n.Closed? || (n.LostRole? && leaderRan)
  }

  /** Where the loop stands: it runs, it is over and only workers end, or something happened after its end. */
  datatype Phase = Running | Over | Overrun

  function PhaseOf(trace: seq<Act>): Phase {
    if trace == [] then Running
    else
      var init, last := trace[..|trace| - 1], trace[|trace| - 1];
      match PhaseOf(init)
      case Running => if last.Notified? && Ends(last.n, Started(Leader) in init) then Over else Running
      case Over => if last.Exited? then Over else Overrun
      case Overrun => Overrun
  }

  lemma {:induction false} PhaseSnoc(trace: seq<Act>, a: Act)
    ensures PhaseOf(trace + [a]) ==
            match PhaseOf(trace)
            case Running => if a.Notified? && Ends(a.n, Started(Leader) in trace) then Over else Running
            case Over => if a.Exited? then Over else Overrun
            case Overrun => Overrun
  {
    assert (trace + [a])[..|trace|] == trace;
  }

  lemma {:induction false} OverStays(trace: seq<Act>, i: nat)
    requires i <= |trace| && !PhaseOf(trace[..i]).Running? && !PhaseOf(trace).Overrun?
    ensures forall k :: i <= k < |trace| ==> trace[k] == Exited
    ensures PhaseOf(trace).Over?
    decreases |trace|
  {
    if i == |trace| {
      assert trace[..i] == trace;
    } else {
      var n := |trace| - 1;
      var init := trace[..n];
      assert init[..i] == trace[..i] && trace == init + [trace[n]];
      OverStays(init, i);
    }
  }

  /** Nothing but the end of workers follows a notice that ends the loop: leadership lost after a leader has run, a
      worker that failed, or the end of the context. */
  lemma {:induction false} OverMeans(trace: seq<Act>, i: nat)
    requires !PhaseOf(trace).Overrun? && i < |trace|
    requires || (trace[i] == Notified(LostRole) && Started(Leader) in trace[..i])
             || trace[i] == Notified(Failed) || trace[i] == Notified(Closed)
    ensures forall k :: i < k < |trace| ==> trace[k] == Exited
  {
    assert trace[..i + 1] == trace[..i] + [trace[i]];
    PhaseSnoc(trace[..i], trace[i]);
    OverStays(trace, i + 1);
  }

  /** What a safe trace means: at most one worker is ever alive; no follower starts after a leader; a leader starts only
      after the committed log has landed within the same event and, if a follower ran before, after the raft state last
      read was found in sync or recovered. */
  lemma {:induction false} SafeMeans(trace: seq<Act>, i: nat)
    requires Watch(trace).safe && i < |trace|
    ensures Alive(trace[..i]) <= 1
    ensures trace[i] == Started(Follower) ==> Started(Leader) !in trace[..i] && Alive(trace[..i]) == 0
    ensures trace[i] == Started(Leader) ==>
              && Alive(trace[..i]) == 0
              && exists j :: 0 <= j < i && trace[j] == Landed && forall k :: j < k < i ==> !trace[k].Notified?
    ensures trace[i] == Started(Leader) && Started(Follower) in trace[..i] ==>
              exists g, j, s :: ClearedState(trace[..i], g, j, s)
  {
    SafePrefix(trace, i);
    SafePrefix(trace, i + 1);
    var before := trace[..i];
    MonitorCounts(before);
    assert trace[..i + 1] == before + [trace[i]];
    WatchSnoc(before, trace[i]);
    if trace[i] == Started(Leader) {
      LandedSince(before);
      var j :| 0 <= j < i && before[j] == Landed && forall k :: j < k < i ==> !before[k].Notified?;
      assert trace[j] == Landed;
      forall k | j < k < i ensures !trace[k].Notified? {
        assert before[k] == trace[k];
      }
      if Started(Follower) in before {
        var g, c := ClearedWasRead(before);
      }
    }
  }

  // ---------------------------------------------------------------- waiting for the block store

  datatype SyncResult = Synced | Timeout | LostLeadership | Canceled

  /** One turn of the wait loop. */
  datatype Poll = ContextDone | Deadline(sync: Sync) | Tick(isLeader: bool, sync: Sync)

  predicate Near(sync: Sync) {
    sync.Diff? && sync.d >= -1
  }

  /** The first poll that decides; a script that ends is a canceled wait. */
  function WaitResult(polls: seq<Poll>): SyncResult {
    if polls == [] then Canceled
    else match polls[0]
      case ContextDone => Canceled
      case Deadline(sync) => if Near(sync) then Synced else Timeout
      case Tick(isLeader, sync) =>
        if !isLeader then LostLeadership else if Near(sync) then Synced else WaitResult(polls[1..])
  }

  /** A poll that ends the wait. */
  predicate Decides(p: Poll) {
    p.ContextDone? || p.Deadline? || !p.isLeader || (p.sync.Diff? && -1 <= p.sync.d)
  }

  /** The wait is decided by the first deciding poll: canceled by the context, lost with the leadership, synced within
      one block of the raft state, and timed out only at the deadline. */
  lemma {:induction false} WaitExactly(polls: seq<Poll>, i: nat)
    requires i < |polls| && Decides(polls[i]) && forall j :: 0 <= j < i ==> !Decides(polls[j])
    ensures var near := !polls[i].ContextDone? && polls[i].sync.Diff? && -1 <= polls[i].sync.d;
            && (WaitResult(polls).Canceled? <==> polls[i].ContextDone?)
            && (WaitResult(polls).LostLeadership? <==> polls[i].Tick? && !polls[i].isLeader)
            && (WaitResult(polls).Timeout? <==> polls[i].Deadline? && !near)
            && (WaitResult(polls).Synced? <==> near && (polls[i].Deadline? || polls[i].isLeader))
    decreases i
  {
    if i > 0 {
      assert !Decides(polls[0]);
      WaitExactly(polls[1..], i - 1);
    }
  }

  /** Synced is answered only on a check within one block of the raft state. */
  method WaitForBlockStoreSync(polls: seq<Poll>) returns (r: SyncResult)
    ensures r == WaitResult(polls)
    ensures r.Synced? ==> exists i :: 0 <= i < |polls| && !polls[i].ContextDone? && Near(polls[i].sync)
  {
    for i := 0 to |polls|
      invariant WaitResult(polls) == WaitResult(polls[i..])
    {
      assert polls[i..][1..] == polls[i + 1..];
      match polls[i] {
        case ContextDone => return Canceled;
        case Deadline(sync) =>
          if Near(sync) {
            return Synced;
          }
          return Timeout;
        case Tick(isLeader, sync) =>
          if !isLeader {
            return LostLeadership;
          }
          if Near(sync) {
            return Synced;
          }
      }
    }
    return Canceled;
  }

  // ---------------------------------------------------------------- the loop

  /** The answers the node and the workers give to a new leader. */
  datatype LeaderEnv = LeaderEnv(
    landed: bool, stillLeader: bool, state: nat, sync: Sync, polls: seq<Poll>, transferred: bool,
    state2: nat, sync2: Sync, recovered: bool, factory: bool)

  /** One turn of the wait for a raft state; state 0 stands for none, or one at height 0. */
  datatype StatePoll = NoContext | NoTime | Seen(state: nat)

  /** A state to verify against, none before the deadline, or a canceled wait. */
  datatype FirstState = First(state: nat) | NoneYet | Stopped

  function FirstSeen(state: nat, polls: seq<StatePoll>): FirstState
    decreases |polls|
  {
    if state != 0 then First(state)
    else if polls == [] || polls[0].NoContext? then Stopped
    else if polls[0].NoTime? then NoneYet
    else FirstSeen(polls[0].state, polls[1..])
  }

  /** The wait for a raft state is decided by the first poll that is not a state at height 0. */
  lemma {:induction false} FirstSeenExactly(polls: seq<StatePoll>, i: nat)
    requires i < |polls| && polls[i] != Seen(0) && forall j :: 0 <= j < i ==> polls[j] == Seen(0)
    ensures FirstSeen(0, polls) == match polls[i]
                                   case NoContext => Stopped
                                   case NoTime => NoneYet
                                   case Seen(s) => First(s)
    decreases i
  {
    if i > 0 {
      assert polls[0] == Seen(0);
      FirstSeenExactly(polls[1..], i - 1);
    }
  }

  /** The wait returns the first state above height 0, and gives up only at the deadline or when canceled. */
  method WaitForState(state: nat, polls: seq<StatePoll>) returns (r: FirstState)
    ensures r == FirstSeen(state, polls)
    ensures r.First? ==> r.state != 0 && (r.state == state || Seen(r.state) in polls)
  {
    var raftState := state;
    for i := 0 to |polls|
      invariant FirstSeen(state, polls) == FirstSeen(raftState, polls[i..])
      invariant raftState != 0 ==> raftState == state || Seen(raftState) in polls
    {
      if raftState != 0 {
        return First(raftState);
      }
      assert polls[i..][1..] == polls[i + 1..];
      match polls[i] {
        case NoContext => return Stopped;
        case NoTime => return NoneYet;
        case Seen(s) => raftState := s;
      }
    }
    return if raftState != 0 then First(raftState) else Stopped;
  }

  /** The answers the node and the worker give to a new follower. */
  datatype FollowerEnv = FollowerEnv(factory: bool, state: nat, polls: seq<StatePoll>, sync: Sync, recovered: bool)

  datatype Event =
    | LeaderCh(becameLeader: bool, leader: LeaderEnv, follower: FollowerEnv)
    | Ticker(leaderKnown: bool, isSelf: bool, follower: FollowerEnv)
    | WorkerEnds
    | WorkerFails
    | Done

  /** What a leader notification leads to: lead, stay as before, or leave the loop. */
  datatype Decision = Lead | Stay | Leave

  function SyncDecision(env: LeaderEnv): Decision {
    if !env.stillLeader then Stay
    else if env.sync.SyncError? then Leave
    else if env.sync.d >= -1 then (if env.sync.d == 0 || env.recovered then Lead else Leave)
    else match WaitResult(env.polls)
      case Canceled => Leave
      case LostLeadership => Stay
      case Timeout => if env.transferred then Stay else Leave
      case Synced => if env.sync2.Diff? && (env.sync2.d == 0 || env.recovered) then Lead else Leave
  }

  function LeaderDecision(isStarted: bool, env: LeaderEnv): Decision {
    if !env.landed then Stay
    else if isStarted && !SyncDecision(env).Lead? then SyncDecision(env)
    else if env.factory then Lead else Leave
  }

  predicate FollowerStarts(env: FollowerEnv) {
    && env.factory
    && match FirstSeen(env.state, env.polls)
       case Stopped => false
       case NoneYet => true
       case First(_) => (env.sync.Diff? && env.sync.d <= 0) || env.recovered
  }

  /** The flags of the loop. */
  datatype Control = Control(isStarted: bool, isLeader: bool, tickerOn: bool)

  const INITIAL := Control(false, false, true)

  /** How the flags answer an event, and whether the loop goes on. */
  function React(c: Control, e: Event): (Control, bool) {
    match e
    case LeaderCh(true, leader, _) =>
      if c.isLeader then (c, true)
      else
        var d := LeaderDecision(c.isStarted, leader);
        (c.(isStarted := c.isStarted || d.Lead?, isLeader := d.Lead?), !d.Leave?)
    case LeaderCh(false, _, follower) =>
      if c.isLeader then (c, false)
      else if c.isStarted then (c, true)
      else (c.(isStarted := true), FollowerStarts(follower))
    case Ticker(leaderKnown, isSelf, follower) =>
      if !c.tickerOn || !leaderKnown then (c, true)
      else if c.isStarted || isSelf then (c.(tickerOn := false), true)
      else (c.(isStarted := true, tickerOn := false), FollowerStarts(follower))
    case WorkerEnds => (c, true)
    case WorkerFails => (c, false)
    case Done => (c, false)
  }

  function ReactAll(c: Control, events: seq<Event>): Control
    decreases |events|
  {
    if events == [] then c
    else
      var (c', goOn) := React(c, events[0]);
      if goOn then ReactAll(c', events[1..]) else c'
  }

  /** The last check before leading: the first one if it is at most one block behind, otherwise the one after waiting.
      */
  predicate SyncCleared(env: LeaderEnv, sync: Sync) {
    sync.Diff? && (sync.d == 0 || env.recovered)
  }

  /** A started node leads only in sync with raft, or recovered. */
  predicate MayLead(env: LeaderEnv) {
    && env.stillLeader && env.sync.Diff?
    && if -1 <= env.sync.d then SyncCleared(env, env.sync)
       else WaitResult(env.polls).Synced? && SyncCleared(env, env.sync2)
  }

  /** A started node gives the notification up and goes on: leadership is already elsewhere, or was handed over. */
  predicate Yields(env: LeaderEnv) {
    || !env.stillLeader
    || (env.sync.Diff? && env.sync.d < -1 &&
        (WaitResult(env.polls).LostLeadership? || (WaitResult(env.polls).Timeout? && env.transferred)))
  }

  /** What a leader notification leads to, for a fresh and for a started node. */
  lemma {:induction false} DecisionExactly(isStarted: bool, env: LeaderEnv)
    ensures LeaderDecision(isStarted, env).Lead? <==> env.landed && env.factory && (isStarted ==> MayLead(env))
    ensures LeaderDecision(isStarted, env).Stay? <==> !env.landed || (isStarted && Yields(env))
  {
  }

  /** A follower starts if and only if its factory answers and it is canceled by nothing: no raft state shows up
      before the deadline, or the node is not ahead of the first one, or it is recovered to it. */
  lemma {:induction false} FollowerExactly(env: FollowerEnv)
    ensures FollowerStarts(env) <==>
              && env.factory && !FirstSeen(env.state, env.polls).Stopped?
              && (FirstSeen(env.state, env.polls).First? ==>
                    env.recovered || (env.sync.Diff? && (env.sync.d == 0 || env.sync.d < 0)))
  {
  }

  function NoticeOf(e: Event): Notice {
    match e
    case LeaderCh(becameLeader, _, _) => if becameLeader then Gained else LostRole
    case Ticker(_, _, _) => Ticked
    case WorkerEnds => Ended
    case WorkerFails => Failed
    case Done => Closed
  }

  function NoticesOf(events: seq<Event>): seq<Notice> {
    if events == [] then [] else NoticesOf(events[..|events| - 1]) + [NoticeOf(events[|events| - 1])]
  }

  /** The notices of a trace, in order. */
  function Notices(trace: seq<Act>): seq<Notice> {
    if trace == [] then []
    else
      var last := trace[|trace| - 1];
      Notices(trace[..|trace| - 1]) + if last.Notified? then [last.n] else []
  }

  lemma {:induction false} NoticesSnoc(trace: seq<Act>, a: Act)
    ensures Notices(trace + [a]) == Notices(trace) + if a.Notified? then [a.n] else []
  {
    assert (trace + [a])[..|trace|] == trace;
  }

  /** The event makes a node that has not started anything a follower. */
  predicate FollowerTurn(c: Control, e: Event) {
    !c.isStarted && (NoticeOf(e).LostRole? || (e.Ticker? && c.tickerOn && e.leaderKnown && !e.isSelf))
  }

  /** The reaction in full: who leads, what has started, when the ticker stops, and the only reasons to leave the
      loop. */
  lemma {:induction false} ReactExactly(c: Control, e: Event)
    requires c.isLeader ==> c.isStarted
    ensures var (c', goOn) := React(c, e);
            && (c'.isLeader <==> c.isLeader || (NoticeOf(e).Gained? && LeaderDecision(c.isStarted, e.leader).Lead?))
            && (c'.isStarted <==> c.isStarted || c'.isLeader || FollowerTurn(c, e))
            && (c'.tickerOn <==> c.tickerOn && !(e.Ticker? && e.leaderKnown))
            && (!goOn <==> || Ends(NoticeOf(e), c.isLeader)
                           || (FollowerTurn(c, e) && !FollowerStarts(e.follower))
                           || (NoticeOf(e).Gained? && !c.isLeader && LeaderDecision(c.isStarted, e.leader).Leave?))
  {
  }

  class ElectionLoop {
    var isStarted: bool
    var isCurrentlyLeader: bool
    var alive: nat
    var tickerOn: bool
    var trace: seq<Act>

    ghost predicate Valid()
      reads this
    {
      Sound() && PhaseOf(trace).Running?
    }

    /** What holds after the loop, too. */
    ghost predicate Sound()
      reads this
    {
      var m := Watch(trace);
      && m.safe && m.alive == alive <= 1 && !PhaseOf(trace).Overrun?
      && (m.leaderRan <==> Started(Leader) in trace)
      && (m.leaderRan <==> isCurrentlyLeader)
      && (m.followerRan ==> isStarted)
      && (isCurrentlyLeader ==> isStarted)
    }

    function Flags(): Control
      reads this
    {
      Control(isStarted, isCurrentlyLeader, tickerOn)
    }

    constructor ()
      ensures Valid() && Flags() == INITIAL && trace == []
    {
      isStarted, isCurrentlyLeader, alive, tickerOn, trace := false, false, 0, true, [];
    }

    method Log(a: Act)
      modifies this`trace
      ensures Watch(trace) == Observe(old(Watch(trace)), a)
      ensures Started(Leader) in trace <==> Started(Leader) in old(trace) || a == Started(Leader)
      ensures Notices(trace) == old(Notices(trace)) + if a.Notified? then [a.n] else []
      ensures old(PhaseOf(trace)).Running? && !a.Notified? ==> PhaseOf(trace).Running?
      ensures old(PhaseOf(trace)).Over? && a.Exited? ==> PhaseOf(trace).Over?
      ensures old(PhaseOf(trace)).Running? && a.Notified? ==>
                PhaseOf(trace) == if Ends(a.n, Started(Leader) in old(trace)) then Over else Running
    {
      NoticesSnoc(trace, a);
      PhaseSnoc(trace, a);
      WatchSnoc(trace, a);
      trace := trace + [a];
    }

    /** workerCancel and wg.Wait: afterwards no worker is alive. */
    method StopWorkers()
      requires Sound()
      modifies this`trace, this`alive
      ensures Sound() && alive == 0
      ensures Watch(trace) == old(Watch(trace)).(alive := 0) && Notices(trace) == old(Notices(trace))
      ensures PhaseOf(trace) == old(PhaseOf(trace))
    {
      if alive > 0 {
        Log(Exited);
        alive := alive - 1;
      }
    }

    method StartWorker(role: Role)
      requires Valid()
      requires role.Leader? ==> LeaderMayStart(Watch(trace).(alive := 0)) && isStarted
      requires role.Follower? ==> FollowerMayStart(Watch(trace).(alive := 0)) && isStarted
      modifies this`trace, this`alive, this`isCurrentlyLeader
      ensures Valid() && alive == 1 && isCurrentlyLeader == (old(isCurrentlyLeader) || role.Leader?)
      ensures Watch(trace).followerRan == (old(Watch(trace)).followerRan || role.Follower?)
      ensures Notices(trace) == old(Notices(trace))
    {
      StopWorkers();
      alive := alive + 1;
      if role.Leader? {
        isCurrentlyLeader := true;
      }
      Log(Started(role));
    }

    method LogSync(state: nat, sync: Sync)
      requires Valid()
      modifies this`trace
      ensures Valid()
      ensures Watch(trace) == old(Watch(trace)).(state := Some(state), check := Some(sync), recovered := false)
      ensures Notices(trace) == old(Notices(trace))
    {
      Log(GotState(state));
      Log(Checked(state, sync));
    }

    /** verifyState: a follower ahead of raft, or one that cannot tell, is recovered before it starts. */
    method VerifyState(env: FollowerEnv) returns (ok: bool)
      requires Valid() && Watch(trace).check.None?
      modifies this`trace
      ensures Valid()
      ensures env.factory ==> (ok <==> FollowerStarts(env))
      ensures Watch(trace).followerRan == old(Watch(trace)).followerRan
      ensures Watch(trace).leaderRan == old(Watch(trace)).leaderRan
      ensures ok ==> FollowerMayStart(Watch(trace).(alive := 0, leaderRan := false))
      ensures Notices(trace) == old(Notices(trace))
    {
      var first := WaitForState(env.state, env.polls);
      if first.Stopped? {
        return false;
      }
      if first.NoneYet? {
        return true;
      }
      LogSync(first.state, env.sync);
      if env.sync.Diff? && env.sync.d <= 0 {
        return true;
      }
      if !env.recovered {
        return false;
      }
      Log(Recovered(first.state));
      return true;
    }

    method StartFollower(env: FollowerEnv) returns (ok: bool)
      requires Valid() && !isStarted && Watch(trace).check.None?
      modifies this
      ensures Valid() && isStarted && !isCurrentlyLeader && tickerOn == old(tickerOn)
      ensures ok <==> FollowerStarts(env)
      ensures ok <==> Watch(trace).followerRan
      ensures Notices(trace) == old(Notices(trace))
    {
      isStarted := true;
      if !env.factory {
        return false;
      }
      ok := VerifyState(env);
      if ok {
        StartWorker(Follower);
      }
    }

    /** Reads the raft state and compares the local blocks with it. */
    method ReadSync(state: nat, sync: Sync) returns (ok: bool)
      requires Valid()
      modifies this`trace
      ensures Valid() && (ok <==> sync.Diff?)
      ensures Watch(trace) ==
              old(Watch(trace)).(state := Some(state), check := if ok then Some(sync) else None, recovered := false)
      ensures Notices(trace) == old(Notices(trace))
    {
      if sync.SyncError? {
        Log(GotState(state));
        return false;
      }
      LogSync(state, sync);
      return true;
    }

    /** A node that is not in sync with the state just read recovers to it, or fails. */
    method Settle(state: nat, sync: Sync, recovered: bool) returns (ok: bool)
      requires Valid() && Watch(trace).landed && sync.Diff?
      requires Watch(trace).state == Some(state) && Watch(trace).check == Some(sync)
      modifies this`trace
      ensures Valid() && (ok <==> sync.d == 0 || recovered)
      ensures ok ==> LeaderMayStart(Watch(trace).(alive := 0))
      ensures Watch(trace).followerRan == old(Watch(trace)).followerRan
      ensures Notices(trace) == old(Notices(trace))
    {
      if sync.d != 0 {
        if !recovered {
          return false;
        }
        Log(Recovered(state));
      }
      return true;
    }

    /** What a started node checks before it leads. */
    method CheckSync(env: LeaderEnv) returns (r: Option<bool>)
      requires Valid() && Watch(trace).landed
      modifies this`trace
      ensures Valid()
      ensures r == match SyncDecision(env) case Lead => None case Stay => Some(true) case Leave => Some(false)
      ensures r.None? ==> LeaderMayStart(Watch(trace).(alive := 0))
      ensures Watch(trace).followerRan == old(Watch(trace)).followerRan
      ensures Notices(trace) == old(Notices(trace))
    {
      if !env.stillLeader {
        return Some(true);
      }
      var state, sync := env.state, env.sync;
      var ok := ReadSync(state, sync);
      if !ok {
        return Some(false);
      }
      if sync.d < -1 {
        var w := WaitForBlockStoreSync(env.polls);
        if w.Canceled? {
          return Some(false);
        }
        if w.LostLeadership? {
          return Some(true);
        }
        if w.Timeout? {
          return Some(env.transferred);
        }
        state, sync := env.state2, env.sync2;
        ok := ReadSync(state, sync);
        if !ok {
          return Some(false);
        }
      }
      ok := Settle(state, sync, env.recovered);
      return if ok then None else Some(false);
    }

    /** A leader notification. `false` means the loop returns. */
    method BecomeLeader(env: LeaderEnv) returns (goOn: bool)
      requires Valid() && !isCurrentlyLeader
      modifies this
      ensures Valid() && tickerOn == old(tickerOn)
      ensures isCurrentlyLeader <==> LeaderDecision(old(isStarted), env).Lead?
      ensures goOn <==> !LeaderDecision(old(isStarted), env).Leave?
      ensures isStarted == (old(isStarted) || isCurrentlyLeader)
      ensures Watch(trace).followerRan == old(Watch(trace)).followerRan
      ensures Notices(trace) == old(Notices(trace))
    {
      if !env.landed {
        return true;
      }
      Log(Landed);
      if isStarted {
        var r := CheckSync(env);
        if r.Some? {
          return r.value;
        }
        StopWorkers();
      }
      if !env.factory {
        return false;
      }
      isStarted := true;
      StartWorker(Leader);
      return true;
    }

    method OnTicker(leaderKnown: bool, isSelf: bool, follower: FollowerEnv) returns (goOn: bool)
      requires Valid() && Watch(trace).check.None?
      modifies this
      ensures Valid() && (Flags(), goOn) == React(old(Flags()), Ticker(leaderKnown, isSelf, follower))
      ensures Notices(trace) == old(Notices(trace))
      ensures Watch(trace).followerRan <==>
                || old(Watch(trace)).followerRan
                || (FollowerTurn(old(Flags()), Ticker(leaderKnown, isSelf, follower)) && FollowerStarts(follower))
    {
      if !tickerOn || !leaderKnown {
        return true;
      }
      tickerOn := false;
      if isStarted || isSelf {
        return true;
      }
      goOn := StartFollower(follower);
    }

    method OnEvent(e: Event) returns (goOn: bool)
      requires Valid()
      modifies this
      ensures Sound() && (goOn ==> Valid()) && (Flags(), goOn) == React(old(Flags()), e)
      ensures Notices(trace) == old(Notices(trace)) + [NoticeOf(e)]
      ensures Watch(trace).followerRan <==>
                || old(Watch(trace)).followerRan
                || (FollowerTurn(old(Flags()), e) && FollowerStarts(e.follower))
    {
      Log(Notified(NoticeOf(e)));
      match e {
        case LeaderCh(becameLeader, leader, follower) =>
          if becameLeader && !isCurrentlyLeader {
            goOn := BecomeLeader(leader);
          } else if !becameLeader && isCurrentlyLeader {
            goOn := false;
          } else if !becameLeader && !isCurrentlyLeader && !isStarted {
            goOn := StartFollower(follower);
          } else {
            goOn := true;
          }
        case Ticker(leaderKnown, isSelf, follower) =>
          goOn := OnTicker(leaderKnown, isSelf, follower);
        case WorkerEnds =>
          // the goroutine of the current worker returns on its own
          if alive > 0 {
            Log(Exited);
            alive := alive - 1;
          }
          goOn := true;
        case WorkerFails => goOn := false;
        case Done => goOn := false;
      }
    }
  }

  /** Every run of the loop is safe, leaves no worker behind, and takes its events in order, up to one that ends it;
      it has led exactly when the decisions say so. */
  method Run(events: seq<Event>) returns (trace: seq<Act>, taken: nat)
    ensures Watch(trace).safe && !PhaseOf(trace).Overrun? && Alive(trace) == 0
    ensures taken <= |events| && Notices(trace) == NoticesOf(events[..taken])
    ensures taken < |events| ==> EndsAt(events, taken)
    ensures EndsAt(events, taken) || GoesOn(INITIAL, events[..taken])
    ensures Started(Leader) in trace <==> ReactAll(INITIAL, events).isLeader
  {
    var d := new ElectionLoop();
    var goOn := true;
    taken := 0;
    while taken < |events| && goOn
      invariant taken <= |events| && fresh(d) && d.Sound() && (goOn ==> d.Valid())
      invariant ReactAll(INITIAL, events) == if goOn then ReactAll(d.Flags(), events[taken..]) else d.Flags()
      invariant Notices(d.trace) == NoticesOf(events[..taken])
      invariant goOn ==> GoesOn(INITIAL, events[..taken]) && ReactAll(INITIAL, events[..taken]) == d.Flags()
      invariant !goOn ==> EndsAt(events, taken)
    {
      assert events[taken..][1..] == events[taken + 1..];
      assert events[..taken + 1] == events[..taken] + [events[taken]];
      assert events[..taken + 1][..taken] == events[..taken];
      ReactSnoc(INITIAL, events[..taken], events[taken]);
      goOn := d.OnEvent(events[taken]);
      taken := taken + 1;
    }
    // deferred: workerCancel and wg.Wait
    d.StopWorkers();
    MonitorCounts(d.trace);
    trace := d.trace;
  }

  /** No event of the list ends the loop. */
  predicate GoesOn(c: Control, events: seq<Event>)
    decreases |events|
  {
    events == [] || (React(c, events[0]).1 && GoesOn(React(c, events[0]).0, events[1..]))
  }

  /** The last of the first `n` events ends the loop, and none before it does. */
  predicate EndsAt(events: seq<Event>, n: nat) {
    && 0 < n <= |events| && GoesOn(INITIAL, events[..n - 1])
    && !React(ReactAll(INITIAL, events[..n - 1]), events[n - 1]).1
  }

  lemma {:induction false} ReactSnoc(c: Control, events: seq<Event>, e: Event)
    requires GoesOn(c, events)
    ensures ReactAll(c, events + [e]) == React(ReactAll(c, events), e).0
    ensures GoesOn(c, events + [e]) <==> React(ReactAll(c, events), e).1
    decreases |events|
  {
    if events == [] {
      assert events + [e] == [e] && [e][1..] == [];
    } else {
      assert (events + [e])[1..] == events[1..] + [e];
      ReactSnoc(React(c, events[0]).0, events[1..], e);
    }
  }
}
