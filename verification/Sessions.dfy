/**
 The life of client sessions (session.go) under concurrent use: sessions are created and touched, and
 taken out of the map by `RemoveSession`, by the reaper or by `Close`, each of which cleans up what it
 took after it has released the lock.

 Session states are numbered in the order of their creation. An action is one critical section, one
 cleanup, or the passing of time; times are nanoseconds.
 */
module Sessions {
  import opened Common

  // ---------------------------------------------------------------- the machine

  /** The reaper goroutine: waiting for a tick, holding the time it read, cleaning up, or gone. */
  datatype Reaper = Idle | Sampled(at: int) | Cleaning | Stopped

  datatype Closing = Open | Stopping | Swapped

  datatype Manager = Manager(
    ttl: int,
    now: int,
    sessions: map<string, nat>,
    owner: seq<string>,             // the session id each state was created for
    lastActivity: seq<int>,
    reaper: Reaper,
    closing: Closing,
    removing: multiset<nat>,        // taken out by RemoveSession, not yet cleaned up
    reaping: multiset<nat>,         // taken out by the reaper, not yet cleaned up
    closed: multiset<nat>,          // taken out by Close, not yet cleaned up
    cleaned: multiset<nat>,         // cleanups so far
    atSwap: set<nat>,               // what Close found in the map
    swept: int)                     // the time the reaper had read for its last completed pass

  datatype Action =
    | Wait(time: nat)
    | Create(id: string)
    | Touch(id: string)
    | Remove(id: string)
    | CleanRemoved(state: nat)
    | ReaperReadsTime
    | ReaperTakes
    | ReaperCleans(state: nat)
    | ReaperRests
    | ReaperStops
    | CloseStopsReaper
    | CloseSwaps
    | CloseCleans(state: nat)

  predicate Init(m: Manager) {
    && m.sessions == map[] && m.owner == [] && m.lastActivity == []
    && m.reaper == (if m.ttl > 0 then Idle else Stopped) && m.closing == Open
    && m.removing == m.reaping == m.closed == m.cleaned == multiset{}
    && m.atSwap == {} && m.swept == m.now
  }

  /** `now.Sub(state.lastActivity) > sm.sessionTTL`. */
  predicate StaleAt(m: Manager, time: int, id: string) {
    id in m.sessions && m.sessions[id] < |m.lastActivity| && time - m.lastActivity[m.sessions[id]] > m.ttl
  }

  function StaleIds(m: Manager, time: int): set<string> {
    set id | id in m.sessions && StaleAt(m, time, id)
  }

  function StatesOf(m: Manager, ids: set<string>): set<nat> {
    set id | id in m.sessions && id in ids :: m.sessions[id]
  }

  function Next(m: Manager, a: Action): Option<Manager> {
    match a
    case Wait(time) => Some(m.(now := m.now + time))
    case Create(id) =>
      if id in m.sessions then Some(m)
      else Some(m.(sessions := m.sessions[id := |m.owner|], owner := m.owner + [id],
                   lastActivity := m.lastActivity + [m.now]))
    case Touch(id) =>
      if id in m.sessions && m.sessions[id] < |m.lastActivity|
      then Some(m.(lastActivity := m.lastActivity[m.sessions[id] := m.now])) else Some(m)
    case Remove(id) =>
      if id in m.sessions then Some(m.(sessions := m.sessions - {id},
                                       removing := m.removing + multiset{m.sessions[id]}))
      else Some(m)
    case CleanRemoved(x) =>
      if x in m.removing then Some(m.(removing := m.removing - multiset{x}, cleaned := m.cleaned + multiset{x}))
      else None
    case ReaperReadsTime =>
      if m.reaper.Idle? then Some(m.(reaper := Sampled(m.now))) else None
    case ReaperTakes =>
      if !m.reaper.Sampled? then None
      else
        var stale := StaleIds(m, m.reaper.at);
        Some(m.(sessions := m.sessions - stale, reaping := m.reaping + multiset(StatesOf(m, stale)), reaper := Cleaning,
                swept := m.reaper.at))
    case ReaperCleans(x) =>
      if m.reaper.Cleaning? && x in m.reaping
      then Some(m.(reaping := m.reaping - multiset{x}, cleaned := m.cleaned + multiset{x})) else None
    case ReaperRests =>
      if m.reaper.Cleaning? && m.reaping == multiset{} then Some(m.(reaper := Idle)) else None
    case ReaperStops =>
      if m.reaper.Idle? && !m.closing.Open? then Some(m.(reaper := Stopped)) else None
    case CloseStopsReaper =>
      if m.closing.Open? then Some(m.(closing := Stopping)) else None
    case CloseSwaps =>
      if m.closing.Stopping? && m.reaper.Stopped? then
        var all := StatesOf(m, m.sessions.Keys);
        Some(m.(closing := Swapped, sessions := map[], closed := m.closed + multiset(all), atSwap := all))
      else None
    case CloseCleans(x) =>
      if m.closing.Swapped? && x in m.closed
      then Some(m.(closed := m.closed - multiset{x}, cleaned := m.cleaned + multiset{x})) else None
  }

  /** The state after a sequence of actions, if they can happen. */
  function Run(m: Manager, trace: seq<Action>): Option<Manager> {
    if trace == [] then Some(m)
    else
      match Run(m, trace[..|trace| - 1])
      case None => None
      case Some(before) => Next(before, trace[|trace| - 1])
  }

  // ---------------------------------------------------------------- where a state is

  predicate Live(m: Manager, x: nat) {
    x < |m.owner| && m.owner[x] in m.sessions && m.sessions[m.owner[x]] == x
  }

  /** The places a state is in: the map, one of the three removers, or cleaned up, with multiplicity. */
  function Places(m: Manager, x: nat): nat {
    (if Live(m, x) then 1 else 0) + m.removing[x] + m.reaping[x] + m.closed[x] + m.cleaned[x]
  }

  ghost predicate Accounted(m: Manager) {
    && |m.owner| == |m.lastActivity|
    && (forall id :: id in m.sessions ==> m.sessions[id] < |m.owner| && m.owner[m.sessions[id]] == id)
    && (forall x: nat :: Places(m, x) == if x < |m.owner| then 1 else 0)
  }

  ghost predicate Timely(m: Manager) {
    && |m.owner| == |m.lastActivity|
    && m.swept <= m.now && (m.reaper.Sampled? ==> m.swept <= m.reaper.at <= m.now)
    && (forall x :: 0 <= x < |m.lastActivity| ==> m.lastActivity[x] <= m.now)
    && (m.ttl > 0 ==> forall id ::
        id in m.sessions ==> m.sessions[id] < |m.lastActivity| && m.swept - m.lastActivity[m.sessions[id]] <= m.ttl)
  }

  ghost predicate CloseRight(m: Manager) {
    && (m.closing.Swapped? ==> m.reaper.Stopped? && forall x :: x in m.atSwap ==> x in m.closed || x in m.cleaned)
    && (!m.closing.Swapped? ==> m.atSwap == {} && m.closed == multiset{})
    && (m.reaping != multiset{} ==> m.reaper.Cleaning?)
  }

  // ---------------------------------------------------------------- steps

  lemma TakenAreLive(m: Manager, ids: set<string>, x: nat)
    requires forall id :: id in m.sessions ==> m.sessions[id] < |m.owner| && m.owner[m.sessions[id]] == id
    ensures x in StatesOf(m, ids) <==> Live(m, x) && m.owner[x] in ids
  {
  }

  /** Creating, touching and taking out one session. */
  lemma PlacesInMap(m: Manager, a: Action, x: nat)
    requires Accounted(m) && Next(m, a).Some? && (a.Create? || a.Touch? || a.Remove?)
    ensures var after := Next(m, a).value; Places(after, x) == if x < |after.owner| then 1 else 0
  {
    assert Places(m, x) == if x < |m.owner| then 1 else 0;
    if a.Create? && a.id !in m.sessions {
      assert Places(m, |m.owner|) == 0;
    }
  }

  /** Taking out many at once. */
  lemma PlacesTaken(m: Manager, a: Action, x: nat)
    requires Accounted(m) && Next(m, a).Some? && (a.ReaperTakes? || a.CloseSwaps?)
    ensures var after := Next(m, a).value; Places(after, x) == if x < |after.owner| then 1 else 0
  {
    assert Places(m, x) == if x < |m.owner| then 1 else 0;
    var ids := if a.ReaperTakes? then StaleIds(m, m.reaper.at) else m.sessions.Keys;
    TakenAreLive(m, ids, x);
    hide StatesOf, StaleIds;
    assert a.CloseSwaps? ==> m.sessions - ids == map[];
  }

  /** Cleaning up, and the rest. */
  lemma PlacesCleaned(m: Manager, a: Action, x: nat)
    requires Accounted(m) && Next(m, a).Some?
    requires !a.Create? && !a.Touch? && !a.Remove? && !a.ReaperTakes? && !a.CloseSwaps?
    ensures var after := Next(m, a).value; Places(after, x) == if x < |after.owner| then 1 else 0
  {
    assert Places(m, x) == if x < |m.owner| then 1 else 0;
    hide StatesOf, StaleIds, Accounted;
  }

  lemma AccountedStep(m: Manager, a: Action)
    requires Accounted(m) && Next(m, a).Some?
    ensures Accounted(Next(m, a).value)
  {
    var after := Next(m, a).value;
    forall x: nat ensures Places(after, x) == if x < |after.owner| then 1 else 0 {
      if a.Create? || a.Touch? || a.Remove? {
        PlacesInMap(m, a, x);
      } else if a.ReaperTakes? || a.CloseSwaps? {
        PlacesTaken(m, a, x);
      } else {
        PlacesCleaned(m, a, x);
      }
    }
    hide Places;
  }

  lemma TimelyInMap(m: Manager, a: Action)
    requires Timely(m) && Next(m, a).Some? && (a.Create? || a.Touch? || a.Remove?)
    ensures Timely(Next(m, a).value)
  {
  }

  lemma TimelyStep(m: Manager, a: Action)
    requires Timely(m) && Next(m, a).Some?
    ensures Timely(Next(m, a).value)
  {
    if a.Create? || a.Touch? || a.Remove? {
      TimelyInMap(m, a);
    } else {
      hide StatesOf;
    }
  }

  /** What each action does to what `Close` has taken, to what is cleaned up, and to what the reaper has taken. */
  lemma TakenByClose(m: Manager, a: Action)
    requires Next(m, a).Some? && !a.CloseSwaps? && !a.CloseCleans?
    ensures var after := Next(m, a).value;
            after.closing.Swapped? == m.closing.Swapped? && after.atSwap == m.atSwap && after.closed == m.closed
  {
    hide StatesOf, StaleIds;
  }

  lemma CleanedByClose(m: Manager, x: nat)
    requires Next(m, CloseCleans(x)).Some?
    ensures m.closing.Swapped?
    ensures Next(m, CloseCleans(x)).value == m.(closed := m.closed - multiset{x}, cleaned := m.cleaned + multiset{x})
  {
  }

  lemma CleanedStays(m: Manager, a: Action, x: nat)
    requires Next(m, a).Some? && x in m.cleaned
    ensures x in Next(m, a).value.cleaned
  {
    hide StatesOf, StaleIds;
  }

  lemma TakenByReaper(m: Manager, a: Action)
    requires Next(m, a).Some?
    ensures var after := Next(m, a).value;
            && (m.reaper.Stopped? ==> after.reaper.Stopped?)
            && (!a.ReaperTakes? && !a.ReaperCleans? ==> after.reaping == m.reaping)
            && (a.ReaperTakes? || a.ReaperCleans? ==> after.reaper.Cleaning?)
            && (m.reaper.Cleaning? ==> after.reaper.Cleaning? || after.reaping == multiset{})
  {
    hide StatesOf, StaleIds;
  }

  lemma CloseRightStep(m: Manager, a: Action)
    requires CloseRight(m) && Next(m, a).Some?
    ensures CloseRight(Next(m, a).value)
  {
    if a.CloseSwaps? {
      SwapRight(m);
    } else {
      hide Next;
      if a.CloseCleans? {
        CleanedByClose(m, a.state);
      } else {
        TakenByClose(m, a);
      }
      TakenByReaper(m, a);
      forall x: nat | x in m.cleaned ensures x in Next(m, a).value.cleaned {
        CleanedStays(m, a, x);
      }
    }
  }

  lemma SwapRight(m: Manager)
    requires CloseRight(m) && Next(m, CloseSwaps).Some?
    ensures CloseRight(Next(m, CloseSwaps).value)
  {
    hide StatesOf;
  }

  ghost predicate Right(m: Manager) {
    Accounted(m) && Timely(m) && CloseRight(m)
  }

  lemma {:induction false} ReachableIsRight(start: Manager, trace: seq<Action>)
    requires Init(start) && Run(start, trace).Some?
    ensures Right(Run(start, trace).value)
  {
    if trace != [] {
      var n := |trace| - 1;
      ReachableIsRight(start, trace[..n]);
      var before := Run(start, trace[..n]).value;
      AccountedStep(before, trace[n]);
      TimelyStep(before, trace[n]);
      CloseRightStep(before, trace[n]);
    }
  }

  // ---------------------------------------------------------------- cleanup

  /**
   In every run, whichever of the three removers take sessions out and however their cleanups are
   delayed: every state ever created is in exactly one place, so it is cleaned up at most once, and once
   it is out of the map it is cleaned up or about to be, by the one remover that took it.
   */
  lemma CleanedAtMostOnce(start: Manager, trace: seq<Action>, x: nat)
    requires Init(start) && Run(start, trace).Some?
    ensures var m := Run(start, trace).value;
            && m.cleaned[x] <= 1
            && (x < |m.owner| && !Live(m, x) ==> m.removing[x] + m.reaping[x] + m.closed[x] + m.cleaned[x] == 1)
            && (Live(m, x) ==> x !in m.cleaned && x !in m.removing && x !in m.reaping && x !in m.closed)
  {
    ReachableIsRight(start, trace);
    var m := Run(start, trace).value;
    assert Places(m, x) == if x < |m.owner| then 1 else 0;
  }

  /** When Close has worked off its list, everything it found in the map is cleaned up, and the reaper is gone. */
  lemma CloseCleansAll(start: Manager, trace: seq<Action>)
    requires Init(start) && Run(start, trace).Some?
    ensures var m := Run(start, trace).value;
            m.closing.Swapped? && m.closed == multiset{} ==>
              m.reaper.Stopped? && m.reaping == multiset{} && forall x :: x in m.atSwap ==> m.cleaned[x] == 1
  {
    ReachableIsRight(start, trace);
    var m := Run(start, trace).value;
    forall x | x in m.atSwap && m.closing.Swapped? && m.closed == multiset{}
      ensures m.cleaned[x] == 1
    {
      assert Places(m, x) == if x < |m.owner| then 1 else 0;
    }
  }

  // ---------------------------------------------------------------- idleness

  /**
   No live session has been idle for longer than the TTL and the time since the reaper last read the clock for a pass.
   */
  lemma IdleTime(start: Manager, trace: seq<Action>, id: string)
    requires Init(start) && start.ttl > 0 && Run(start, trace).Some? && id in Run(start, trace).value.sessions
    ensures var m := Run(start, trace).value;
            && Right(m) && m.ttl == start.ttl
            && m.now - m.lastActivity[m.sessions[id]] <= m.ttl + (m.now - m.swept)
  {
    ReachableIsRight(start, trace);
    TtlIsFixed(start, trace);
  }

  lemma {:induction false} TtlIsFixed(start: Manager, trace: seq<Action>)
    requires Run(start, trace).Some?
    ensures Run(start, trace).value.ttl == start.ttl
  {
    if trace != [] {
      TtlIsFixed(start, trace[..|trace| - 1]);
    }
  }

  lemma {:induction false} NoReaperRuns(start: Manager, trace: seq<Action>)
    requires Init(start) && start.ttl <= 0 && Run(start, trace).Some?
    ensures Run(start, trace).value.reaper.Stopped?
  {
    if trace != [] {
      NoReaperRuns(start, trace[..|trace| - 1]);
    }
  }

  /**
   A TTL of zero or less disables the reaper: in every run a session leaves the map only when it is removed or the
   manager is closed. With a positive one the reaper can read the clock from the beginning.
   */
  lemma ReaperIffTtl(start: Manager, trace: seq<Action>, a: Action)
    requires Init(start) && Run(start, trace).Some? && Next(Run(start, trace).value, a).Some?
    ensures var before, after := Run(start, trace).value, Next(Run(start, trace).value, a).value;
            start.ttl <= 0 ==>
              forall id :: id in before.sessions && id !in after.sessions ==> a == Remove(id) || a.CloseSwaps?
    ensures start.ttl > 0 <==> Next(start, ReaperReadsTime).Some?
  {
    if start.ttl <= 0 {
      NoReaperRuns(start, trace);
    }
  }

  const MIN_INTERVAL := 100_000_000

  /** The period of the reaper's ticker; the division truncates, for a positive TTL. */
  function Interval(ttl: int): int
    requires ttl > 0
  {
    if ttl / 2 < MIN_INTERVAL then MIN_INTERVAL else ttl / 2
  }

  /** Half the TTL, rounded down, but at least a tenth of a second. */
  lemma IntervalIs(ttl: int)
    requires ttl > 0
    ensures ttl < 200_000_000 ==> Interval(ttl) == 100_000_000
    ensures ttl >= 200_000_000 ==> 2 * Interval(ttl) <= ttl < 2 * Interval(ttl) + 2
  {
  }

  /** The clock after a trace that began at `now`. */
  function Clock(now: int, trace: seq<Action>): int {
    if trace == [] then now
    else
      var n := |trace| - 1;
      Clock(now, trace[..n]) + if trace[n].Wait? then trace[n].time else 0
  }

  /** The clock when the reaper last read it; the beginning, if it has not. */
  function LastRead(now: int, trace: seq<Action>): int {
    if trace == [] then now
    else
      var n := |trace| - 1;
      if trace[n].ReaperReadsTime? then Clock(now, trace[..n]) else LastRead(now, trace[..n])
  }

  /** The reaper has read the clock and not got the lock since. */
  predicate Pending(trace: seq<Action>) {
    trace != [] &&
    var n := |trace| - 1;
    trace[n].ReaperReadsTime? || (!trace[n].ReaperTakes? && Pending(trace[..n]))
  }

  /**
   A trace in which the reaper keeps time: it reads the clock at least once in every period, and gets the lock for
   its pass within `lag` of reading.
   */
  ghost predicate Punctual(now: int, trace: seq<Action>, period: int, lag: int) {
    forall i :: 0 <= i <= |trace| ==> PunctualAt(now, trace[..i], period, lag)
  }

  predicate PunctualAt(now: int, trace: seq<Action>, period: int, lag: int) {
    Clock(now, trace) - LastRead(now, trace) <= if Pending(trace) && lag < period then lag else period
  }

  lemma PunctualPrefix(now: int, trace: seq<Action>, period: int, lag: int, i: nat)
    requires Punctual(now, trace, period, lag) && i <= |trace|
    ensures Punctual(now, trace[..i], period, lag) && PunctualAt(now, trace[..i], period, lag)
  {
    forall j | 0 <= j <= i ensures PunctualAt(now, trace[..i][..j], period, lag) {
      assert trace[..i][..j] == trace[..j];
    }
  }

  lemma ReaperStep(m: Manager, a: Action)
    requires Next(m, a).Some?
    ensures var after := Next(m, a).value;
            && after.now == m.now + (if a.Wait? then a.time else 0)
            && if a.ReaperReadsTime? then m.reaper.Idle? && after.reaper == Sampled(m.now) && after.swept == m.swept
               else if a.ReaperTakes? then m.reaper.Sampled? && after.reaper.Cleaning? && after.swept == m.reaper.at
               else
                 after.swept == m.swept
                 && (after.reaper == m.reaper || !(m.reaper.Sampled? || after.reaper.Sampled?))
  {
    hide StaleIds, StatesOf;
  }

  /** What the reaper has read, from the trace alone. */
  lemma {:induction false} ReadFromTrace(start: Manager, trace: seq<Action>)
    requires Init(start) && Run(start, trace).Some?
    ensures var m := Run(start, trace).value;
            && m.now == Clock(start.now, trace) && (Pending(trace) <==> m.reaper.Sampled?)
            && (m.reaper.Sampled? ==> m.reaper.at == LastRead(start.now, trace))
  {
    hide Next;
    if trace != [] {
      var n := |trace| - 1;
      ReadFromTrace(start, trace[..n]);
      ReaperStep(Run(start, trace[..n]).value, trace[n]);
    }
  }

  /** And what it has swept. */
  lemma {:induction false} SweptOnTime(start: Manager, trace: seq<Action>, period: int, lag: int)
    requires Init(start) && start.ttl > 0 && Run(start, trace).Some? && Punctual(start.now, trace, period, lag)
    ensures var m, read := Run(start, trace).value, LastRead(start.now, trace);
            if m.reaper.Sampled? then read - m.swept <= period else m.swept == read
  {
    hide Next, Punctual;
    if trace != [] {
      var n := |trace| - 1;
      PunctualPrefix(start.now, trace, period, lag, n);
      SweptOnTime(start, trace[..n], period, lag);
      ReadFromTrace(start, trace[..n]);
      ReaperStep(Run(start, trace[..n]).value, trace[n]);
    }
  }

  /** The clock when the session was last created or touched. */
  ghost function LastUse(start: Manager, trace: seq<Action>, id: string): int
    requires Run(start, trace).Some?
  {
    if trace == [] then start.now
    else
      var n := |trace| - 1;
      var before := Run(start, trace[..n]).value;
      if Uses(before, trace[n], id) then before.now else LastUse(start, trace[..n], id)
  }

  predicate Uses(m: Manager, a: Action, id: string) {
    if id in m.sessions then a == Touch(id) else a == Create(id)
  }

  lemma UseStep(m: Manager, a: Action, id: string)
    requires Accounted(m) && Next(m, a).Some? && id in Next(m, a).value.sessions
    ensures var after := Next(m, a).value;
            && after.sessions[id] < |after.lastActivity|
            && if Uses(m, a, id) then after.lastActivity[after.sessions[id]] == m.now
               else id in m.sessions && after.lastActivity[after.sessions[id]] == m.lastActivity[m.sessions[id]]
  {
    hide StatesOf, StaleIds, Places;
  }

  lemma {:induction false} LastUseFromTrace(start: Manager, trace: seq<Action>, id: string)
    requires Init(start) && Run(start, trace).Some? && id in Run(start, trace).value.sessions
    ensures var m := Run(start, trace).value;
            m.sessions[id] < |m.lastActivity| && m.lastActivity[m.sessions[id]] == LastUse(start, trace, id)
  {
    hide Next;
    if trace != [] {
      var n := |trace| - 1;
      var before := Run(start, trace[..n]).value;
      ReachableIsRight(start, trace[..n]);
      UseStep(before, trace[n], id);
      if id in before.sessions {
        LastUseFromTrace(start, trace[..n], id);
      }
    }
  }

  /**
   In every run a pass of the reaper takes exactly the sessions that had not been used for more than the TTL when
   it read the clock, however long ago that was: one that was used in the meantime stays.
   */
  lemma ReaperTakesTheIdle(start: Manager, trace: seq<Action>, id: string)
    requires Init(start) && Run(start, trace).Some? && Run(start, trace).value.reaper.Sampled?
    requires id in Run(start, trace).value.sessions
    ensures var after := Next(Run(start, trace).value, ReaperTakes).value;
            id !in after.sessions <==> LastRead(start.now, trace) - LastUse(start, trace, id) > start.ttl
  {
    hide Run, Init, LastRead, LastUse, Next, Accounted, Timely, CloseRight;
    ReadFromTrace(start, trace);
    LastUseFromTrace(start, trace, id);
    TtlIsFixed(start, trace);
    TakesTheStale(Run(start, trace).value, id);
  }

  lemma TakesTheStale(m: Manager, id: string)
    requires m.reaper.Sampled? && id in m.sessions && m.sessions[id] < |m.lastActivity|
    ensures Next(m, ReaperTakes).Some?
    ensures id !in Next(m, ReaperTakes).value.sessions <==> m.reaper.at - m.lastActivity[m.sessions[id]] > m.ttl
  {
    hide StatesOf;
  }

  /**
   In every run in which the reaper keeps time, at every moment: no live session is idle for longer than the TTL,
   one period and the lag. Without lag that is 1.5 TTL from 200 ms on.
   */
  lemma IdleTimeOnTime(start: Manager, trace: seq<Action>, lag: nat, i: nat, id: string)
    requires Init(start) && start.ttl > 0 && Punctual(start.now, trace, Interval(start.ttl), lag)
    requires i <= |trace| && Run(start, trace[..i]).Some? && id in Run(start, trace[..i]).value.sessions
    ensures var m := Run(start, trace[..i]).value;
            && Right(m) && m.now - m.lastActivity[m.sessions[id]] <= m.ttl + Interval(start.ttl) + lag
            && (m.ttl >= 2 * MIN_INTERVAL ==> 2 * (m.now - m.lastActivity[m.sessions[id]]) <= 3 * m.ttl + 2 * lag)
  {
    PunctualPrefix(start.now, trace, Interval(start.ttl), lag, i);
    SweptOnTime(start, trace[..i], Interval(start.ttl), lag);
    ReadFromTrace(start, trace[..i]);
    IdleTime(start, trace[..i], id);
    hide Run, Punctual, Init, Right;
  }

  // ---------------------------------------------------------------- the code of the critical sections

  class SessionState {
    var lastActivity: int
    var cleanups: nat    // how often cleanupSessionState has run on this state

    constructor (now: int)
      ensures lastActivity == now && cleanups == 0
    {
      lastActivity, cleanups := now, 0;
    }
  }

  /** The indices of `taken` in the list of all states. */
  ghost predicate Indexes(xs: seq<nat>, all: seq<SessionState>, taken: seq<SessionState>) {
    forall x: nat :: x in xs <==> x < |all| && all[x] in taken
  }

  method CleanUp(states: seq<SessionState>, ghost xs: seq<nat>, ghost all: seq<SessionState>)
    requires forall i, j :: 0 <= i < j < |states| ==> states[i] != states[j]
    modifies states
    ensures forall s :: s in states ==> s.cleanups == old(s.cleanups) + 1 && s.lastActivity == old(s.lastActivity)
    ensures forall x :: 0 <= x < |all| ==> all[x].lastActivity == old(all[x].lastActivity)
    ensures Indexes(xs, all, states) ==>
              forall x :: 0 <= x < |all| ==> all[x].cleanups == old(all[x].cleanups) + if x in xs then 1 else 0
  {
    for i := 0 to |states|
      invariant forall j :: 0 <= j < i ==> states[j].cleanups == old(states[j].cleanups) + 1
      invariant forall j :: i <= j < |states| ==> states[j].cleanups == old(states[j].cleanups)
      invariant forall j :: 0 <= j < |states| ==> states[j].lastActivity == old(states[j].lastActivity)
      invariant forall x :: 0 <= x < |all| ==> all[x].lastActivity == old(all[x].lastActivity)
      invariant forall x :: 0 <= x < |all| && all[x] !in states ==> all[x].cleanups == old(all[x].cleanups)
    {
      states[i].cleanups := states[i].cleanups + 1;
    }
  }

  lemma RemovalSteps(m: Manager, id: string)
    requires Accounted(m)
    ensures var taken := Next(m, Remove(id)).value;
            && Accounted(taken)
            && (id in m.sessions ==>
                  && Next(taken, CleanRemoved(m.sessions[id])).Some?
                  && Accounted(Next(taken, CleanRemoved(m.sessions[id])).value))
  {
    AccountedStep(m, Remove(id));
    if id in m.sessions {
      AccountedStep(Next(m, Remove(id)).value, CleanRemoved(m.sessions[id]));
    }
    hide Accounted;
  }

  // ---------------------------------------------------------------- runs of cleanups

  lemma {:induction false} RunAppend(m: Manager, a: seq<Action>, b: seq<Action>)
    requires Run(m, a).Some?
    ensures Run(m, a + b) == Run(Run(m, a).value, b)
  {
    if b == [] {
      assert a + b == a;
    } else {
      assert (a + b)[..|a + b| - 1] == a + b[..|b| - 1];
      RunAppend(m, a, b[..|b| - 1]);
    }
  }

  lemma RunOne(m: Manager, a: Action)
    ensures Run(m, [a]) == Next(m, a)
  {
    hide Next;
    assert [a][..0] == [];
    assert Run(m, []) == Some(m);
  }

  lemma {:induction false} AccountedRun(m: Manager, trace: seq<Action>)
    requires Accounted(m) && Run(m, trace).Some?
    ensures Accounted(Run(m, trace).value)
  {
    hide Next, Accounted;
    if trace != [] {
      var n := |trace| - 1;
      AccountedRun(m, trace[..n]);
      AccountedStep(Run(m, trace[..n]).value, trace[n]);
    }
  }

  function ReaperCleaning(xs: seq<nat>): seq<Action> {
    if xs == [] then [] else ReaperCleaning(xs[..|xs| - 1]) + [ReaperCleans(xs[|xs| - 1])]
  }

  function CloseCleaning(xs: seq<nat>): seq<Action> {
    if xs == [] then [] else CloseCleaning(xs[..|xs| - 1]) + [CloseCleans(xs[|xs| - 1])]
  }

  lemma LastTaken(xs: seq<nat>, from: multiset<nat>, cleaned: multiset<nat>)
    requires xs != [] && multiset(xs) <= from
    ensures var front, x := xs[..|xs| - 1], xs[|xs| - 1];
            && multiset(front) <= from && x in from - multiset(front)
            && from - multiset(front) - multiset{x} == from - multiset(xs)
            && cleaned + multiset(front) + multiset{x} == cleaned + multiset(xs)
  {
    assert xs == xs[..|xs| - 1] + [xs[|xs| - 1]];
  }

  lemma NothingTaken(from: multiset<nat>, cleaned: multiset<nat>)
    ensures from - multiset([]) == from && cleaned + multiset([]) == cleaned
  {
  }

  lemma {:induction false} ReaperCleaningRuns(m: Manager, xs: seq<nat>)
    requires m.reaper.Cleaning? && multiset(xs) <= m.reaping
    ensures Run(m, ReaperCleaning(xs))
        == Some(m.(reaping := m.reaping - multiset(xs), cleaned := m.cleaned + multiset(xs)))
  {
    if xs != [] {
      var front, x := xs[..|xs| - 1], xs[|xs| - 1];
      LastTaken(xs, m.reaping, m.cleaned);
      ReaperCleaningRuns(m, front);
      RunAppend(m, ReaperCleaning(front), [ReaperCleans(x)]);
      RunOne(Run(m, ReaperCleaning(front)).value, ReaperCleans(x));
    } else {
      NothingTaken(m.reaping, m.cleaned);
    }
  }

  lemma {:induction false} CloseCleaningRuns(m: Manager, xs: seq<nat>)
    requires m.closing.Swapped? && multiset(xs) <= m.closed
    ensures Run(m, CloseCleaning(xs))
        == Some(m.(closed := m.closed - multiset(xs), cleaned := m.cleaned + multiset(xs)))
  {
    if xs != [] {
      var front, x := xs[..|xs| - 1], xs[|xs| - 1];
      LastTaken(xs, m.closed, m.cleaned);
      CloseCleaningRuns(m, front);
      RunAppend(m, CloseCleaning(front), [CloseCleans(x)]);
      RunOne(Run(m, CloseCleaning(front)).value, CloseCleans(x));
    } else {
      NothingTaken(m.closed, m.cleaned);
    }
  }

  function RemovedCleaning(xs: seq<nat>): seq<Action> {
    if xs == [] then [] else RemovedCleaning(xs[..|xs| - 1]) + [CleanRemoved(xs[|xs| - 1])]
  }

  lemma {:induction false} RemovedCleaningRuns(m: Manager, xs: seq<nat>)
    requires multiset(xs) <= m.removing
    ensures Run(m, RemovedCleaning(xs))
        == Some(m.(removing := m.removing - multiset(xs), cleaned := m.cleaned + multiset(xs)))
  {
    if xs != [] {
      var front, x := xs[..|xs| - 1], xs[|xs| - 1];
      LastTaken(xs, m.removing, m.cleaned);
      RemovedCleaningRuns(m, front);
      RunAppend(m, RemovedCleaning(front), [CleanRemoved(x)]);
      RunOne(Run(m, RemovedCleaning(front)).value, CleanRemoved(x));
    } else {
      NothingTaken(m.removing, m.cleaned);
    }
  }

  // ---------------------------------------------------------------- Close can always be finished

  lemma {:induction false} Listed(s: multiset<nat>) returns (xs: seq<nat>)
    ensures multiset(xs) == s
    decreases |s|
  {
    xs := [];
    if s != multiset{} {
      var x :| x in s;
      var front := Listed(s - multiset{x});
      xs := front + [x];
    }
  }

  /** The reaper ends the pass it is in. */
  lemma PassEnds(m: Manager) returns (more: seq<Action>)
    requires m.reaping != multiset{} ==> m.reaper.Cleaning?
    ensures Run(m, more).Some?
    ensures var end := Run(m, more).value;
            end.reaping == multiset{} && (end.reaper.Idle? || end.reaper.Stopped?) && end.closing == m.closing
            && (m.reaper.Stopped? ==> end.reaper.Stopped?)
  {
    more := [];
    if m.reaper.Cleaning? {
      more := CleaningEnds(m);
    } else if m.reaper.Sampled? {
      var taken := Next(m, ReaperTakes).value;
      var later := CleaningEnds(taken);
      RunOne(m, ReaperTakes);
      hide Next;
      RunAppend(m, [ReaperTakes], later);
      more := [ReaperTakes] + later;
    }
  }

  lemma CleaningEnds(m: Manager) returns (more: seq<Action>)
    requires m.reaper.Cleaning?
    ensures Run(m, more) == Some(m.(reaping := multiset{}, cleaned := m.cleaned + m.reaping, reaper := Idle))
  {
    var xs := Listed(m.reaping);
    ReaperCleaningRuns(m, xs);
    var clean := Run(m, ReaperCleaning(xs)).value;
    assert clean.reaping == multiset{};
    RunOne(clean, ReaperRests);
    RunAppend(m, ReaperCleaning(xs), [ReaperRests]);
    more := ReaperCleaning(xs) + [ReaperRests];
  }

  /** Close stops the reaper, which goes, and takes over what is in the map. */
  lemma SwapComes(m: Manager) returns (more: seq<Action>)
    requires m.reaper.Idle? || m.reaper.Stopped?
    requires m.closing.Swapped? ==> m.reaper.Stopped?
    ensures Run(m, more).Some?
    ensures var end := Run(m, more).value;
            end.closing.Swapped? && end.reaper.Stopped? && end.reaping == m.reaping
  {
    if m.closing.Swapped? {
      more := [];
    } else {
      var stopping := m.(closing := Stopping);
      var stop: seq<Action> := if m.closing.Open? then [CloseStopsReaper] else [];
      RunOne(m, CloseStopsReaper);
      assert Run(m, stop) == Some(stopping);
      var gone := stopping.(reaper := Stopped);
      var go: seq<Action> := if m.reaper.Idle? then [ReaperStops] else [];
      RunOne(stopping, ReaperStops);
      assert Run(stopping, go) == Some(gone);
      RunOne(gone, CloseSwaps);
      assert Run(gone, [CloseSwaps]).Some?;
      hide Next;
      RunAppend(m, stop, go);
      RunAppend(m, stop + go, [CloseSwaps]);
      more := stop + go + [CloseSwaps];
    }
  }

  /** All cleanups that are outstanding are done. */
  lemma CleanupsEnd(m: Manager) returns (more: seq<Action>)
    requires m.closing.Swapped?
    ensures Run(m, more)
         == Some(m.(closed := multiset{}, removing := multiset{}, cleaned := m.cleaned + m.closed + m.removing))
  {
    var xs := Listed(m.closed);
    var ys := Listed(m.removing);
    CloseCleaningRuns(m, xs);
    var half := m.(closed := multiset{}, cleaned := m.cleaned + m.closed);
    assert Run(m, CloseCleaning(xs)) == Some(half);
    RemovedCleaningRuns(half, ys);
    RunAppend(m, CloseCleaning(xs), RemovedCleaning(ys));
    more := CloseCleaning(xs) + RemovedCleaning(ys);
  }

  /**
   Nothing can get stuck: from every state of every run some continuation ends with the manager closed, the reaper gone
   and no cleanup outstanding, so that every state ever created and out of the map is cleaned up exactly once.
   */
  lemma CloseCanFinish(start: Manager, trace: seq<Action>) returns (more: seq<Action>)
    requires Init(start) && Run(start, trace).Some?
    ensures Run(start, trace + more).Some?
    ensures var end := Run(start, trace + more).value;
            && end.closing.Swapped? && end.reaper.Stopped?
            && end.removing == end.reaping == end.closed == multiset{}
            && forall x: nat :: x < |end.owner| && !Live(end, x) ==> end.cleaned[x] == 1
  {
    ReachableIsRight(start, trace);
    var m := Run(start, trace).value;
    hide Next, Run, Accounted, Timely, Live, Init;
    var a := PassEnds(m);
    var ended := Run(m, a).value;
    var b := SwapComes(ended);
    var swapped := Run(ended, b).value;
    var c := CleanupsEnd(swapped);
    RunAppend(m, a, b);
    RunAppend(m, a + b, c);
    more := a + b + c;
    RunAppend(start, trace, more);
    var end := Run(start, trace + more).value;
    forall x: nat | x < |end.owner| && !Live(end, x) ensures end.cleaned[x] == 1 {
      CleanedAtMostOnce(start, trace + more, x);
    }
  }

  lemma {:induction false} OnceEach(xs: seq<nat>, s: set<nat>)
    requires Distinct(xs) && forall x :: x in xs <==> x in s
    ensures multiset(xs) == multiset(s)
  {
    if xs != [] {
      var n := |xs| - 1;
      assert xs == xs[..n] + [xs[n]];
      forall x ensures x in xs[..n] <==> x in s - {xs[n]} {
        if x in xs[..n] {
          var i :| 0 <= i < n && xs[i] == x;
        }
      }
      OnceEach(xs[..n], s - {xs[n]});
      assert s == (s - {xs[n]}) + {xs[n]};
    } else {
      assert s == {};
    }
  }

  // ---------------------------------------------------------------- the machine and the code

  /** A map of sessions, and the states made so far in the order of their creation, in the state `m` of the machine. */
  ghost predicate Shows(sessions: map<string, SessionState>, m: Manager, states: seq<SessionState>)
    reads states
  {
    && |states| == |m.lastActivity| && Linked(sessions, m, states)
    && forall x ::
        0 <= x < |states| ==> states[x].lastActivity == m.lastActivity[x] && states[x].cleanups == m.cleaned[x]
  }

  /** The same states in the same places. */
  ghost predicate Linked(sessions: map<string, SessionState>, m: Manager, states: seq<SessionState>) {
    && Accounted(m) && |states| == |m.owner| && Distinct(states)
    && sessions.Keys == m.sessions.Keys
    && (forall id :: id in sessions ==> m.sessions[id] < |states| && sessions[id] == states[m.sessions[id]])
  }

  lemma CreatedShows(sessions: map<string, SessionState>, id: string, state: SessionState, m: Manager,
                     states: seq<SessionState>)
    requires Shows(sessions, m, states) && id !in sessions && state !in states
    requires state.lastActivity == m.now && state.cleanups == 0
    ensures Shows(sessions[id := state], Next(m, Create(id)).value, states + [state])
  {
    AccountedStep(m, Create(id));
    assert Places(m, |m.owner|) == 0;
    hide Accounted;
  }

  lemma KnownShows(sessions: map<string, SessionState>, id: string, m: Manager, states: seq<SessionState>)
    requires id in sessions
    ensures Shows(sessions, m, states) ==> Shows(sessions, Next(m, Create(id)).value, states)
  {
  }

  /** Where the states are that a pass or a `Close` has taken. */
  lemma IndicesOf(sessions: map<string, SessionState>, ids: set<string>, taken: seq<SessionState>, m: Manager,
                  states: seq<SessionState>)
    returns (xs: seq<nat>)
    requires Shows(sessions, m, states) && ids <= sessions.Keys && Distinct(taken)
    requires forall s :: s in taken <==> exists id :: id in ids && sessions[id] == s
    ensures multiset(xs) == multiset(StatesOf(m, ids)) && Distinct(xs)
    ensures Indexes(xs, states, taken)
  {
    xs := [];
    for k := 0 to |taken|
      invariant |xs| == k && forall i :: 0 <= i < k ==> xs[i] < |states| && states[xs[i]] == taken[i]
    {
      assert taken[k] in taken;
      var id :| id in ids && sessions[id] == taken[k];
      xs := xs + [m.sessions[id]];
    }
    forall x: nat ensures x in xs <==> x < |states| && states[x] in taken {
      if x < |states| && states[x] in taken {
        var k :| 0 <= k < |taken| && taken[k] == states[x];
        assert states[xs[k]] == states[x];
        assert xs[k] in xs;
      }
    }
    forall x ensures x in xs <==> x in StatesOf(m, ids) {
      if x in xs {
        var id :| id in ids && sessions[id] == states[x];
        assert states[m.sessions[id]] == states[x];
      }
      if x in StatesOf(m, ids) {
        var id :| id in ids && m.sessions[id] == x;
        assert sessions[id] == states[x];
      }
    }
    OnceEach(xs, StatesOf(m, ids));
  }

  lemma SwappedShows(sessions: map<string, SessionState>, m: Manager, states: seq<SessionState>)
    requires Shows(sessions, m, states) && m.closing.Stopping? && m.reaper.Stopped?
    ensures Next(m, CloseSwaps).Some? && Shows(map[], Next(m, CloseSwaps).value, states)
    ensures Accounted(m) && sessions.Keys == m.sessions.Keys
  {
    AccountedStep(m, CloseSwaps);
    hide Accounted;
  }

  /** What cleaning up the states at `xs` does to the machine, as far as the code shows. */
  ghost predicate Cleaned(m: Manager, after: Manager, xs: seq<nat>) {
    && Accounted(after) && Distinct(xs) && after.cleaned == m.cleaned + multiset(xs)
    && after.sessions == m.sessions && after.owner == m.owner && after.lastActivity == m.lastActivity
  }

  lemma CleanedShows(sessions: map<string, SessionState>, m: Manager, after: Manager, xs: seq<nat>,
                     states: seq<SessionState>)
    requires Linked(sessions, m, states) && Cleaned(m, after, xs)
    requires forall x :: 0 <= x < |states| ==>
               states[x].lastActivity == m.lastActivity[x]
                   && states[x].cleanups == m.cleaned[x] + if x in xs then 1 else 0
    ensures Shows(sessions, after, states)
  {
    forall x | 0 <= x < |states| ensures states[x].cleanups == after.cleaned[x] {
      CountedOnce(xs, x);
    }
    hide Places;
  }

  /** `CleanUp`, and what it means for the machine. */
  method CleanUpTaken(taken: seq<SessionState>, ghost sessions: map<string, SessionState>, ghost m: Manager,
                      ghost after: Manager,
                      ghost xs: seq<nat>, ghost states: seq<SessionState>)
    requires forall i, j :: 0 <= i < j < |taken| ==> taken[i] != taken[j]
    modifies taken
    ensures forall s :: s in taken ==> s.cleanups == old(s.cleanups) + 1 && s.lastActivity == old(s.lastActivity)
    ensures old(Shows(sessions, m, states)) && Indexes(xs, states, taken) && Cleaned(m, after, xs) ==>
        Shows(sessions, after, states)
  {
    hide Linked, Cleaned;
    CleanUp(taken, xs, states);
    if old(Shows(sessions, m, states)) && Indexes(xs, states, taken) && Cleaned(m, after, xs) {
      CleanedShows(sessions, m, after, xs, states);
    }
  }

  lemma {:induction false} CountedOnce(xs: seq<nat>, x: nat)
    requires Distinct(xs)
    ensures multiset(xs)[x] == if x in xs then 1 else 0
  {
    if xs != [] {
      var n := |xs| - 1;
      CountedOnce(xs[..n], x);
      assert xs == xs[..n] + [xs[n]];
    }
  }

  /** A pass of the reaper with its cleanups is a run of the machine. */
  lemma ReapingRuns(m: Manager, xs: seq<nat>)
    requires Accounted(m) && m.reaper.Sampled? && multiset(xs) == multiset(StatesOf(m, StaleIds(m, m.reaper.at)))
    requires Distinct(xs)
    ensures var end := Run(m, [ReaperTakes] + ReaperCleaning(xs));
            Next(m, ReaperTakes).Some? && end.Some? && end.value.reaping == m.reaping && end.value.ttl == m.ttl
                && Cleaned(Next(m, ReaperTakes).value, end.value, xs)
  {
    var taken := Next(m, ReaperTakes).value;
    RunOne(m, ReaperTakes);
    AccountedStep(m, ReaperTakes);
    assert taken.reaping - multiset(xs) == m.reaping;
    ReaperCleaningRuns(taken, xs);
    hide Next, Accounted;
    RunAppend(m, [ReaperTakes], ReaperCleaning(xs));
    AccountedRun(taken, ReaperCleaning(xs));
  }

  /** And so is the end of `Close`. */
  lemma ClosingRuns(m: Manager, xs: seq<nat>)
    requires Accounted(m) && m.closing.Stopping? && m.reaper.Stopped?
        && multiset(xs) == multiset(StatesOf(m, m.sessions.Keys))
    requires Distinct(xs)
    ensures var end := Run(m, [CloseSwaps] + CloseCleaning(xs));
            end.Some? && end.value.closed == m.closed && end.value.ttl == m.ttl
                && Cleaned(Next(m, CloseSwaps).value, end.value, xs)
  {
    hide Next, Accounted, Run, StatesOf;
    SwapTakesAll(m, xs);
    var taken := Next(m, CloseSwaps).value;
    RunOne(m, CloseSwaps);
    AccountedStep(m, CloseSwaps);
    CloseCleaningRuns(taken, xs);
    RunAppend(m, [CloseSwaps], CloseCleaning(xs));
    AccountedRun(taken, CloseCleaning(xs));
  }

  lemma SwapTakesAll(m: Manager, xs: seq<nat>)
    requires m.closing.Stopping? && m.reaper.Stopped? && multiset(xs) == multiset(StatesOf(m, m.sessions.Keys))
    ensures var taken := Next(m, CloseSwaps);
            && taken.Some? && taken.value.ttl == m.ttl && taken.value.closing.Swapped?
            && multiset(xs) <= taken.value.closed && taken.value.closed - multiset(xs) == m.closed
  {
    hide StatesOf;
  }

  lemma IdleIsStale(sessions: map<string, SessionState>, ids: set<string>, now: int, m: Manager,
                    states: seq<SessionState>)
    requires Shows(sessions, m, states)
    requires forall id :: id in ids <==> id in sessions && now - sessions[id].lastActivity > m.ttl
    ensures ids == StaleIds(m, now) && Accounted(m)
  {
    hide Accounted;
    forall id ensures id in ids <==> id in StaleIds(m, now) {
      assert id in sessions <==> id in m.sessions;
    }
  }

  lemma TakenShows(sessions: map<string, SessionState>, gone: set<string>, now: int, m: Manager,
                   states: seq<SessionState>)
    requires Shows(sessions, m, states) && m.reaper == Sampled(now)
    requires forall id :: id in gone <==> id in sessions && now - sessions[id].lastActivity > m.ttl
    ensures Shows(sessions - gone, Next(m, ReaperTakes).value, states)
  {
    AccountedStep(m, ReaperTakes);
    IdleIsStale(sessions, gone, now, m, states);
    hide Accounted, StaleIds;
  }

  class SessionManager {
    var sessions: map<string, SessionState>
    const ttl: int

    constructor (ttl: int)
      ensures sessions == map[] && this.ttl == ttl
    {
      sessions := map[];
      this.ttl := ttl;
    }

    /** Different ids have different states. */
    ghost predicate Valid()
      reads this
    {
      forall a, b :: a in sessions && b in sessions && a != b ==> sessions[a] != sessions[b]
    }

    /** The manager, and the states made so far in the order of their creation, are in the state `m` of the machine. */
    ghost predicate Represents(m: Manager, states: seq<SessionState>)
      reads this, states
    {
      m.ttl == ttl && Shows(sessions, m, states)
    }

    predicate Idle(id: string, now: int)
      requires id in sessions
      reads this, sessions[id]
    {
      now - sessions[id].lastActivity > ttl
    }

    method CreateSession(id: string, now: int, ghost m: Manager, ghost states: seq<SessionState>)
      requires Valid()
      modifies this
      ensures Valid()
      ensures id in old(sessions) ==> sessions == old(sessions)
      ensures id !in old(sessions) ==>
                id in sessions && sessions - {id} == old(sessions) && fresh(sessions[id])
                && sessions[id].lastActivity == now && sessions[id].cleanups == 0
      ensures old(Represents(m, states)) && m.now == now ==>
                Represents(Next(m, Create(id)).value, if id in old(sessions) then states else states + [sessions[id]])
    {
      hide Shows;
      ghost var shown := m.ttl == ttl && Shows(sessions, m, states);
      if id in sessions {
        KnownShows(sessions, id, m, states);
      } else {
        var state := new SessionState(now);
        if shown && m.now == now {
          CreatedShows(sessions, id, state, m, states);
        }
        assert forall k :: k in sessions ==> sessions[k] != state;
        sessions := sessions[id := state];
      }
    }

    method GetSession(id: string, now: int, ghost m: Manager, ghost states: seq<SessionState>)
        returns (state: SessionState?)
      requires Valid()
      modifies if id in sessions then {sessions[id]} else {}
      ensures Valid() && sessions == old(sessions)
      ensures state == if id in sessions then sessions[id] else null
      ensures state != null ==> state.lastActivity == now && state.cleanups == old(sessions[id].cleanups)
      ensures old(Represents(m, states)) && m.now == now ==> Represents(Next(m, Touch(id)).value, states)
    {
      if Represents(m, states) {
        AccountedStep(m, Touch(id));
      }
      state := null;
      if id in sessions {
        state := sessions[id];
        state.lastActivity := now;
      }
    }

    method RemoveSession(id: string, ghost m: Manager, ghost states: seq<SessionState>)
      requires Valid()
      modifies this, if id in sessions then {sessions[id]} else {}
      ensures Valid() && sessions == old(sessions) - {id}
      ensures id in old(sessions) ==> old(sessions)[id].cleanups == old(sessions[id].cleanups) + 1
      ensures old(Represents(m, states)) ==>
                var taken := Next(m, Remove(id)).value;
                if id in old(sessions) then
                  Next(taken, CleanRemoved(m.sessions[id])).Some?
                      && Represents(Next(taken, CleanRemoved(m.sessions[id])).value, states)
                else Represents(taken, states)
    {
      if Represents(m, states) {
        RemovalSteps(m, id);
      }
      if id !in sessions {
        assert sessions - {id} == sessions;
        return;
      }
      var state := sessions[id];
      sessions := sessions - {id};
      CleanUp([state], [], []);
    }

    /** The loop over the map, in any order, that takes out the idle sessions. */
    method TakeIdle(now: int, ghost m: Manager, ghost states: seq<SessionState>) returns (stale: seq<SessionState>)
      requires Valid()
      modifies this
      ensures Valid()
      ensures sessions == map id | id in old(sessions) && !old(Idle(id, now)) :: old(sessions)[id]
      ensures forall i, j :: 0 <= i < j < |stale| ==> stale[i] != stale[j]
      ensures forall id :: id in old(sessions) ==> (old(sessions)[id] in stale <==> old(Idle(id, now)))
      ensures forall s :: s in stale ==> exists id :: id in old(sessions) && old(sessions)[id] == s
      ensures old(Represents(m, states)) && m.reaper == Sampled(now) ==> Represents(Next(m, ReaperTakes).value, states)
    {
      hide Shows;
      stale := [];
      ghost var before := sessions;
      ghost var gone: set<string> := {};
      assert before - gone == before;
      var left := sessions.Keys;
      while left != {}
        invariant left <= before.Keys
        invariant sessions == before - gone
        invariant forall id :: id in gone <==> id in before && id !in left && now - before[id].lastActivity > ttl
        invariant forall i, j :: 0 <= i < j < |stale| ==> stale[i] != stale[j]
        invariant forall id :: id in before ==> (before[id] in stale <==> id in gone)
        invariant forall s :: s in stale ==> exists id :: id in before && before[id] == s
        decreases left
      {
        var id :| id in left;
        left := left - {id};
        if now - sessions[id].lastActivity > ttl {
          stale := stale + [sessions[id]];
          assert before - (gone + {id}) == (before - gone) - {id};
          sessions := sessions - {id};
          gone := gone + {id};
        }
      }
      if old(Represents(m, states)) && m.reaper == Sampled(now) {
        TakenShows(before, gone, now, m, states);
      }
    }

    /** `reapStaleSessions`: exactly the idle sessions go, each cleaned up once; the others stay as they are. */
    method ReapStaleSessions(now: int, ghost m: Manager, ghost states: seq<SessionState>)
        returns (ghost cleaned: seq<nat>)
      requires Valid()
      modifies this, sessions.Values
      ensures Valid()
      ensures sessions == map id | id in old(sessions) && !old(Idle(id, now)) :: old(sessions)[id]
      ensures forall id :: id in old(sessions) ==>
                old(sessions)[id].cleanups == old(sessions[id].cleanups) + if old(Idle(id, now)) then 1 else 0
      ensures forall id :: id in old(sessions) ==> old(sessions)[id].lastActivity == old(sessions[id].lastActivity)
      ensures old(Represents(m, states)) && m.reaper == Sampled(now) ==>
                var end := Run(m, [ReaperTakes] + ReaperCleaning(cleaned));
                end.Some? && end.value.reaping == m.reaping && Represents(end.value, states)
    {
      hide Shows, Run, Next, StaleIds, StatesOf, ReaperCleaning;
      ghost var before := sessions;
      ghost var idle := set id | id in before && Idle(id, now);
      ghost var stands := m.ttl == ttl && Shows(sessions, m, states) && m.reaper == Sampled(now);
      if stands {
        IdleIsStale(before, idle, now, m, states);
      }
      var stale := TakeIdle(now, m, states);
      assert forall s :: s in stale ==> s in before.Values;
      cleaned := [];
      if stands {
        cleaned := IndicesOf(before, idle, stale, m, states);
        ReapingRuns(m, cleaned);
      }
      ghost var end := Run(m, [ReaperTakes] + ReaperCleaning(cleaned));
      CleanUpTaken(stale, sessions, if stands then Next(m, ReaperTakes).value else m, if stands then end.value else m,
                   cleaned, states);
    }

    /** The part of Close after the reaper has stopped: every session in the map is cleaned up once. */
    method CloseSessions(ghost m: Manager, ghost states: seq<SessionState>) returns (ghost cleaned: seq<nat>)
      requires Valid()
      modifies this, sessions.Values
      ensures sessions == map[]
      ensures forall id :: id in old(sessions) ==> old(sessions)[id].cleanups == old(sessions[id].cleanups) + 1
      ensures old(Represents(m, states)) && m.closing.Stopping? && m.reaper.Stopped? ==>
                var end := Run(m, [CloseSwaps] + CloseCleaning(cleaned));
                end.Some? && end.value.closed == m.closed && Represents(end.value, states)
    {
      hide Shows, Run, Next, StatesOf, CloseCleaning;
      ghost var stands := m.ttl == ttl && Shows(sessions, m, states) && m.closing.Stopping? && m.reaper.Stopped?;
      var taken := sessions;
      sessions := map[];
      var all := ListStates(taken);
      assert forall s :: s in all ==> s in taken.Values;
      cleaned := [];
      if stands {
        SwappedShows(taken, m, states);
        cleaned := IndicesOf(taken, taken.Keys, all, m, states);
        ClosingRuns(m, cleaned);
      }
      ghost var end := Run(m, [CloseSwaps] + CloseCleaning(cleaned));
      CleanUpTaken(all, map[], if stands then Next(m, CloseSwaps).value else m, if stands then end.value else m,
                   cleaned, states);
    }
  }

  /** The loop over the map that was taken, in any order. */
  method ListStates(taken: map<string, SessionState>) returns (states: seq<SessionState>)
    requires forall a, b :: a in taken && b in taken && a != b ==> taken[a] != taken[b]
    ensures Distinct(states)
    ensures forall s :: s in states <==> exists id :: id in taken && taken[id] == s
  {
    states := [];
    var left := taken.Keys;
    while left != {}
      invariant left <= taken.Keys
      invariant Distinct(states)
      invariant forall id :: id in taken ==> (taken[id] in states <==> id !in left)
      invariant forall s :: s in states ==> exists id :: id in taken && taken[id] == s
      decreases left
    {
      var id :| id in left;
      left := left - {id};
      states := states + [taken[id]];
    }
  }
}
