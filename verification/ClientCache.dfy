/**
 The client cache (client_cache.go) under concurrent use: a read-locked fast path, a single flight per
 flight key, a second look, an unlocked creation and a locked store; and `Close`, at any moment.

 A call is a little machine; an action of the system is one atomic step of one call, or a `Close`.
 Clients are numbered in the order in which they are created.
 */
module ClientCache {
  import opened Common
  import opened Decimal

  datatype Key = Key(url: string, apiKey: string, username: string, password: string, orgId: int)

  /** How keys are grouped into flights. */
  type FlightKey = Key -> string

  type Client = nat

  /** The call that runs the flight's function: before the second look, before creating, before storing, done. */
  datatype Stage = Checking | Creating | Created(client: Client) | Finished(client: Client, stored: bool)

  datatype Call =
    | Looking(key: Key)
    | Hit(key: Key, client: Client)
    | Missed(key: Key)
    | Leader(key: Key, flight: nat, stage: Stage)
    | Waiting(key: Key, flight: nat)
    | Returned(key: Key, client: Client, counted: Counted)

  /** Which counter a finished call has bumped. */
  datatype Counted = AsHit | AsMiss | NotCounted

  datatype Event = Stored(key: Key, client: Client) | Closed

  datatype State = State(
    cache: map<Key, Client>,
    calls: map<nat, Call>,
    flights: map<string, nat>,      // running flights
    landed: map<nat, Client>,       // results of finished flights
    flightKeys: seq<string>,        // flight key of every flight so far
    created: seq<Key>,              // key every client was created for
    log: seq<Event>,
    lookups: nat, hits: nat, misses: nat)

  const INITIAL := State(map[], map[], map[], map[], [], [], [], 0, 0, 0)

  datatype Action =
    | Begin(call: nat, key: Key)
    | FastPath(call: nat)
    | CountHit(call: nat)
    | EnterFlight(call: nat)
    | SecondLook(call: nat)
    | Create(call: nat)
    | Store(call: nat)
    | Land(call: nat)
    | Wake(call: nat)
    | Close

  /** The state after an action, if the action can happen. */
  function Next(sf: FlightKey, s: State, a: Action): Option<State> {
    match a
    case Begin(t, k) =>
      if t in s.calls then None
      else Some(s.(calls := s.calls[t := Looking(k)], lookups := s.lookups + 1))
    case Close =>
      Some(s.(cache := map[], log := s.log + [Closed]))
    case _ =>
      if a.call !in s.calls then None else Advance(sf, s, a, a.call, s.calls[a.call])
  }

  /** One step of the call `t`, which is in the state `c`. */
  function Advance(sf: FlightKey, s: State, a: Action, t: nat, c: Call): Option<State> {
    match (a, c)
    case (FastPath(_), Looking(k)) =>
      Some(s.(calls := s.calls[t := if k in s.cache then Hit(k, s.cache[k]) else Missed(k)]))
    case (CountHit(_), Hit(k, client)) =>
      Some(s.(calls := s.calls[t := Returned(k, client, AsHit)], hits := s.hits + 1))
    case (EnterFlight(_), Missed(k)) =>
      if sf(k) in s.flights then Some(s.(calls := s.calls[t := Waiting(k, s.flights[sf(k)])]))
      else Some(s.(calls := s.calls[t := Leader(k, |s.flightKeys|, Checking)],
                   flights := s.flights[sf(k) := |s.flightKeys|], flightKeys := s.flightKeys + [sf(k)]))
    case (SecondLook(_), Leader(k, f, Checking)) =>
      Some(s.(calls := s.calls[t := Leader(k, f, if k in s.cache then Finished(s.cache[k], false) else Creating)]))
    case (Create(_), Leader(k, f, Creating)) =>
      Some(s.(calls := s.calls[t := Leader(k, f, Created(|s.created|))], created := s.created + [k]))
    case (Store(_), Leader(k, f, Created(client))) =>
      Some(s.(calls := s.calls[t := Leader(k, f, Finished(client, true))],
              cache := s.cache[k := client], log := s.log + [Stored(k, client)], misses := s.misses + 1))
    case (Land(_), Leader(k, f, Finished(client, stored))) =>
      Some(s.(calls := s.calls[t := Returned(k, client, if stored then AsMiss else NotCounted)],
              flights := s.flights - {sf(k)}, landed := s.landed[f := client]))
    case (Wake(_), Waiting(k, f)) =>
      if f in s.landed then Some(s.(calls := s.calls[t := Returned(k, s.landed[f], NotCounted)])) else None
    case _ => None
  }

  /** The state after a sequence of actions of any number of calls, interleaved in any way. */
  function Run(sf: FlightKey, actions: seq<Action>): Option<State> {
    if actions == [] then Some(INITIAL)
    else
      var n := |actions| - 1;
      match Run(sf, actions[..n])
      case None => None
      case Some(s) => Next(sf, s, actions[n])
  }

  lemma OneMoreAction(sf: FlightKey, actions: seq<Action>, a: Action, s: State)
    requires Run(sf, actions) == Some(s)
    ensures Run(sf, actions + [a]) == Next(sf, s, a)
  {
    assert (actions + [a])[..|actions|] == actions;
  }

  /**
   After any run: a new call for a cached key takes the cached client and counts as a hit, without a flight or another
   client; and a new call for a key that is not cached goes on to a flight.
   */
  lemma CachedIsHit(sf: FlightKey, actions: seq<Action>, s: State, t: nat, k: Key)
    requires Run(sf, actions) == Some(s) && t !in s.calls
    ensures var after := Run(sf, actions + [Begin(t, k)] + [FastPath(t)] + [CountHit(t)]);
            k in s.cache ==> after == Some(s.(calls := s.calls[t := Returned(k, s.cache[k], AsHit)],
                                              lookups := s.lookups + 1, hits := s.hits + 1))
    ensures var after := Run(sf, actions + [Begin(t, k)] + [FastPath(t)]);
            k !in s.cache ==> after == Some(s.(calls := s.calls[t := Missed(k)], lookups := s.lookups + 1))
  {
    hide Run;
    OneMoreAction(sf, actions, Begin(t, k), s);
    var begun := Next(sf, s, Begin(t, k)).value;
    OneMoreAction(sf, actions + [Begin(t, k)], FastPath(t), begun);
    var looked := Next(sf, begun, FastPath(t)).value;
    assert begun.calls[t := Missed(k)] == s.calls[t := Missed(k)];
    if k in s.cache {
      OneMoreAction(sf, actions + [Begin(t, k)] + [FastPath(t)], CountHit(t), looked);
      var c := s.cache[k];
      assert looked.calls[t := Returned(k, c, AsHit)] == s.calls[t := Returned(k, c, AsHit)];
    }
  }

  ghost predicate Reachable(sf: FlightKey, s: State) {
    exists actions :: Run(sf, actions) == Some(s)
  }

  // ---------------------------------------------------------------- the invariant

  /** A leader owns the running flight of its flight key, and there is one leader per running flight. */
  ghost predicate FlightsOwned(sf: FlightKey, s: State) {
    && (forall t :: t in s.calls && s.calls[t].Leader? ==>
          sf(s.calls[t].key) in s.flights && s.flights[sf(s.calls[t].key)] == s.calls[t].flight)
    && (forall t, u :: t in s.calls && u in s.calls && t != u && s.calls[t].Leader? && s.calls[u].Leader? ==>
          sf(s.calls[t].key) != sf(s.calls[u].key))
    && (forall x ::
        x in s.flights ==>
        s.flights[x] < |s.flightKeys| && s.flightKeys[s.flights[x]] == x && s.flights[x] !in s.landed)
    && (forall x :: x in s.flights ==> exists t :: t in s.calls && s.calls[t].Leader? && sf(s.calls[t].key) == x)
  }

  /** Between the second look and the store, nobody else fills the leader's entry. */
  ghost predicate EntriesFree(s: State) {
    forall t :: t in s.calls && s.calls[t].Leader? && (s.calls[t].stage.Creating? || s.calls[t].stage.Created?) ==>
      s.calls[t].key !in s.cache
  }

  /** Clients sit under the key they were created for, and travel only within their flight key. */
  ghost predicate Provenance(sf: FlightKey, s: State) {
    && (forall k :: k in s.cache ==> Made(s, s.cache[k], k))
    && (forall f :: f in s.landed ==>
          f < |s.flightKeys| && s.landed[f] < |s.created| && sf(s.created[s.landed[f]]) == s.flightKeys[f])
    && (forall t :: t in s.calls ==> CallProvenance(sf, s, s.calls[t]))
  }

  predicate Made(s: State, client: Client, k: Key) {
    client < |s.created| && s.created[client] == k
  }

  predicate CallProvenance(sf: FlightKey, s: State, c: Call) {
    match c
    case Looking(_) => true
    case Missed(_) => true
    case Hit(k, client) => Made(s, client, k)
    case Leader(k, f, stage) =>
      match stage {
        case Created(client) => Made(s, client, k)
        case Finished(client, _) => Made(s, client, k)
        case _ => true
      }
    case Waiting(k, f) =>
      f < |s.flightKeys| && s.flightKeys[f] == sf(k) && (f in s.landed || (sf(k) in s.flights && s.flights[sf(k)] == f))
    case Returned(k, client, _) => client < |s.created| && sf(s.created[client]) == sf(k)
  }

  function HitCalls(s: State): set<nat> {
    set t | t in s.calls && IsHit(s.calls[t])
  }

  predicate IsHit(c: Call) {
    c.Returned? && c.counted == AsHit
  }

  predicate HasStored(c: Call) {
    (c.Returned? && c.counted == AsMiss) || (c.Leader? && c.stage.Finished? && c.stage.stored)
  }

  function MissCalls(s: State): set<nat> {
    set t | t in s.calls && HasStored(s.calls[t])
  }

  function StoreCount(log: seq<Event>): nat {
    if log == [] then 0 else StoreCount(log[..|log| - 1]) + if log[|log| - 1].Stored? then 1 else 0
  }

  /** The counters count: calls, calls that hit, and calls that stored, which are the stores. */
  ghost predicate CountersRight(s: State) {
    && s.lookups == |s.calls|
    && s.hits == |HitCalls(s)|
    && s.misses == |MissCalls(s)| == StoreCount(s.log)
  }

  /** Keys stored since the last `Close`. */
  function StoredSinceClose(log: seq<Event>): set<Key> {
    if log == [] then {}
    else match log[|log| - 1]
      case Closed => {}
      case Stored(k, _) => StoredSinceClose(log[..|log| - 1]) + {k}
  }

  /** Between two closes a key is stored at most once. */
  ghost predicate StoredOncePerEpoch(log: seq<Event>) {
    forall i, j :: 0 <= i < j < |log| && log[i].Stored? && log[j].Stored? && log[i].key == log[j].key ==>
      exists m :: i < m < j && log[m].Closed?
  }

  ghost predicate Inv(sf: FlightKey, s: State) {
    && FlightsOwned(sf, s) && EntriesFree(s) && Provenance(sf, s) && CountersRight(s)
    && s.cache.Keys == StoredSinceClose(s.log) && StoredOncePerEpoch(s.log)
  }

  predicate SameLeadership(c: Call, d: Call) {
    (c.Leader? || d.Leader?) ==> c.Leader? && d.Leader? && c.key == d.key && c.flight == d.flight
  }

  /** Steps that keep all leaders and flights keep them owned. */
  lemma FlightsUnmoved(sf: FlightKey, s: State, s2: State)
    requires FlightsOwned(sf, s)
    requires s2.flights == s.flights && s2.landed == s.landed && s2.flightKeys == s.flightKeys
    requires s.calls.Keys <= s2.calls.Keys
    requires forall t ::
        t in s2.calls ==> if t in s.calls then SameLeadership(s.calls[t], s2.calls[t]) else !s2.calls[t].Leader?
    ensures FlightsOwned(sf, s2)
  {
    forall x | x in s2.flights
      ensures exists t :: t in s2.calls && s2.calls[t].Leader? && sf(s2.calls[t].key) == x
    {
      var t :| t in s.calls && s.calls[t].Leader? && sf(s.calls[t].key) == x;
      assert t in s2.calls && s2.calls[t].Leader?;
    }
  }

  lemma TookOff(sf: FlightKey, s: State, t: nat, k: Key)
    requires t in s.calls && s.calls[t] == Missed(k) && sf(k) !in s.flights
    ensures Next(sf, s, EnterFlight(t)).Some?
    ensures var s2 := Next(sf, s, EnterFlight(t)).value;
            && s2.calls == s.calls[t := Leader(k, |s.flightKeys|, Checking)]
            && s2.flights == s.flights[sf(k) := |s.flightKeys|] && s2.landed == s.landed
            && s2.flightKeys == s.flightKeys + [sf(k)]
  {
  }

  lemma FlightsTakeOff(sf: FlightKey, s: State, t: nat, k: Key)
    requires FlightsOwned(sf, s) && t in s.calls && s.calls[t] == Missed(k) && sf(k) !in s.flights
    requires forall f :: f in s.landed ==> f < |s.flightKeys|
    ensures FlightsOwned(sf, Next(sf, s, EnterFlight(t)).value)
  {
    hide Next;
    TookOff(sf, s, t, k);
    var s2 := Next(sf, s, EnterFlight(t)).value;
    forall x | x in s2.flights
      ensures exists u :: u in s2.calls && s2.calls[u].Leader? && sf(s2.calls[u].key) == x
    {
      if x != sf(k) {
        var u :| u in s.calls && s.calls[u].Leader? && sf(s.calls[u].key) == x;
        assert s2.calls[u] == s.calls[u];
      } else {
        assert s2.calls[t].Leader?;
      }
    }
  }

  lemma Landed(sf: FlightKey, s: State, t: nat)
    requires t in s.calls && s.calls[t].Leader? && s.calls[t].stage.Finished?
    ensures Next(sf, s, Land(t)).Some?
    ensures var s2, c := Next(sf, s, Land(t)).value, s.calls[t];
            && s2.calls == s.calls[t := Returned(c.key, c.stage.client, if c.stage.stored then AsMiss else NotCounted)]
            && s2.flights == s.flights - {sf(c.key)} && s2.landed == s.landed[c.flight := c.stage.client]
            && s2.flightKeys == s.flightKeys
  {
  }

  lemma FlightsLand(sf: FlightKey, s: State, t: nat)
    requires FlightsOwned(sf, s) && t in s.calls && s.calls[t].Leader? && s.calls[t].stage.Finished?
    ensures FlightsOwned(sf, Next(sf, s, Land(t)).value)
  {
    hide Next;
    Landed(sf, s, t);
    var s2 := Next(sf, s, Land(t)).value;
    var x0 := sf(s.calls[t].key);
    forall x | x in s2.flights
      ensures s2.flights[x] !in s2.landed
      ensures exists u :: u in s2.calls && s2.calls[u].Leader? && sf(s2.calls[u].key) == x
    {
      assert s.flightKeys[s.flights[x]] == x && s.flightKeys[s.flights[x0]] == x0;
      var u :| u in s.calls && s.calls[u].Leader? && sf(s.calls[u].key) == x;
      assert s2.calls[u] == s.calls[u];
    }
  }

  lemma FlightsStep(sf: FlightKey, s: State, a: Action)
    requires FlightsOwned(sf, s) && Next(sf, s, a).Some?
    requires forall f :: f in s.landed ==> f < |s.flightKeys|
    ensures FlightsOwned(sf, Next(sf, s, a).value)
  {
    hide FlightsOwned;
    var s2 := Next(sf, s, a).value;
    if a.EnterFlight? && s2.flights != s.flights {
      FlightsTakeOff(sf, s, a.call, s.calls[a.call].key);
    } else if a.Land? {
      FlightsLand(sf, s, a.call);
    } else {
      FlightsUnmoved(sf, s, s2);
    }
  }

  lemma EntriesStep(sf: FlightKey, s: State, a: Action)
    requires FlightsOwned(sf, s) && EntriesFree(s) && Next(sf, s, a).Some?
    ensures EntriesFree(Next(sf, s, a).value)
  {
  }

  /** Clients and landed flights accumulate; a flight disappears only by landing. */
  ghost predicate Grows(s: State, s2: State) {
    && s.created <= s2.created && s.flightKeys <= s2.flightKeys
    && (forall f :: f in s.landed ==> f in s2.landed)
    && (forall x :: x in s.flights ==> (x in s2.flights && s2.flights[x] == s.flights[x]) || s.flights[x] in s2.landed)
  }

  lemma StepGrows(sf: FlightKey, s: State, a: Action)
    requires FlightsOwned(sf, s) && Next(sf, s, a).Some?
    ensures Grows(s, Next(sf, s, a).value)
  {
  }

  lemma ProvenanceKept(sf: FlightKey, s: State, s2: State, c: Call)
    requires Grows(s, s2) && CallProvenance(sf, s, c)
    ensures CallProvenance(sf, s2, c)
  {
  }

  lemma MoverProvenance(sf: FlightKey, s: State, a: Action)
    requires FlightsOwned(sf, s) && Provenance(sf, s) && Next(sf, s, a).Some? && !a.Close?
    ensures a.call in Next(sf, s, a).value.calls
    ensures CallProvenance(sf, Next(sf, s, a).value, Next(sf, s, a).value.calls[a.call])
  {
    if a.call in s.calls {
      assert CallProvenance(sf, s, s.calls[a.call]);
    }
  }

  lemma StoreProvenance(sf: FlightKey, s: State, a: Action)
    requires FlightsOwned(sf, s) && Provenance(sf, s) && Next(sf, s, a).Some?
    ensures var s2 := Next(sf, s, a).value;
            && (forall k :: k in s2.cache ==> Made(s2, s2.cache[k], k))
            && (forall f :: f in s2.landed ==>
                  f < |s2.flightKeys| && s2.landed[f] < |s2.created|
                      && sf(s2.created[s2.landed[f]]) == s2.flightKeys[f])
  {
    if !a.Close? && a.call in s.calls {
      assert CallProvenance(sf, s, s.calls[a.call]);
    }
  }

  lemma ProvenanceStep(sf: FlightKey, s: State, a: Action)
    requires FlightsOwned(sf, s) && Provenance(sf, s) && Next(sf, s, a).Some?
    ensures Provenance(sf, Next(sf, s, a).value)
  {
    var s2 := Next(sf, s, a).value;
    StepGrows(sf, s, a);
    StoreProvenance(sf, s, a);
    forall t | t in s2.calls
      ensures CallProvenance(sf, s2, s2.calls[t])
    {
      if !a.Close? && t == a.call {
        MoverProvenance(sf, s, a);
      } else {
        OthersStay(sf, s, a, t);
        ProvenanceKept(sf, s, s2, s.calls[t]);
      }
    }
  }

  lemma OthersStay(sf: FlightKey, s: State, a: Action, t: nat)
    requires Next(sf, s, a).Some? && (a.Close? || t != a.call)
    ensures t in Next(sf, s, a).value.calls <==> t in s.calls
    ensures t in s.calls ==> Next(sf, s, a).value.calls[t] == s.calls[t]
  {
  }

  // ---------------------------------------------------------------- the counters

  /** A step moves its own call only, and a call is counted when it takes its counting step. */
  lemma CallSteps(sf: FlightKey, s: State, a: Action)
    requires Next(sf, s, a).Some? && !a.Close?
    ensures var s2, t := Next(sf, s, a).value, a.call;
            && t in s2.calls && s2.calls == s.calls[t := s2.calls[t]]
            && s2.lookups == s.lookups + (if t in s.calls then 0 else 1)
            && s2.hits == s.hits + (if a.CountHit? then 1 else 0) && s2.misses == s.misses + (if a.Store? then 1 else 0)
            && (IsHit(s2.calls[t]) <==> a.CountHit?)
                && (HasStored(s2.calls[t]) <==> a.Store? || (t in s.calls && HasStored(s.calls[t])))
            && (t in s.calls ==> !IsHit(s.calls[t])) && (a.Store? ==> t in s.calls && !HasStored(s.calls[t]))
  {
  }

  lemma HitsStep(sf: FlightKey, s: State, a: Action)
    requires Next(sf, s, a).Some? && !a.Close? && s.hits == |HitCalls(s)|
    ensures Next(sf, s, a).value.hits == |HitCalls(Next(sf, s, a).value)|
  {
    CallSteps(sf, s, a);
    hide Next, IsHit;
    var s2 := Next(sf, s, a).value;
    assert a.call !in HitCalls(s);
    assert HitCalls(s2) == if a.CountHit? then HitCalls(s) + {a.call} else HitCalls(s);
  }

  lemma MissesStep(sf: FlightKey, s: State, a: Action)
    requires Next(sf, s, a).Some? && !a.Close? && s.misses == |MissCalls(s)|
    ensures Next(sf, s, a).value.misses == |MissCalls(Next(sf, s, a).value)|
  {
    CallSteps(sf, s, a);
    hide Next, HasStored;
    var s2 := Next(sf, s, a).value;
    if a.Store? {
      assert a.call !in MissCalls(s);
      assert MissCalls(s2) == MissCalls(s) + {a.call};
    } else {
      assert MissCalls(s2) == MissCalls(s);
    }
  }

  lemma CountAppended(log: seq<Event>, e: Event)
    ensures StoreCount(log + [e]) == StoreCount(log) + (if e.Stored? then 1 else 0)
  {
    assert (log + [e])[..|log|] == log;
  }

  lemma StoresStep(sf: FlightKey, s: State, a: Action)
    requires Next(sf, s, a).Some? && EntriesFree(s) && s.misses == StoreCount(s.log)
    ensures Next(sf, s, a).value.misses == StoreCount(Next(sf, s, a).value.log)
  {
    LogExtends(sf, s, a);
    if a.Close? {
      hide Next, StoreCount, EntriesFree;
      CountAppended(s.log, Closed);
    } else {
      CallSteps(sf, s, a);
      hide Next, StoreCount, EntriesFree, IsHit, HasStored;
      if a.Store? {
        CountAppended(s.log, Stored(s.calls[a.call].key, s.calls[a.call].stage.client));
      }
    }
  }

  lemma LookupsStep(sf: FlightKey, s: State, a: Action)
    requires Next(sf, s, a).Some? && !a.Close? && s.lookups == |s.calls|
    ensures Next(sf, s, a).value.lookups == |Next(sf, s, a).value.calls|
  {
    CallSteps(sf, s, a);
    hide Next;
  }

  /** The log gains a `Closed`, or a `Stored` for a free entry, or nothing. */
  lemma LogExtends(sf: FlightKey, s: State, a: Action)
    requires Next(sf, s, a).Some? && EntriesFree(s)
    ensures var s2 := Next(sf, s, a).value;
            if a.Close? then s2.log == s.log + [Closed] && s2.cache == map[] && s2.misses == s.misses
            else if a.Store? then
              && a.call in s.calls && s.calls[a.call].Leader? && s.calls[a.call].stage.Created?
              && var k, c := s.calls[a.call].key, s.calls[a.call].stage.client;
              s2.log == s.log + [Stored(k, c)] && k !in s.cache && s2.cache == s.cache[k := c]
            else s2.log == s.log && s2.cache == s.cache
  {
  }

  lemma CountersStep(sf: FlightKey, s: State, a: Action)
    requires CountersRight(s) && EntriesFree(s) && Next(sf, s, a).Some?
    ensures CountersRight(Next(sf, s, a).value)
  {
    StoresStep(sf, s, a);
    if a.Close? {
      assert HitCalls(Next(sf, s, a).value) == HitCalls(s) && MissCalls(Next(sf, s, a).value) == MissCalls(s);
    } else {
      hide Next, HitCalls, MissCalls, StoreCount;
      LookupsStep(sf, s, a);
      HitsStep(sf, s, a);
      MissesStep(sf, s, a);
    }
  }

  // ---------------------------------------------------------------- the store log

  lemma StoredInLog(log: seq<Event>, i: nat)
    requires i < |log| && log[i].Stored? && forall m :: i < m < |log| ==> !log[m].Closed?
    ensures log[i].key in StoredSinceClose(log)
  {
    if i < |log| - 1 {
      assert log[..|log| - 1][i] == log[i];
      StoredInLog(log[..|log| - 1], i);
    }
  }

  /** Appending an event that keeps the epochs straight. */
  lemma OnceMore(log: seq<Event>, e: Event)
    requires StoredOncePerEpoch(log) && (e.Stored? ==> e.key !in StoredSinceClose(log))
    ensures StoredOncePerEpoch(log + [e])
  {
    var n, log2 := |log|, log + [e];
    forall i, j | 0 <= i < j <= n && log2[i].Stored? && log2[j].Stored? && log2[i].key == log2[j].key
      ensures exists m :: i < m < j && log2[m].Closed?
    {
      assert log2[i] == log[i];
      if j < n {
        assert log2[j] == log[j];
        var m :| i < m < j && log[m].Closed?;
        assert log2[m].Closed?;
      } else {
        if forall m :: i < m < n ==> !log[m].Closed? {
          StoredInLog(log, i);
        }
        var m :| i < m < n && log[m].Closed?;
        assert log2[m].Closed?;
      }
    }
  }

  lemma LogStep(sf: FlightKey, s: State, a: Action)
    requires Next(sf, s, a).Some? && EntriesFree(s)
    requires s.cache.Keys == StoredSinceClose(s.log) && StoredOncePerEpoch(s.log)
    ensures var s2 := Next(sf, s, a).value; s2.cache.Keys == StoredSinceClose(s2.log) && StoredOncePerEpoch(s2.log)
  {
    var s2 := Next(sf, s, a).value;
    LogExtends(sf, s, a);
    hide Next, StoredOncePerEpoch;
    if s2.log != s.log {
      OnceMore(s.log, s2.log[|s.log|]);
      assert s2.log == s.log + [s2.log[|s.log|]];
      assert s2.log[..|s.log|] == s.log;
    }
  }

  lemma InvStep(sf: FlightKey, s: State, a: Action)
    requires Inv(sf, s) && Next(sf, s, a).Some?
    ensures Inv(sf, Next(sf, s, a).value)
  {
    FlightsStep(sf, s, a);
    EntriesStep(sf, s, a);
    ProvenanceStep(sf, s, a);
    CountersStep(sf, s, a);
    LogStep(sf, s, a);
  }

  lemma {:induction false} InvRun(sf: FlightKey, actions: seq<Action>)
    requires Run(sf, actions).Some?
    ensures Inv(sf, Run(sf, actions).value)
  {
    if actions != [] {
      var n := |actions| - 1;
      InvRun(sf, actions[..n]);
      InvStep(sf, Run(sf, actions[..n]).value, actions[n]);
    } else {
      assert HitCalls(INITIAL) == {} && MissCalls(INITIAL) == {};
    }
  }

  // ---------------------------------------------------------------- what the cache promises

  /** In every interleaving: counters, and one store per key between two closes. */
  lemma CountersAndStores(sf: FlightKey, s: State)
    requires Reachable(sf, s)
    ensures s.misses == StoreCount(s.log) && s.hits + s.misses <= s.lookups
    ensures StoredOncePerEpoch(s.log)
  {
    ReachableInv(sf, s);
    assert HitCalls(s) !! MissCalls(s);
    assert HitCalls(s) + MissCalls(s) <= s.calls.Keys;
    SubsetSize(HitCalls(s) + MissCalls(s), s.calls.Keys);
    assert |HitCalls(s) + MissCalls(s)| == |HitCalls(s)| + |MissCalls(s)|;
  }

  /** No action replaces a cached client; only `Close` takes one out. */
  lemma StoresNeverOverwrite(sf: FlightKey, s: State, a: Action, k: Key)
    requires Reachable(sf, s) && Next(sf, s, a).Some? && k in s.cache && !a.Close?
    ensures k in Next(sf, s, a).value.cache && Next(sf, s, a).value.cache[k] == s.cache[k]
  {
    ReachableInv(sf, s);
    NoOverwrite(sf, s, a, k);
  }

  lemma NoOverwrite(sf: FlightKey, s: State, a: Action, k: Key)
    requires EntriesFree(s) && Next(sf, s, a).Some? && k in s.cache && !a.Close?
    ensures k in Next(sf, s, a).value.cache && Next(sf, s, a).value.cache[k] == s.cache[k]
  {
  }

  lemma ReachableInv(sf: FlightKey, s: State)
    requires Reachable(sf, s)
    ensures Inv(sf, s)
  {
    hide Inv, Run;
    var actions :| Run(sf, actions) == Some(s);
    InvRun(sf, actions);
  }

  /** A call gets a client that was created for a key with its flight key. */
  lemma ReturnsWithinFlightKey(sf: FlightKey, s: State, t: nat)
    requires Reachable(sf, s) && t in s.calls && s.calls[t].Returned?
    ensures s.calls[t].client < |s.created| && sf(s.created[s.calls[t].client]) == sf(s.calls[t].key)
  {
    ReachableInv(sf, s);
    assert CallProvenance(sf, s, s.calls[t]);
  }

  /** No two of the keys have the same flight key. */
  ghost predicate Separates(sf: FlightKey, keys: iset<Key>) {
    forall k, l :: k in keys && l in keys && sf(k) == sf(l) ==> k == l
  }

  ghost predicate GetsOwnClient(s: State, t: nat) {
    t in s.calls && s.calls[t].Returned? ==> Made(s, s.calls[t].client, s.calls[t].key)
  }

  predicate Asks(a: Action, keys: iset<Key>) {
    a.Begin? ==> a.key in keys
  }

  /** Runs whose calls ask for clients of these keys only. */
  ghost predicate ReachableWith(sf: FlightKey, keys: iset<Key>, s: State) {
    exists actions :: Run(sf, actions) == Some(s) && forall a :: a in actions ==> Asks(a, keys)
  }

  ghost predicate OwnClientsWith(sf: FlightKey, keys: iset<Key>) {
    forall s, t :: ReachableWith(sf, keys, s) ==> GetsOwnClient(s, t)
  }

  /** The keys of a state are those that were asked for. */
  ghost predicate KeysWithin(s: State, keys: iset<Key>) {
    && (forall t :: t in s.calls ==> s.calls[t].key in keys)
    && (forall k :: k in s.created ==> k in keys)
  }

  lemma KeysWithinStep(sf: FlightKey, s: State, a: Action, keys: iset<Key>)
    requires KeysWithin(s, keys) && Next(sf, s, a).Some? && Asks(a, keys)
    ensures KeysWithin(Next(sf, s, a).value, keys)
  {
  }

  lemma {:induction false} KeysWithinRun(sf: FlightKey, actions: seq<Action>, keys: iset<Key>)
    requires Run(sf, actions).Some? && forall a :: a in actions ==> Asks(a, keys)
    ensures KeysWithin(Run(sf, actions).value, keys)
  {
    if actions != [] {
      hide Next;
      var n := |actions| - 1;
      KeysWithinRun(sf, actions[..n], keys);
      KeysWithinStep(sf, Run(sf, actions[..n]).value, actions[n], keys);
    }
  }

  lemma WithIsReachable(sf: FlightKey, keys: iset<Key>, s: State)
    requires ReachableWith(sf, keys, s)
    ensures Reachable(sf, s) && KeysWithin(s, keys)
  {
    hide Run;
    var actions :| Run(sf, actions) == Some(s) && forall a :: a in actions ==> Asks(a, keys);
    KeysWithinRun(sf, actions, keys);
  }

  lemma Perform(sf: FlightKey, keys: iset<Key>, s: State, a: Action) returns (s2: State)
    requires ReachableWith(sf, keys, s) && Next(sf, s, a).Some? && Asks(a, keys)
    ensures ReachableWith(sf, keys, s2) && s2 == Next(sf, s, a).value
  {
    s2 := Next(sf, s, a).value;
    hide Next;
    var actions :| Run(sf, actions) == Some(s) && forall b :: b in actions ==> Asks(b, keys);
    var more := actions + [a];
    assert more[..|more| - 1] == actions;
    assert Run(sf, more) == Next(sf, s, a);
  }

  /** The first call leads a flight, the second one rides along. */
  predicate RidesAlong(s: State, k: Key, l: Key) {
    && 0 in s.calls && 1 in s.calls && s.calls[0] == Leader(k, 0, Checking) && s.calls[1] == Waiting(l, 0)
    && s.cache == map[] && s.created == []
  }

  lemma TakeOffTogether(sf: FlightKey, keys: iset<Key>, k: Key, l: Key) returns (s: State)
    requires sf(k) == sf(l) && k in keys && l in keys
    ensures ReachableWith(sf, keys, s) && RidesAlong(s, k, l)
  {
    assert Run(sf, []) == Some(INITIAL);
    s := Perform(sf, keys, INITIAL, Begin(0, k));
    s := Perform(sf, keys, s, Begin(1, l));
    s := Perform(sf, keys, s, FastPath(0));
    s := Perform(sf, keys, s, FastPath(1));
    s := Perform(sf, keys, s, EnterFlight(0));
    s := Perform(sf, keys, s, EnterFlight(1));
  }

  /** Two calls whose different keys share a flight key: the second one gets the first one's client. */
  lemma SharedFlight(sf: FlightKey, keys: iset<Key>, k: Key, l: Key) returns (s: State)
    requires k != l && sf(k) == sf(l) && k in keys && l in keys
    ensures ReachableWith(sf, keys, s) && !GetsOwnClient(s, 1)
  {
    s := TakeOffTogether(sf, keys, k, l);
    s := Perform(sf, keys, s, SecondLook(0));
    s := Perform(sf, keys, s, Create(0));
    s := Perform(sf, keys, s, Store(0));
    s := Perform(sf, keys, s, Land(0));
    s := Perform(sf, keys, s, Wake(1));
  }

  /**
   Every call in every run that asks only for these keys gets a client made for its own key, if and only if no two
   of the keys have the same flight key.
   */
  lemma OwnClientIffSeparated(sf: FlightKey, keys: iset<Key>)
    ensures OwnClientsWith(sf, keys) <==> Separates(sf, keys)
  {
    if Separates(sf, keys) {
      forall s, t | ReachableWith(sf, keys, s)
        ensures GetsOwnClient(s, t)
      {
        WithIsReachable(sf, keys, s);
        if t in s.calls && s.calls[t].Returned? {
          ReturnsWithinFlightKey(sf, s, t);
          assert s.created[s.calls[t].client] in s.created;
        }
      }
    } else {
      var k, l :| k in keys && l in keys && sf(k) == sf(l) && k != l;
      var s := SharedFlight(sf, keys, k, l);
    }
  }

  // ---------------------------------------------------------------- the flight key of the program

  function ShowInt(n: int): (s: string)
    ensures '=' !in s
  {
    if n < 0 then "-" + Show(-n) else Show(n)
  }

  function ShowBool(b: bool): (s: string)
    ensures '=' !in s
  {
    if b then "true" else "false"
  }

  /** The text `%v` prints for a key: its redacting `String` method is used. */
  function RedactedKey(k: Key): string {
    (("url=" + k.url + " apiKey" + "=" + ShowBool(k.apiKey != "")) + " basicAuth" + "=" + ShowBool(k.username != ""))
    + " orgID" + "=" + ShowInt(k.orgId)
  }

  /** Two keys that differ at most in their secrets: the key, the name and the password, if both have one or none. */
  predicate SameButSecrets(k: Key, l: Key) {
    && k.url == l.url && k.orgId == l.orgId
    && (k.apiKey == "" <==> l.apiKey == "") && (k.username == "" <==> l.username == "")
  }

  lemma ShowIntInjective(a: int, b: int)
    requires ShowInt(a) == ShowInt(b)
    ensures a == b
  {
    var x, y := if a < 0 then -a else a, if b < 0 then -b else b;
    ValueOfShow(x);
    ValueOfShow(y);
    assert IsDigit(Show(x)[0]) && IsDigit(Show(y)[0]);
    assert a < 0 ==> ShowInt(a)[0] == '-' && ShowInt(a)[1..] == Show(x);
    assert b < 0 ==> ShowInt(b)[0] == '-' && ShowInt(b)[1..] == Show(y);
  }

  lemma LastMark(front: string, a: string, i: nat)
    requires '=' !in a && i < |front + "=" + a| && (front + "=" + a)[i] == '='
    ensures i <= |front|
  {
  }

  /** The last `=` of a text tells what is in front of it from what follows. */
  lemma SplitAtLast(x: string, name: string, a: string, y: string, b: string)
    requires x + name + "=" + a == y + name + "=" + b && '=' !in a && '=' !in b
    ensures x == y && a == b
  {
    var s, t := x + name + "=" + a, y + name + "=" + b;
    LastMark(x + name, a, |y + name|);
    LastMark(y + name, b, |x + name|);
    assert a == s[|s| - |a|..] == t[|t| - |b|..] == b;
    assert x == s[..|x|] == t[..|y|] == y;
  }

  /** Two keys share a flight if and only if they are the same up to their secrets. */
  lemma RedactedKeysCoincideIff(k: Key, l: Key)
    ensures RedactedKey(k) == RedactedKey(l) <==> SameButSecrets(k, l)
  {
    if RedactedKey(k) == RedactedKey(l) {
      hide ShowBool, ShowInt;
      var u, v := "url=" + k.url, "url=" + l.url;
      var a, b := u + " apiKey" + "=" + ShowBool(k.apiKey != ""), v + " apiKey" + "=" + ShowBool(l.apiKey != "");
      var c, d := a + " basicAuth" + "=" + ShowBool(k.username != ""),
          b + " basicAuth" + "=" + ShowBool(l.username != "");
      SplitAtLast(c, " orgID", ShowInt(k.orgId), d, ShowInt(l.orgId));
      SplitAtLast(a, " basicAuth", ShowBool(k.username != ""), b, ShowBool(l.username != ""));
      SplitAtLast(u, " apiKey", ShowBool(k.apiKey != ""), v, ShowBool(l.apiKey != ""));
      assert k.url == u[4..] == v[4..] == l.url;
      ShowIntInjective(k.orgId, l.orgId);
      ShowBoolInjective(k.apiKey != "", l.apiKey != "");
      ShowBoolInjective(k.username != "", l.username != "");
    }
  }

  lemma ShowBoolInjective(a: bool, b: bool)
    requires ShowBool(a) == ShowBool(b)
    ensures a == b
  {
  }

  /**
   With the flight key of the program calls get their own clients if and only if no two keys in use differ in secrets
   only.
   */
  lemma OwnClientIffSecretsAgree(keys: iset<Key>)
    ensures OwnClientsWith(RedactedKey, keys)
        <==> forall k, l :: k in keys && l in keys && SameButSecrets(k, l) ==> k == l
  {
    OwnClientIffSeparated(RedactedKey, keys);
    forall k, l
      ensures RedactedKey(k) == RedactedKey(l) <==> SameButSecrets(k, l)
    {
      RedactedKeysCoincideIff(k, l);
    }
  }

  /** Two API keys for one server are enough for a call to get the client of the other. */
  lemma RedactedKeysShareFlights(url: string, a: string, b: string, orgId: int)
    requires a != b && a != "" && b != ""
    ensures !OwnClientsWith(RedactedKey, iset{Key(url, a, "", "", orgId), Key(url, b, "", "", orgId)})
  {
    var k, l := Key(url, a, "", "", orgId), Key(url, b, "", "", orgId);
    OwnClientIffSecretsAgree(iset{k, l});
    assert SameButSecrets(k, l) && k != l;
  }

  // ---------------------------------------------------------------- a run without Close is a memo table

  ghost predicate NeverClosed(log: seq<Event>) {
    forall i :: 0 <= i < |log| ==> log[i].Stored?
  }

  /** Every client is cached, or on its way into the cache. */
  ghost predicate ClientsHeld(s: State) {
    forall c :: 0 <= c < |s.created| ==> Held(s, c)
  }

  ghost predicate Held(s: State, c: nat)
    requires c < |s.created|
  {
    || (s.created[c] in s.cache && s.cache[s.created[c]] == c)
    || exists t ::
        t in s.calls && s.calls[t].Leader? && s.calls[t].stage == Created(c) && s.calls[t].key == s.created[c]
  }

  ghost predicate OneClientPerKey(created: seq<Key>) {
    forall c, d :: 0 <= c < d < |created| ==> created[c] != created[d]
  }

  /** The call that has created a client can only store it. */
  lemma HolderSteps(sf: FlightKey, s: State, a: Action, t: nat, c: nat)
    requires Next(sf, s, a).Some? && !a.Close? && t in s.calls && s.calls[t].Leader? && s.calls[t].stage == Created(c)
    ensures var s2 := Next(sf, s, a).value;
            if a.call == t then s.calls[t].key in s2.cache && s2.cache[s.calls[t].key] == c
            else t in s2.calls && s2.calls[t] == s.calls[t]
  {
  }

  lemma HeldStep(sf: FlightKey, s: State, a: Action, c: nat)
    requires Inv(sf, s) && Next(sf, s, a).Some? && !a.Close? && c < |s.created| && Held(s, c)
    ensures c < |Next(sf, s, a).value.created| && Held(Next(sf, s, a).value, c)
  {
    hide Next, CountersRight, Provenance, StoredOncePerEpoch;
    var s2 := Next(sf, s, a).value;
    CreatedGrows(sf, s, a);
    assert s2.created[c] == s.created[c];
    if s.created[c] in s.cache && s.cache[s.created[c]] == c {
      NoOverwrite(sf, s, a, s.created[c]);
    } else {
      var t :| t in s.calls && s.calls[t].Leader? && s.calls[t].stage == Created(c) && s.calls[t].key == s.created[c];
      HolderSteps(sf, s, a, t, c);
    }
  }

  lemma CreatedGrows(sf: FlightKey, s: State, a: Action)
    requires Next(sf, s, a).Some?
    ensures s.created <= Next(sf, s, a).value.created
  {
  }

  /** A leader creates a client only for a key that has none. */
  lemma CreatesOnlyNew(sf: FlightKey, s: State, t: nat, c: nat)
    requires FlightsOwned(sf, s) && EntriesFree(s) && c < |s.created| && Held(s, c)
    requires t in s.calls && s.calls[t].Leader? && s.calls[t].stage.Creating?
    ensures s.created[c] != s.calls[t].key
  {
  }

  lemma CreateSteps(sf: FlightKey, s: State, a: Action)
    requires Next(sf, s, a).Some? && Next(sf, s, a).value.created != s.created
    ensures a.Create? && a.call in s.calls && s.calls[a.call].Leader? && s.calls[a.call].stage.Creating?
    ensures Next(sf, s, a).value.created == s.created + [s.calls[a.call].key]
    ensures a.call in Next(sf, s, a).value.calls
    ensures Next(sf, s, a).value.calls[a.call] == s.calls[a.call].(stage := Created(|s.created|))
    ensures Next(sf, s, a).value.cache == s.cache
  {
  }

  lemma MemoStep(sf: FlightKey, s: State, a: Action)
    requires Inv(sf, s) && Next(sf, s, a).Some? && !a.Close?
    requires ClientsHeld(s) && OneClientPerKey(s.created)
    ensures ClientsHeld(Next(sf, s, a).value) && OneClientPerKey(Next(sf, s, a).value.created)
  {
    hide Next, CountersRight, Provenance, StoredOncePerEpoch;
    var s2 := Next(sf, s, a).value;
    forall c | 0 <= c < |s.created|
      ensures c < |s2.created| && Held(s2, c)
    {
      HeldStep(sf, s, a, c);
    }
    if s2.created != s.created {
      CreateSteps(sf, s, a);
      assert s2.calls[a.call].stage == Created(|s.created|);
      forall d | 0 <= d < |s.created|
        ensures s.created[d] != s.calls[a.call].key
      {
        CreatesOnlyNew(sf, s, a.call, d);
      }
    }
  }

  lemma {:induction false} MemoRun(sf: FlightKey, actions: seq<Action>)
    requires Run(sf, actions).Some? && NeverClosed(Run(sf, actions).value.log)
    ensures ClientsHeld(Run(sf, actions).value) && OneClientPerKey(Run(sf, actions).value.created)
  {
    if actions != [] {
      var n := |actions| - 1;
      var s := Run(sf, actions[..n]).value;
      LogGrows(sf, s, actions[n]);
      MemoRun(sf, actions[..n]);
      InvRun(sf, actions[..n]);
      MemoStep(sf, s, actions[n]);
    }
  }

  lemma LogGrows(sf: FlightKey, s: State, a: Action)
    requires Next(sf, s, a).Some? && NeverClosed(Next(sf, s, a).value.log)
    ensures NeverClosed(s.log) && !a.Close?
  {
    var s2 := Next(sf, s, a).value;
    assert forall i :: 0 <= i < |s.log| ==> s.log[i] == s2.log[i];
    if a.Close? {
      CloseShows(s.log);
    }
  }

  lemma CloseShows(log: seq<Event>)
    ensures !NeverClosed(log + [Closed])
  {
    assert (log + [Closed])[|log|] == Closed;
  }

  /** The sequential memo table: for each key the one client made for it. */
  function Memo(created: seq<Key>): map<Key, Client> {
    if created == [] then map[]
    else
      var n := |created| - 1;
      Memo(created[..n])[created[n] := n]
  }

  lemma MemoFinds(created: seq<Key>, c: nat)
    requires OneClientPerKey(created) && c < |created|
    ensures created[c] in Memo(created) && Memo(created)[created[c]] == c
  {
    var n := |created| - 1;
    if c < n {
      assert created[..n][c] == created[c];
      MemoFinds(created[..n], c);
    }
  }

  lemma LastIsNew(created: seq<Key>)
    requires OneClientPerKey(created) && created != []
    ensures created[|created| - 1] !in created[..|created| - 1]
  {
  }

  lemma MemoKeys(created: seq<Key>, k: Key)
    ensures k in Memo(created) <==> k in created
  {
    if created != [] {
      assert created == created[..|created| - 1] + [created[|created| - 1]];
    }
  }

  /**
   With a flight key that separates the keys in use and no `Close`, the cache is a sequential memo table: one
   client per key, and every finished call for a key has got it.
   */
  lemma RefinesMemoTable(sf: FlightKey, keys: iset<Key>, s: State, t: nat)
    requires Separates(sf, keys) && ReachableWith(sf, keys, s) && NeverClosed(s.log)
    requires t in s.calls && s.calls[t].Returned?
    ensures OneClientPerKey(s.created)
    ensures s.calls[t].key in Memo(s.created) && Memo(s.created)[s.calls[t].key] == s.calls[t].client
  {
    hide Next;
    WithIsReachable(sf, keys, s);
    var actions :| Run(sf, actions) == Some(s);
    MemoRun(sf, actions);
    OwnClientIffSeparated(sf, keys);
    assert GetsOwnClient(s, t);
    MemoFinds(s.created, s.calls[t].client);
  }

  lemma OnePerKeyNext(sf: FlightKey, s: State, a: Action)
    requires Reachable(sf, s) && Next(sf, s, a).Some? && NeverClosed(Next(sf, s, a).value.log)
    ensures OneClientPerKey(Next(sf, s, a).value.created)
  {
    hide Next;
    var actions :| Run(sf, actions) == Some(s);
    var more := actions + [a];
    assert more[..|more| - 1] == actions;
    MemoRun(sf, more);
  }

  lemma MemoExtends(created: seq<Key>, k: Key)
    requires OneClientPerKey(created + [k])
    ensures k !in Memo(created) && Memo(created + [k]) == Memo(created)[k := |created|]
  {
    assert (created + [k])[..|created|] == created;
    MemoKeys(created, k);
    LastIsNew(created + [k]);
  }

  /** And each action either leaves the memo table alone or makes the first client of a key. */
  lemma MemoTableSteps(sf: FlightKey, s: State, a: Action)
    requires Reachable(sf, s) && Next(sf, s, a).Some? && NeverClosed(Next(sf, s, a).value.log)
    ensures var s2 := Next(sf, s, a).value;
            || Memo(s2.created) == Memo(s.created)
            || (&& a.Create? && s.calls[a.call].Leader? && s.calls[a.call].key !in Memo(s.created)
                && Memo(s2.created) == Memo(s.created)[s.calls[a.call].key := |s.created|])
  {
    hide Next;
    var s2 := Next(sf, s, a).value;
    if s2.created != s.created {
      CreateSteps(sf, s, a);
      OnePerKeyNext(sf, s, a);
      hide Memo, OneClientPerKey;
      MemoExtends(s.created, s.calls[a.call].key);
    }
  }

  // ---------------------------------------------------------------- no call is stuck

  function NextOf(t: nat, c: Call): Action
    requires !c.Returned?
  {
    match c
    case Looking(_) => FastPath(t)
    case Hit(_, _) => CountHit(t)
    case Missed(_) => EnterFlight(t)
    case Waiting(_, _) => Wake(t)
    case Leader(_, _, stage) =>
      match stage {
        case Checking => SecondLook(t)
        case Creating => Create(t)
        case Created(_) => Store(t)
        case Finished(_, _) => Land(t)
      }
  }

  lemma CanStep(sf: FlightKey, s: State, t: nat)
    requires t in s.calls && !s.calls[t].Returned? && (s.calls[t].Waiting? ==> s.calls[t].flight in s.landed)
    ensures Next(sf, s, NextOf(t, s.calls[t])).Some?
  {
  }

  lemma LeaderOfFlight(sf: FlightKey, s: State, t: nat) returns (u: nat)
    requires FlightsOwned(sf, s) && t in s.calls && s.calls[t].Waiting? && CallProvenance(sf, s, s.calls[t])
    requires s.calls[t].flight !in s.landed
    ensures u in s.calls && s.calls[u].Leader? && s.calls[u].flight == s.calls[t].flight
  {
    var x := sf(s.calls[t].key);
    assert x in s.flights;
    u :| u in s.calls && s.calls[u].Leader? && sf(s.calls[u].key) == x;
  }

  /** A call that has not returned can step, or waits for the leader of its flight, which can. */
  lemma NobodyIsStuck(sf: FlightKey, s: State, t: nat) returns (u: nat)
    requires Reachable(sf, s) && t in s.calls && !s.calls[t].Returned?
    ensures u in s.calls && !s.calls[u].Returned? && Next(sf, s, NextOf(u, s.calls[u])).Some?
    ensures u == t || (s.calls[t].Waiting? && s.calls[u].Leader? && s.calls[u].flight == s.calls[t].flight)
  {
    hide Next, NextOf, FlightsOwned, CallProvenance;
    ReachableInv(sf, s);
    u := t;
    if s.calls[t].Waiting? && s.calls[t].flight !in s.landed {
      u := LeaderOfFlight(sf, s, t);
    }
    CanStep(sf, s, u);
  }
}
