/**
 The cache of backend lists: requests of any ports, updates of Redis and the passing of
 time, interleaved. A request looks in the cache, and on a miss fetches the list and stores
 it, each as a step of its own. How old can an answer from the cache be?
 */
module BackendCache {
  import opened Wrappers

  type Port = string
  type Backends = seq<string>

  // Five minutes, in nanoseconds.
  const TTL: nat := 300_000_000_000

  // What Redis held from the instant `since` on.
  datatype Snapshot = Snapshot(since: nat, lists: map<Port, Backends>)

  // A cached list with the times of the fetch that filled it: begun, answered, stored.
  datatype Entry = Entry(backends: Backends, begun: nat, answered: nat, stored: nat)

  // `skip`: the request asks to bypass the cache.
  datatype Pc =
    | Arrived
    | Fetching(begun: nat)
    | Storing(entry: Entry)
    | Served(backends: Backends, hit: bool)
    | Failed

  datatype Request = Request(port: Port, skip: bool, pc: Pc)

  datatype State = State(now: nat, history: seq<Snapshot>, cache: map<Port, Entry>, requests: seq<Request>)

  datatype Action =
    | Tick(d: nat)
    | Write(port: Port, backends: Backends)   // Redis is updated
    | Arrive(port: Port, skip: bool)
    | Step(r: nat, ok: bool)                  // a request goes on; `ok`: Redis answers
    | Purge(port: Port)                       // the janitor drops an expired entry

  function Held(x: Snapshot, port: Port): Backends {
    if port in x.lists then x.lists[port] else []
  }

  predicate Expired(s: State, e: Entry) {
    s.now > e.stored + TTL
  }

  predicate Enabled(s: State, a: Action) {
    && s.history != []
    && match a
       case Step(r, _) => r < |s.requests| && !s.requests[r].pc.Served? && !s.requests[r].pc.Failed?
       case Purge(port) => port in s.cache && Expired(s, s.cache[port])
       case _ => true
  }

  function Last(s: State): Snapshot
    requires s.history != []
  {
    s.history[|s.history| - 1]
  }

  function Move(s: State, r: nat, pc: Pc): State
    requires r < |s.requests|
  {
    s.(requests := s.requests[r := s.requests[r].(pc := pc)])
  }

  function Lookup(s: State, q: Request): Option<Entry> {
    if !q.skip && q.port in s.cache && !Expired(s, s.cache[q.port]) then Some(s.cache[q.port]) else None
  }

  function StepOf(s: State, r: nat, ok: bool): State
    requires r < |s.requests| && s.history != []
  {
    var q := s.requests[r];
    match q.pc
    case Arrived =>
      var found := Lookup(s, q);
      Move(s, r, if found.Some? then Served(found.value.backends, true) else Fetching(s.now))
    case Fetching(begun) =>
      if !ok then Move(s, r, Failed)
      else
        var list := Held(Last(s), q.port);
        if q.skip then Move(s, r, Served(list, false)) else Move(s, r, Storing(Entry(list, begun, s.now, s.now)))
    case Storing(e) =>
      Move(s, r, Served(e.backends, false)).(cache := s.cache[q.port := e.(stored := s.now)])
    case _ => s
  }

  function Apply(s: State, a: Action): State
    requires Enabled(s, a)
  {
    match a
    case Tick(d) => s.(now := s.now + d)
    case Write(port, backends) => s.(history := s.history + [Snapshot(s.now, Last(s).lists[port := backends])])
    case Arrive(port, skip) => s.(requests := s.requests + [Request(port, skip, Arrived)])
    case Step(r, ok) => StepOf(s, r, ok)
    case Purge(port) => s.(cache := s.cache - {port})
  }

  function Start(lists: map<Port, Backends>): State {
    State(0, [Snapshot(0, lists)], map[], [])
  }

  function Run(lists: map<Port, Backends>, actions: seq<Action>): Option<State> {
    if actions == [] then Some(Start(lists))
    else
      var n := |actions| - 1;
      match Run(lists, actions[..n])
      case None => None
      case Some(s) => if Enabled(s, actions[n]) then Some(Apply(s, actions[n])) else None
  }

  // ----------------------------------------------------------------------- invariant

  // Redis held this list for the port at the instant `t`: some snapshot that was in force
  // then says so.
  ghost predicate HeldAt(history: seq<Snapshot>, port: Port, backends: Backends, t: nat) {
    exists k :: InForce(history, k, t) && Held(history[k], port) == backends
  }

  predicate InForce(history: seq<Snapshot>, k: int, t: nat) {
    0 <= k < |history| && history[k].since <= t && (k + 1 < |history| ==> t <= history[k + 1].since)
  }

  // An entry is what Redis held while its fetch was under way.
  ghost predicate Genuine(s: State, port: Port, e: Entry) {
    e.begun <= e.answered <= e.stored <= s.now && HeldAt(s.history, port, e.backends, e.answered)
  }

  ghost predicate Inv(s: State) {
    && s.history != [] && Last(s).since <= s.now
    && (forall port | port in s.cache :: Genuine(s, port, s.cache[port]))
    && (forall r | 0 <= r < |s.requests| ::
          match s.requests[r].pc
          case Fetching(begun) => begun <= s.now
          case Storing(e) => Genuine(s, s.requests[r].port, e)
          case _ => true)
  }

  lemma HistoryGrows(s: State, x: Snapshot, port: Port, e: Entry)
    requires Inv(s) && Genuine(s, port, e) && x.since == s.now
    ensures HeldAt(s.history + [x], port, e.backends, e.answered)
  {
    var k :| InForce(s.history, k, e.answered) && Held(s.history[k], port) == e.backends;
    assert InForce(s.history + [x], k, e.answered) && (s.history + [x])[k] == s.history[k];
  }

  lemma WriteKeeps(s: State, x: Snapshot)
    requires Inv(s) && x.since == s.now
    ensures Inv(s.(history := s.history + [x]))
  {
    forall port | port in s.cache ensures Genuine(s.(history := s.history + [x]), port, s.cache[port]) {
      HistoryGrows(s, x, port, s.cache[port]);
    }
    forall r | 0 <= r < |s.requests| && s.requests[r].pc.Storing?
      ensures Genuine(s.(history := s.history + [x]), s.requests[r].port, s.requests[r].pc.entry)
    {
      HistoryGrows(s, x, s.requests[r].port, s.requests[r].pc.entry);
    }
  }

  lemma TickKeeps(s: State, d: nat)
    requires Inv(s)
    ensures Inv(s.(now := s.now + d))
  {
  }

  // A fetch is answered with what Redis holds at that instant.
  lemma AnswerGenuine(s: State, port: Port, begun: nat)
    requires Inv(s) && begun <= s.now
    ensures Genuine(s, port, Entry(Held(Last(s), port), begun, s.now, s.now))
  {
    assert InForce(s.history, |s.history| - 1, s.now);
  }

  lemma CacheKeeps(s: State, r: nat, ok: bool, port: Port)
    requires Inv(s) && r < |s.requests| && port in StepOf(s, r, ok).cache
    ensures Genuine(StepOf(s, r, ok), port, StepOf(s, r, ok).cache[port])
  {
    var q := s.requests[r];
    if q.pc.Storing? && port == q.port {
      assert Genuine(s, q.port, q.pc.entry);
    } else {
      assert Genuine(s, port, s.cache[port]);
    }
  }

  lemma RequestKeeps(s: State, r: nat, ok: bool, k: nat)
    requires Inv(s) && r < |s.requests| && k < |s.requests| && StepOf(s, r, ok).requests[k].pc.Storing?
    ensures var q := StepOf(s, r, ok).requests[k]; Genuine(StepOf(s, r, ok), q.port, q.pc.entry)
  {
    if k != r {
      assert Genuine(s, s.requests[k].port, s.requests[k].pc.entry);
    } else {
      AnswerGenuine(s, s.requests[r].port, s.requests[r].pc.begun);
    }
  }

  lemma StepKeeps(s: State, r: nat, ok: bool)
    requires Inv(s) && r < |s.requests|
    ensures Inv(StepOf(s, r, ok))
  {
    var s' := StepOf(s, r, ok);
    forall port | port in s'.cache ensures Genuine(s', port, s'.cache[port]) {
      CacheKeeps(s, r, ok, port);
    }
    forall k | 0 <= k < |s'.requests| && s'.requests[k].pc.Storing?
      ensures Genuine(s', s'.requests[k].port, s'.requests[k].pc.entry)
    {
      RequestKeeps(s, r, ok, k);
    }
  }

  lemma ArriveKeeps(s: State, port: Port, skip: bool)
    requires Inv(s)
    ensures Inv(s.(requests := s.requests + [Request(port, skip, Arrived)]))
  {
  }

  lemma PurgeKeeps(s: State, port: Port)
    requires Inv(s)
    ensures Inv(s.(cache := s.cache - {port}))
  {
  }

  lemma ActionKeeps(s: State, a: Action)
    requires Inv(s) && Enabled(s, a)
    ensures Inv(Apply(s, a))
  {
    match a
    case Tick(d) => TickKeeps(s, d);
    case Write(port, backends) => WriteKeeps(s, Snapshot(s.now, Last(s).lists[port := backends]));
    case Step(r, ok) => StepKeeps(s, r, ok);
    case Arrive(port, skip) => ArriveKeeps(s, port, skip);
    case Purge(port) => PurgeKeeps(s, port);
  }

  lemma {:induction false} RunKeeps(lists: map<Port, Backends>, actions: seq<Action>)
    requires Run(lists, actions).Some?
    ensures Inv(Run(lists, actions).value)
  {
    if actions != [] {
      var n := |actions| - 1;
      RunKeeps(lists, actions[..n]);
      ActionKeeps(Run(lists, actions[..n]).value, actions[n]);
    }
  }

  /** A list answered from the cache is one that Redis held for the same port at some instant
      no older than five minutes plus the duration of the one fetch that filled the entry, in
      every run, even when a slow fetch has overwritten a newer entry. */
  lemma HitIsRecent(lists: map<Port, Backends>, actions: seq<Action>, r: nat)
    requires Run(lists, actions).Some?
    requires var s := Run(lists, actions).value; r < |s.requests| && s.requests[r].pc == Arrived
    requires var s := Run(lists, actions).value; StepOf(s, r, true).requests[r].pc.Served?
    ensures var s := Run(lists, actions).value;
            var q, pc := s.requests[r], StepOf(s, r, true).requests[r].pc;
            && pc.hit && q.port in s.cache
            && var e := s.cache[q.port];
               && HeldAt(s.history, q.port, pc.backends, e.answered)
               && e.begun <= e.answered <= e.stored
               && s.now - e.answered <= TTL + (e.stored - e.begun)
  {
    RunKeeps(lists, actions);
    var s := Run(lists, actions).value;
    assert Genuine(s, s.requests[r].port, s.cache[s.requests[r].port]);
  }

  /** The bound is reached: a fetch answered at once but stored d later, read a full TTL after
      that, is exactly TTL + d old, whatever Redis holds by then. */
  lemma BoundIsReached(port: Port, d: nat, newer: Backends) returns (actions: seq<Action>)
    ensures Run(map[], actions).Some?
    ensures var s := Run(map[], actions).value;
            && |s.requests| == 2 && s.requests[1] == Request(port, false, Served([], true))
            && s.now == TTL + d && Held(Last(s), port) == newer
            && port in s.cache && s.cache[port].answered == 0
  {
    actions := [];
    var s := Start(map[]);
    actions, s := Then(actions, s, Arrive(port, false));
    actions, s := Then(actions, s, Step(0, true));
    actions, s := Then(actions, s, Step(0, true));
    actions, s := Then(actions, s, Write(port, newer));
    assert s.requests == [Request(port, false, Storing(Entry([], 0, 0, 0)))] && s.now == 0;
    actions, s := Then(actions, s, Tick(d));
    actions, s := Then(actions, s, Step(0, true));
    actions, s := Then(actions, s, Tick(TTL));
    assert s.cache == map[port := Entry([], 0, 0, d)] && s.now == d + TTL;
    actions, s := Then(actions, s, Arrive(port, false));
    actions, s := Then(actions, s, Step(1, true));
  }

  lemma Then(actions: seq<Action>, s: State, a: Action) returns (longer: seq<Action>, s': State)
    requires Run(map[], actions) == Some(s) && Enabled(s, a)
    ensures longer == actions + [a] && s' == Apply(s, a) && Run(map[], longer) == Some(s')
  {
    longer, s' := actions + [a], Apply(s, a);
    assert longer[..|actions|] == actions;
  }
}
