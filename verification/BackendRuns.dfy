/**
 What becomes of a request to the cache of backend lists, read off the actions of a run alone:
 when it is a hit, what it is answered, and what it leaves in the cache.
 */
module BackendRuns {
  import opened Wrappers
  import opened BackendCache

  type Lists = map<Port, Backends>

  function Now(actions: seq<Action>): nat {
    if actions == [] then 0
    else
      var a := actions[|actions| - 1];
      Now(actions[..|actions| - 1]) + (if a.Tick? then a.d else 0)
  }

  // What Redis holds for a port after these actions.
  function RedisHolds(lists: Lists, actions: seq<Action>, port: Port): Backends {
    if actions == [] then (if port in lists then lists[port] else [])
    else
      var a := actions[|actions| - 1];
      if a.Write? && a.port == port then a.backends else RedisHolds(lists, actions[..|actions| - 1], port)
  }

  datatype Arrival = Arrival(port: Port, skip: bool)

  // The requests, in the order in which they arrived.
  function Arrivals(actions: seq<Action>): seq<Arrival> {
    if actions == [] then []
    else
      var a := actions[|actions| - 1];
      Arrivals(actions[..|actions| - 1]) + (if a.Arrive? then [Arrival(a.port, a.skip)] else [])
  }

  // The steps request `r` has taken: the look into the cache, the answer of Redis, the store.
  function StepsOf(actions: seq<Action>, r: nat): nat {
    if actions == [] then 0
    else
      var a := actions[|actions| - 1];
      StepsOf(actions[..|actions| - 1], r) + (if a.Step? && a.r == r then 1 else 0)
  }

  // The list that Redis held when it answered request `r`.
  function Fetched(lists: Lists, actions: seq<Action>, r: nat): Option<Backends> {
    if actions == [] then None
    else
      var before, a := actions[..|actions| - 1], actions[|actions| - 1];
      if a == Step(r, true) && StepsOf(before, r) == 1 && r < |Arrivals(before)|
      then Some(RedisHolds(lists, before, Arrivals(before)[r].port))
      else Fetched(lists, before, r)
  }

  // When request `r` took its step number `n`.
  function StepAt(actions: seq<Action>, r: nat, n: nat): Option<nat> {
    if actions == [] then None
    else
      var before, a := actions[..|actions| - 1], actions[|actions| - 1];
      if a.Step? && a.r == r && StepsOf(before, r) == n then Some(Now(before)) else StepAt(before, r, n)
  }

  // A store: when, the list, and when its fetch was begun and answered.
  datatype Stored = Stored(at: nat, backends: Backends, begun: Option<nat>, answered: Option<nat>)

  function StoreOf(lists: Lists, actions: seq<Action>, r: nat): Stored
    requires Fetched(lists, actions, r).Some?
  {
    Stored(Now(actions), Fetched(lists, actions, r).value, StepAt(actions, r, 0), StepAt(actions, r, 1))
  }

  // The last store for a port: the third step of a request for it.
  function LastStore(lists: Lists, actions: seq<Action>, port: Port): Option<Stored> {
    if actions == [] then None
    else
      var before, a := actions[..|actions| - 1], actions[|actions| - 1];
      if a.Step? && StepsOf(before, a.r) == 2 && a.r < |Arrivals(before)| && Arrivals(before)[a.r].port == port
         && Fetched(lists, before, a.r).Some?
      then Some(StoreOf(lists, before, a.r))
      else LastStore(lists, before, port)
  }

  // The last store for the port is no more than five minutes old.
  predicate Fresh(lists: Lists, actions: seq<Action>, port: Port) {
    var last := LastStore(lists, actions, port);
    last.Some? && Now(actions) <= last.value.at + 300_000_000_000
  }

  // -------------------------------------------------------- the step system follows

  predicate RequestFollows(lists: Lists, actions: seq<Action>, s: State, r: nat) {
    && r < |s.requests| && r < |Arrivals(actions)|
    && var q, n, got := s.requests[r], StepsOf(actions, r), Fetched(lists, actions, r);
       && Arrival(q.port, q.skip) == Arrivals(actions)[r]
       && match q.pc
          case Arrived => n == 0 && got == None
          case Fetching(begun) => n == 1 && got == None && StepAt(actions, r, 0) == Some(begun)
          case Storing(e) =>
            && n == 2 && got == Some(e.backends) && !q.skip
            && StepAt(actions, r, 0) == Some(e.begun) && StepAt(actions, r, 1) == Some(e.answered)
          case Failed => n == 2 && got == None
          case Served(b, hit) =>
            if hit then n == 1 && got == None && !q.skip else got == Some(b) && n == if q.skip then 2 else 3
  }

  function StoredEntry(e: Entry): Stored {
    Stored(e.stored, e.backends, Some(e.begun), Some(e.answered))
  }

  predicate PortFollows(lists: Lists, actions: seq<Action>, s: State, port: Port) {
    var last := LastStore(lists, actions, port);
    && (port in s.cache ==> last == Some(StoredEntry(s.cache[port])))
    && (last.Some? ==> last.value.at <= s.now && (port in s.cache || s.now > last.value.at + TTL))
  }

  ghost predicate Follows(lists: Lists, actions: seq<Action>, s: State) {
    && s.now == Now(actions) && s.history != []
    && |s.requests| == |Arrivals(actions)|
    && (forall port: Port :: Held(Last(s), port) == RedisHolds(lists, actions, port))
    && (forall port: Port :: PortFollows(lists, actions, s, port))
    && (forall r: nat | r < |s.requests| :: RequestFollows(lists, actions, s, r))
    && (forall r: nat | r >= |s.requests| :: StepsOf(actions, r) == 0 && Fetched(lists, actions, r) == None)
  }

  lemma OneMore(lists: Lists, actions: seq<Action>, a: Action, r: nat)
    ensures var longer := actions + [a];
            && Now(longer) == Now(actions) + (if a.Tick? then a.d else 0)
            && Arrivals(longer) == Arrivals(actions) + (if a.Arrive? then [Arrival(a.port, a.skip)] else [])
            && StepsOf(longer, r) == StepsOf(actions, r) + (if a.Step? && a.r == r then 1 else 0)
            && Fetched(lists, longer, r) ==
               if a == Step(r, true) && StepsOf(actions, r) == 1 && r < |Arrivals(actions)|
               then Some(RedisHolds(lists, actions, Arrivals(actions)[r].port)) else Fetched(lists, actions, r)
    ensures forall n :: StepAt(actions + [a], r, n) ==
              if a.Step? && a.r == r && StepsOf(actions, r) == n then Some(Now(actions)) else StepAt(actions, r, n)
  {
    assert (actions + [a])[..|actions|] == actions;
  }

  lemma OneMorePort(lists: Lists, actions: seq<Action>, a: Action, port: Port)
    ensures var longer := actions + [a];
            && RedisHolds(lists, longer, port) ==
               (if a.Write? && a.port == port then a.backends else RedisHolds(lists, actions, port))
            && LastStore(lists, longer, port) ==
               if a.Step? && StepsOf(actions, a.r) == 2 && a.r < |Arrivals(actions)|
                  && Arrivals(actions)[a.r].port == port && Fetched(lists, actions, a.r).Some?
               then Some(StoreOf(lists, actions, a.r))
               else LastStore(lists, actions, port)
  {
    assert (actions + [a])[..|actions|] == actions;
  }

  // The request that takes a step.
  lemma StepFollows(lists: Lists, actions: seq<Action>, s: State, r: nat, ok: bool)
    requires Follows(lists, actions, s) && Enabled(s, Step(r, ok))
    ensures RequestFollows(lists, actions + [Step(r, ok)], Apply(s, Step(r, ok)), r)
  {
    OneMore(lists, actions, Step(r, ok), r);
    assert RequestFollows(lists, actions, s, r);
    assert Held(Last(s), s.requests[r].port) == RedisHolds(lists, actions, s.requests[r].port);
  }

  // A request that does not.
  lemma StayingFollows(lists: Lists, actions: seq<Action>, s: State, a: Action, r: nat)
    requires RequestFollows(lists, actions, s, r) && Enabled(s, a) && (a.Step? ==> a.r != r)
    ensures RequestFollows(lists, actions + [a], Apply(s, a), r)
  {
    OneMore(lists, actions, a, r);
    assert Apply(s, a).requests[r] == s.requests[r];
  }

  lemma RequestsFollow(lists: Lists, actions: seq<Action>, s: State, a: Action, r: nat)
    requires Follows(lists, actions, s) && Enabled(s, a) && r < |Apply(s, a).requests|
    ensures RequestFollows(lists, actions + [a], Apply(s, a), r)
  {
    if a.Step? && a.r == r {
      StepFollows(lists, actions, s, r, a.ok);
    } else if r < |s.requests| {
      assert RequestFollows(lists, actions, s, r);
      StayingFollows(lists, actions, s, a, r);
    } else {
      OneMore(lists, actions, a, r);
    }
  }

  lemma PortsFollow(lists: Lists, actions: seq<Action>, s: State, a: Action, port: Port)
    requires Follows(lists, actions, s) && Enabled(s, a)
    ensures PortFollows(lists, actions + [a], Apply(s, a), port)
    ensures Held(Last(Apply(s, a)), port) == RedisHolds(lists, actions + [a], port)
  {
    OneMorePort(lists, actions, a, port);
    assert PortFollows(lists, actions, s, port) && Held(Last(s), port) == RedisHolds(lists, actions, port);
    if a.Step? { assert RequestFollows(lists, actions, s, a.r); }
  }

  lemma ActionFollows(lists: Lists, actions: seq<Action>, s: State, a: Action)
    requires Follows(lists, actions, s) && Enabled(s, a)
    ensures Follows(lists, actions + [a], Apply(s, a))
  {
    var s' := Apply(s, a);
    OneMore(lists, actions, a, 0);
    forall port: Port
      ensures PortFollows(lists, actions + [a], s', port)
      ensures Held(Last(s'), port) == RedisHolds(lists, actions + [a], port)
    {
      PortsFollow(lists, actions, s, a, port);
    }
    forall r: nat | r < |s'.requests| ensures RequestFollows(lists, actions + [a], s', r) {
      RequestsFollow(lists, actions, s, a, r);
    }
    forall r: nat | r >= |s'.requests|
      ensures StepsOf(actions + [a], r) == 0 && Fetched(lists, actions + [a], r) == None
    {
      OneMore(lists, actions, a, r);
    }
  }

  lemma {:induction false} RunFollows(lists: Lists, actions: seq<Action>)
    requires Run(lists, actions).Some?
    ensures Follows(lists, actions, Run(lists, actions).value)
  {
    if actions != [] {
      var before, a := actions[..|actions| - 1], actions[|actions| - 1];
      RunFollows(lists, before);
      assert before + [a] == actions;
      ActionFollows(lists, before, Run(lists, before).value, a);
    }
  }

  // --------------------------------------------------------------------- the laws

  // The state of a request after a run.
  function PcOf(lists: Lists, actions: seq<Action>, r: nat): Option<Pc> {
    match Run(lists, actions)
    case None => None
    case Some(s) => if r < |s.requests| then Some(s.requests[r].pc) else None
  }

  /** The look into the cache, the first step of a request: it is a hit exactly when the request
      does not skip the cache and the last store for its port is no more than five minutes old,
      and then it is answered with that list. */
  lemma HitIff(lists: Lists, actions: seq<Action>, r: nat, ok: bool)
    requires Run(lists, actions + [Step(r, ok)]).Some? && StepsOf(actions, r) == 0
    ensures r < |Arrivals(actions)|
    ensures var q, pc := Arrivals(actions)[r], PcOf(lists, actions + [Step(r, ok)], r);
            if !q.skip && Fresh(lists, actions, q.port)
            then pc == Some(Served(LastStore(lists, actions, q.port).value.backends, true))
            else pc.Some? && pc.value.Fetching?
  {
    assert (actions + [Step(r, ok)])[..|actions|] == actions;
    RunFollows(lists, actions);
    var s := Run(lists, actions).value;
    assert RequestFollows(lists, actions, s, r);
    assert PortFollows(lists, actions, s, s.requests[r].port);
  }

  /** The answer of Redis, the second step of a request that missed: the list Redis holds at that
      moment answers a request that skips the cache, and is on its way into the cache otherwise;
      without an answer the request fails. */
  lemma AnswerIs(lists: Lists, actions: seq<Action>, r: nat, ok: bool)
    requires Run(lists, actions + [Step(r, ok)]).Some? && StepsOf(actions, r) == 1
    ensures r < |Arrivals(actions)|
    ensures var q, pc := Arrivals(actions)[r], PcOf(lists, actions + [Step(r, ok)], r);
            && pc.Some?
            && (!ok ==> pc.value == Failed)
            && (ok && q.skip ==> pc.value == Served(RedisHolds(lists, actions, q.port), false))
            && (ok && !q.skip ==>
                  pc.value.Storing? && pc.value.entry.backends == RedisHolds(lists, actions, q.port))
  {
    assert (actions + [Step(r, ok)])[..|actions|] == actions;
    RunFollows(lists, actions);
    var s := Run(lists, actions).value;
    assert RequestFollows(lists, actions, s, r);
    assert Held(Last(s), s.requests[r].port) == RedisHolds(lists, actions, s.requests[r].port);
  }

  lemma {:induction false} FetchedWhen(lists: Lists, actions: seq<Action>, r: nat) returns (n: nat)
    requires Fetched(lists, actions, r).Some?
    ensures n < |actions| && actions[n] == Step(r, true) && StepsOf(actions[..n], r) == 1
    ensures r < |Arrivals(actions[..n])|
    ensures Fetched(lists, actions, r).value == RedisHolds(lists, actions[..n], Arrivals(actions[..n])[r].port)
  {
    var before := actions[..|actions| - 1];
    n := |before|;
    if !(actions[n] == Step(r, true) && StepsOf(before, r) == 1 && r < |Arrivals(before)|) {
      n := FetchedWhen(lists, before, r);
      assert before[..n] == actions[..n];
    }
  }

  /** Every answer that is no hit is the list that Redis held for the port when it answered the
      request's own fetch, after the request had looked into the cache. */
  lemma MissIsFetched(lists: Lists, actions: seq<Action>, r: nat, b: Backends) returns (n: nat)
    requires PcOf(lists, actions, r) == Some(Served(b, false))
    ensures n < |actions| && actions[n] == Step(r, true) && StepsOf(actions[..n], r) == 1
    ensures r < |Arrivals(actions[..n])| && b == RedisHolds(lists, actions[..n], Arrivals(actions[..n])[r].port)
  {
    RunFollows(lists, actions);
    assert RequestFollows(lists, actions, Run(lists, actions).value, r);
    n := FetchedWhen(lists, actions, r);
  }

  /** A request that skips the cache is never answered from it. */
  lemma SkipNeverHits(lists: Lists, actions: seq<Action>, r: nat)
    requires PcOf(lists, actions, r).Some?
    ensures r < |Arrivals(actions)|
    ensures var pc := PcOf(lists, actions, r).value; Arrivals(actions)[r].skip && pc.Served? ==> !pc.hit
  {
    RunFollows(lists, actions);
    assert RequestFollows(lists, actions, Run(lists, actions).value, r);
  }

  /** How a request ends: with a hit after one step, without an answer after two, or with the
      fetched list, after two steps if it skips the cache and after three if not. */
  lemma EndsWhen(lists: Lists, actions: seq<Action>, r: nat)
    requires PcOf(lists, actions, r).Some?
    ensures r < |Arrivals(actions)|
    ensures var n, q := StepsOf(actions, r), Arrivals(actions)[r];
            match PcOf(lists, actions, r).value
            case Arrived => n == 0
            case Fetching(_) => n == 1
            case Storing(_) => n == 2 && !q.skip
            case Failed => n == 2 && Fetched(lists, actions, r) == None
            case Served(b, hit) => if hit then n == 1 else n == (if q.skip then 2 else 3)
  {
    RunFollows(lists, actions);
    assert RequestFollows(lists, actions, Run(lists, actions).value, r);
  }

  predicate IsOver(pc: Pc) {
    pc.Served? || pc.Failed?
  }

  /** What can happen next: a request goes on until it is answered or has failed; time passes,
      Redis changes and requests arrive at any moment. */
  lemma NextIff(lists: Lists, actions: seq<Action>, a: Action)
    requires Run(lists, actions).Some? && !a.Purge?
    ensures Run(lists, actions + [a]).Some? <==>
            (a.Step? ==> PcOf(lists, actions, a.r).Some? && !IsOver(PcOf(lists, actions, a.r).value))
    ensures forall r: nat :: PcOf(lists, actions, r).Some? <==> r < |Arrivals(actions)|
  {
    assert (actions + [a])[..|actions|] == actions;
    RunFollows(lists, actions);
  }

  /** A hit is answered with the list that Redis held when it answered an earlier fetch for the
      port, no longer ago than five minutes and the time from that answer to its store. */
  lemma HitAge(lists: Lists, actions: seq<Action>, r: nat, ok: bool)
    requires Run(lists, actions + [Step(r, ok)]).Some? && StepsOf(actions, r) == 0
    requires PcOf(lists, actions + [Step(r, ok)], r).Some? && PcOf(lists, actions + [Step(r, ok)], r).value.Served?
    ensures r < |Arrivals(actions)|
    ensures var port := Arrivals(actions)[r].port;
            && LastStore(lists, actions, port).Some?
            && var last := LastStore(lists, actions, port).value;
               && PcOf(lists, actions + [Step(r, ok)], r).value.backends == last.backends
               && last.begun.Some? && last.answered.Some? && last.begun.value <= last.answered.value <= last.at
               && Now(actions) - last.answered.value <= 300_000_000_000 + (last.at - last.answered.value)
               && HeldAt(Run(lists, actions).value.history, port, last.backends, last.answered.value)
  {
    HitIff(lists, actions, r, ok);
    RunFollows(lists, actions);
    RunKeeps(lists, actions);
    assert (actions + [Step(r, ok)])[..|actions|] == actions;
    var s := Run(lists, actions).value;
    var port := Arrivals(actions)[r].port;
    assert RequestFollows(lists, actions, s, r) && PortFollows(lists, actions, s, port);
    assert Genuine(s, port, s.cache[port]);
  }
}
