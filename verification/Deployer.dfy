/**
 Deploying an imposter: choosing the mountebank instances, deploying to all of them
 concurrently, and publishing the new frontend.
 */
module Deployer {
  import opened Wrappers
  import opened RedisLists
  import opened Decimal
  import opened GoStrings
  import opened MountebankPool

  // ------------------------------------------------------------- choosing instances

  /** Reads mountebank_pool up to four times, three seconds apart, until it is not empty;
      `answers` is what the reads find. */
  method GetMountebankInstances(answers: seq<seq<string>>) returns (instances: seq<string>, attempts: nat)
    requires |answers| == 4
    ensures attempts <= 3 && instances == answers[attempts]
    ensures forall k | 0 <= k < attempts :: answers[k] == []
    ensures instances == [] ==> attempts == 3
  {
    instances := answers[0];
    attempts := 0;
    while |instances| == 0 && attempts < 3
      invariant attempts <= 3 && instances == answers[attempts]
      invariant forall k | 0 <= k < attempts :: answers[k] == []
    {
      instances := answers[attempts + 1];
      attempts := attempts + 1;
    }
  }

  // The container name in an endpoint, as /^http:\/\/([^\:]+):[0-9]+$/ captures it.
  function HostOf(endpoint: string): Option<Container> {
    if |endpoint| < 7 || endpoint[..7] != "http://" then None
    else
      var rest := endpoint[7..];
      var i := IndexOf(rest, ':');
      if i > 0 && IsNumeral(rest[i + 1..]) then Some(rest[..i]) else None
  }

  /** The capture gives back the container an endpoint was made from. */
  lemma HostOfEndpoint(c: Container, mountebankPort: string)
    requires IsName(c) && IsNumeral(mountebankPort)
    ensures HostOf(Endpoint(c, mountebankPort)) == Some(c)
  {
    var e := Endpoint(c, mountebankPort);
    var rest := e[7..];
    assert e[..7] == "http://" && rest == c + ":" + mountebankPort;
    var i := IndexOf(rest, ':');
    assert rest[..|c|] == c && rest[|c|] == ':';
    assert i == |c|;
    assert rest[i + 1..] == mountebankPort;
  }

  // /mb-debug/.test(name)
  predicate IsDebug(name: string) {
    |name| >= 8 && (name[..8] == "mb-debug" || IsDebug(name[1..]))
  }

  /** The pattern matches exactly what has the form of an endpoint, and captures its container. */
  lemma HostOfIff(endpoint: string, c: Container)
    ensures HostOf(endpoint) == Some(c) <==>
            exists port: string :: IsNumeral(port) && IsName(c) && endpoint == Endpoint(c, port)
  {
    if HostOf(endpoint) == Some(c) {
      var rest := endpoint[7..];
      var port := rest[IndexOf(rest, ':') + 1..];
      assert rest == c + ":" + port;
      assert endpoint == Endpoint(c, port);
    }
    forall port: string | IsNumeral(port) && IsName(c) && endpoint == Endpoint(c, port)
      ensures HostOf(endpoint) == Some(c)
    {
      HostOfEndpoint(c, port);
    }
  }

  predicate DebugAt(name: string, i: nat) {
    |name| >= i + 8 && name[i..i + 8] == "mb-debug"
  }

  /** A name is one of debug mode exactly when "mb-debug" occurs in it. */
  lemma {:induction false} IsDebugIff(name: string)
    ensures IsDebug(name) <==> exists i: nat :: DebugAt(name, i)
  {
    if |name| >= 8 {
      IsDebugIff(name[1..]);
      assert DebugAt(name, 0) <==> name[..8] == "mb-debug";
      if i: nat :| DebugAt(name[1..], i) {
        assert name[i + 1..i + 9] == name[1..][i..i + 8];
        assert DebugAt(name, i + 1);
      }
      if i: nat :| DebugAt(name, i) && i > 0 {
        assert name[i..i + 8] == name[1..][i - 1..i + 7];
        assert DebugAt(name[1..], i - 1);
      }
    }
  }

  // The names of all endpoints; None if one of them does not match.
  function Hosts(endpoints: seq<string>): Option<seq<Container>> {
    if endpoints == [] then Some([])
    else
      match (HostOf(endpoints[0]), Hosts(endpoints[1..]))
      case (Some(h), Some(rest)) => Some([h] + rest)
      case _ => None
  }

  function Filter(names: seq<Container>, debug: bool): seq<Container> {
    if names == [] then []
    else
      var n := |names| - 1;
      Filter(names[..n], debug) + (if IsDebug(names[n]) == debug then [names[n]] else [])
  }

  // parseInt gives an integer or NaN.
  datatype Capacity = Number(n: int) | NaN

  // instances.slice(0, capacity)
  function Slice(names: seq<Container>, capacity: Capacity): seq<Container> {
    match capacity
    case NaN => []
    case Number(n) =>
      if n >= |names| then names
      else if n >= 0 then names[..n]
      else if |names| + n >= 0 then names[..|names| + n]
      else []
  }

  datatype Choice = Chosen(instances: seq<Container>) | NoMatch | NoInstances

  function Choose(endpoints: seq<string>, capacity: Capacity, debug: bool): Choice {
    match Hosts(endpoints)
    case None => NoMatch
    case Some(names) =>
      var instances := Slice(Filter(names, debug), capacity);
      if instances == [] then NoInstances else Chosen(instances)
  }

  // The endpoint names a container of the asked mode.
  predicate OfMode(endpoint: string, debug: bool) {
    HostOf(endpoint).Some? && IsDebug(HostOf(endpoint).value) == debug
  }

  predicate AllOfMode(endpoints: seq<string>, debug: bool, at: seq<nat>) {
    forall k | 0 <= k < |at| :: at[k] < |endpoints| && OfMode(endpoints[at[k]], debug)
  }

  predicate Increasing(at: seq<nat>) {
    forall k, m | 0 <= k < m < |at| :: at[k] < at[m]
  }

  predicate NoneMissing(endpoints: seq<string>, debug: bool, at: seq<nat>) {
    forall i | 0 <= i < |endpoints| && OfMode(endpoints[i], debug) :: i in at
  }

  // `at` are the places of the endpoints of the asked mode, in order.
  predicate ArePlaces(endpoints: seq<string>, debug: bool, at: seq<nat>) {
    AllOfMode(endpoints, debug, at) && Increasing(at) && NoneMissing(endpoints, debug, at)
  }

  // How many of so many candidates a capacity leaves: a negative one is counted off their end.
  function Quota(capacity: Capacity, candidates: nat): nat {
    match capacity
    case NaN => 0
    case Number(n) =>
      if n < 0 then (if candidates + n < 0 then 0 else candidates + n) else if n < candidates then n else candidates
  }

  // The instances are the containers of the first endpoints of the asked mode, as many as the
  // capacity leaves.
  ghost predicate IsChoice(endpoints: seq<string>, capacity: Capacity, debug: bool, instances: seq<Container>) {
    exists at :: ArePlaces(endpoints, debug, at) && AreFirst(endpoints, capacity, at, instances)
  }

  predicate AreFirst(endpoints: seq<string>, capacity: Capacity, at: seq<nat>, instances: seq<Container>) {
    && |instances| == Quota(capacity, |at|) <= |at|
    && forall k | 0 <= k < |instances| :: at[k] < |endpoints| && HostOf(endpoints[at[k]]) == Some(instances[k])
  }

  lemma {:induction false} HostsIff(endpoints: seq<string>)
    ensures Hosts(endpoints).None? <==> exists e :: e in endpoints && HostOf(e).None?
    ensures Hosts(endpoints).Some? ==>
              && |Hosts(endpoints).value| == |endpoints|
              && forall i | 0 <= i < |endpoints| :: HostOf(endpoints[i]) == Some(Hosts(endpoints).value[i])
  {
    if endpoints != [] {
      var rest := endpoints[1..];
      HostsIff(rest);
      assert forall e :: e in endpoints <==> e == endpoints[0] || e in rest;
      if Hosts(endpoints).Some? {
        assert Hosts(endpoints).value == [HostOf(endpoints[0]).value] + Hosts(rest).value;
        forall i | 0 <= i < |endpoints| ensures HostOf(endpoints[i]) == Some(Hosts(endpoints).value[i]) {
          if i > 0 { assert endpoints[i] == rest[i - 1]; }
        }
      }
    }
  }

  // The places in a list from those in all of it but the last endpoint.
  lemma OneMorePlace(endpoints: seq<string>, debug: bool, before: seq<nat>, at: seq<nat>)
    requires var n := |endpoints| - 1;
             && n >= 0 && ArePlaces(endpoints[..n], debug, before)
             && at == before + (if OfMode(endpoints[n], debug) then [n] else [])
    ensures ArePlaces(endpoints, debug, at)
  {
    var n := |endpoints| - 1;
    forall k | 0 <= k < |before| ensures at[k] < n && OfMode(endpoints[at[k]], debug) {
      assert endpoints[..n][before[k]] == endpoints[at[k]];
    }
    forall i | 0 <= i < |endpoints| && OfMode(endpoints[i], debug) ensures i in at {
      if i < n {
        assert endpoints[..n][i] == endpoints[i] && i in before;
      }
    }
  }

  // Filtering the names keeps those at the places of the asked mode.
  lemma {:induction false} FilterPlaces(endpoints: seq<string>, names: seq<Container>, debug: bool)
    returns (at: seq<nat>)
    requires |names| == |endpoints| && forall i | 0 <= i < |names| :: HostOf(endpoints[i]) == Some(names[i])
    ensures ArePlaces(endpoints, debug, at) && |at| == |Filter(names, debug)|
    ensures forall k | 0 <= k < |at| :: names[at[k]] == Filter(names, debug)[k]
  {
    if names == [] {
      at := [];
    } else {
      var n := |names| - 1;
      var before := FilterPlaces(endpoints[..n], names[..n], debug);
      at := before + (if IsDebug(names[n]) == debug then [n] else []);
      OneMorePlace(endpoints, debug, before, at);
      forall k | 0 <= k < |before| ensures names[at[k]] == Filter(names, debug)[k] {
        assert names[..n][before[k]] == names[at[k]];
      }
    }
  }

  lemma ChooseMeets(endpoints: seq<string>, capacity: Capacity, debug: bool)
    ensures var choice := Choose(endpoints, capacity, debug);
            && (choice.NoMatch? <==> exists e :: e in endpoints && HostOf(e).None?)
            && (choice.NoInstances? ==> IsChoice(endpoints, capacity, debug, []))
            && (choice.Chosen? ==> choice.instances != [] && IsChoice(endpoints, capacity, debug, choice.instances))
  {
    HostsIff(endpoints);
    if Hosts(endpoints).Some? {
      var names := Hosts(endpoints).value;
      var at := FilterPlaces(endpoints, names, debug);
      assert AreFirst(endpoints, capacity, at, Slice(Filter(names, debug), capacity));
    }
  }

  /** The choice fails with no match exactly when some element of the pool is not an endpoint.
      Otherwise it is the containers of the first endpoints of the asked mode, in the order of
      the pool, as many as the capacity leaves; if that is none, it fails with no instances. */
  method ChooseInstances(endpoints: seq<string>, capacity: Capacity, debug: bool) returns (choice: Choice)
    ensures choice.NoMatch? <==> exists e :: e in endpoints && HostOf(e).None?
    ensures choice.NoInstances? ==> IsChoice(endpoints, capacity, debug, [])
    ensures choice.Chosen? ==> choice.instances != [] && IsChoice(endpoints, capacity, debug, choice.instances)
    ensures choice == Choose(endpoints, capacity, debug)
  {
    ChooseMeets(endpoints, capacity, debug);
    var hosts := Hosts(endpoints);
    if hosts.None? {
      return NoMatch;
    }
    var instances := hosts.value;
    instances := Filter(instances, debug);
    instances := Slice(instances, capacity);
    if |instances| == 0 {
      return NoInstances;
    }
    return Chosen(instances);
  }

  // What the pool holds when only the watcher writes it: endpoints of containers.
  ghost predicate AllEndpoints(endpoints: seq<string>, mountebankPort: string) {
    forall e | e in endpoints :: exists c: Container :: IsEndpointOf(e, c, mountebankPort)
  }

  predicate IsEndpointOf(e: string, c: Container, mountebankPort: string) {
    IsName(c) && IsNumeral(mountebankPort) && e == Endpoint(c, mountebankPort)
  }

  // A name that a Docker container can have, as far as it matters here.
  predicate IsName(c: Container) {
    c != "" && ':' !in c
  }

  /** The watcher puts nothing but endpoints of containers into the pool. */
  lemma {:induction false} PoolOfEndpoints(start: State, watcher: seq<MountebankPool.Action>)
    requires Initial(start) && Run(start, watcher).Some?
    requires IsNumeral(start.mountebankPort) && AllEndpoints(start.pool, start.mountebankPort)
    requires forall i | 0 <= i < |watcher| && !watcher[i].Step? :: IsName(watcher[i].container)
    ensures var s := Run(start, watcher).value;
            && s.mountebankPort == start.mountebankPort && AllEndpoints(s.pool, start.mountebankPort)
            && forall h | 0 <= h < |s.handlers| :: IsName(s.handlers[h].container)
  {
    if watcher != [] {
      var n := |watcher| - 1;
      PoolOfEndpoints(start, watcher[..n]);
      var s, s' := Run(start, watcher[..n]).value, Run(start, watcher).value;
      if watcher[n].Step? {
        var c := s.handlers[watcher[n].h].container;
        forall e | e in s'.pool ensures exists d: Container :: IsEndpointOf(e, d, start.mountebankPort) {
          assert e in s.pool || IsEndpointOf(e, c, start.mountebankPort);
        }
      }
    }
  }

  lemma {:induction false} HostsDistinct(endpoints: seq<string>, mountebankPort: string)
    requires Distinct(endpoints) && AllEndpoints(endpoints, mountebankPort)
    ensures Hosts(endpoints).Some? && Distinct(Hosts(endpoints).value)
    ensures forall c :: c in Hosts(endpoints).value <==> Endpoint(c, mountebankPort) in endpoints
  {
    if endpoints != [] {
      var e, rest := endpoints[0], endpoints[1..];
      assert endpoints == [e] + rest && e !in rest && e in endpoints;
      assert AllEndpoints(rest, mountebankPort) by {
        assert forall x | x in rest :: x in endpoints;
      }
      HostsDistinct(rest, mountebankPort);
      var c: Container :| IsEndpointOf(e, c, mountebankPort);
      HostOfEndpoint(c, mountebankPort);
      assert Hosts(endpoints) == Some([c] + Hosts(rest).value);
      forall d: Container ensures d in Hosts(endpoints).value <==> Endpoint(d, mountebankPort) in endpoints {
        EndpointInjective(c, d, mountebankPort);
      }
    }
  }

  lemma {:induction false} FilterDistinct(names: seq<Container>, debug: bool)
    requires Distinct(names)
    ensures Distinct(Filter(names, debug))
    ensures forall c :: c in Filter(names, debug) <==> c in names && IsDebug(c) == debug
  {
    if names != [] {
      var n := |names| - 1;
      assert names == names[..n] + [names[n]] && names[n] !in names[..n];
      FilterDistinct(names[..n], debug);
    }
  }

  lemma {:induction false} FilterSize(names: seq<Container>, debug: bool)
    ensures |Filter(names, debug)| <= |names|
  {
    if names != [] { FilterSize(names[..|names| - 1], debug); }
  }

  lemma SliceDistinct(names: seq<Container>, capacity: Capacity)
    requires Distinct(names)
    ensures var slice := Slice(names, capacity);
            && Distinct(slice) && (forall c | c in slice :: c in names)
            && (capacity.Number? && capacity.n >= |names| ==> slice == names)
  {
  }

  /** From a pool of distinct endpoints the chosen instances are distinct, of the asked mode and
      in the pool; without a capacity in the way they are all such. */
  lemma ChosenFromPool(endpoints: seq<string>, mountebankPort: string, capacity: Capacity, debug: bool)
    requires Distinct(endpoints) && AllEndpoints(endpoints, mountebankPort)
    requires Choose(endpoints, capacity, debug).Chosen?
    ensures var instances := Choose(endpoints, capacity, debug).instances;
            && instances != [] && Distinct(instances)
            && (forall c | c in instances :: Endpoint(c, mountebankPort) in endpoints && IsDebug(c) == debug)
            && (capacity.Number? && capacity.n >= |endpoints| ==>
                  forall c | Endpoint(c, mountebankPort) in endpoints && IsDebug(c) == debug :: c in instances)
  {
    HostsDistinct(endpoints, mountebankPort);
    HostsIff(endpoints);
    var names := Hosts(endpoints).value;
    FilterDistinct(names, debug);
    FilterSize(names, debug);
    SliceDistinct(Filter(names, debug), capacity);
  }

  /** The number of chosen instances is within the capacity exactly when that is not negative:
      a negative one counts from the end of the list. */
  lemma WithinCapacity(endpoints: seq<string>, n: int, debug: bool)
    requires Choose(endpoints, Number(n), debug).Chosen?
    ensures |Choose(endpoints, Number(n), debug).instances| <= n <==> n >= 0
  {
  }

  lemma OneOfTwoChosen(e: string, f: string, c: Container, d: Container)
    requires HostOf(e) == Some(c) && HostOf(f) == Some(d) && !IsDebug(c) && !IsDebug(d)
    ensures Choose([e, f], Number(-1), false) == Chosen([c])
  {
    var none: seq<Container> := [];
    assert [e, f][1..] == [f] && [f][1..] == [] && [d] + none == [d];
    assert Hosts([f]) == Some([d]);
    assert Hosts([e, f]) == Some([c] + [d]) && [c] + [d] == [c, d];
    assert [c, d][..1] == [c] && [c][..0] == [] && none + [c] == [c];
    assert Filter([c], false) == [c];
    assert Filter([c, d], false) == [c] + [d];
  }

  /** With a capacity of -1 an instance is chosen out of two. */
  lemma NegativeCapacityChooses()
    ensures Choose(["http://a:1", "http://b:1"], Number(-1), false) == Chosen(["a"])
  {
    HostOfEndpoint("a", "1");
    HostOfEndpoint("b", "1");
    assert Endpoint("a", "1") == "http://a:1" && Endpoint("b", "1") == "http://b:1";
    OneOfTwoChosen(Endpoint("a", "1"), Endpoint("b", "1"), "a", "b");
  }

  // ------------------------------------------------------------ deploying everywhere

  // The next command of one deployImposter.
  datatype Task = ToClear | ToPost | ToLrem | ToRpush | Deployed | Rejected

  // Clearing: the DEL of the frontend is next. Aborted: it was rejected.
  datatype Phase = Clearing | Aborted | Deploying | Published | Failed

  // `list` is frontend:<port>.
  datatype Deployment = Deployment(
    port: string,
    instances: seq<Container>,
    list: seq<string>,
    tasks: seq<Task>,
    phase: Phase)

  // Settle: all tasks have ended; `ok` is the answer to the PUBLISH, if it comes to that.
  // Foreign: another writer of the same list, such as a second deployment to the port.
  datatype Action = Clear(ok: bool) | Advance(i: nat, ok: bool) | Settle(ok: bool) | Foreign(command: Command)

  function Begin(port: string, instances: seq<Container>, before: seq<string>): Deployment {
    Deployment(port, instances, before, seq(|instances|, _ => ToClear), Clearing)
  }

  // The endpoint of the imposter on an instance.
  function Target(s: Deployment, i: nat): string
    requires i < |s.instances|
  {
    Endpoint(s.instances[i], s.port)
  }

  predicate Finished(t: Task) {
    t == Deployed || t == Rejected
  }

  predicate CanAct(s: Deployment, a: Action) {
    && |s.tasks| == |s.instances|
    && match a
       case Clear(_) => s.phase == Clearing
       case Advance(i, _) => s.phase == Deploying && i < |s.tasks| && !Finished(s.tasks[i])
       case Settle(_) => s.phase == Deploying && forall i | 0 <= i < |s.tasks| :: Finished(s.tasks[i])
       case Foreign(_) => true
  }

  function Act(s: Deployment, a: Action): Deployment
    requires CanAct(s, a)
  {
    match a
    case Clear(ok) => if ok then s.(phase := Deploying, list := []) else s.(phase := Aborted)
    case Settle(ok) =>
      s.(phase := if ok && forall i | 0 <= i < |s.tasks| :: s.tasks[i] != Rejected then Published else Failed)
    case Foreign(command) => s.(list := Perform(s.list, command))
    case Advance(i, ok) =>
      if !ok then s.(tasks := s.tasks[i := Rejected])
      else match s.tasks[i]
        case ToClear => s.(tasks := s.tasks[i := ToPost])
        case ToPost => s.(tasks := s.tasks[i := ToLrem])
        case ToLrem => s.(tasks := s.tasks[i := ToRpush], list := Lrem(s.list, Target(s, i)))
        case ToRpush => s.(tasks := s.tasks[i := Deployed], list := Rpush(s.list, Target(s, i)))
        case _ => s
  }

  // The state after a run of actions in any order, if each of them could happen.
  function Play(start: Deployment, actions: seq<Action>): Option<Deployment> {
    if actions == [] then Some(start)
    else
      var n := |actions| - 1;
      match Play(start, actions[..n])
      case None => None
      case Some(s) => if CanAct(s, actions[n]) then Some(Act(s, actions[n])) else None
  }

  // The frontend has been emptied by this deployment.
  predicate Cleared(s: Deployment) {
    s.phase != Clearing && s.phase != Aborted
  }

  // What holds of the tasks, whatever other writers do.
  predicate Ordered(s: Deployment) {
    && |s.tasks| == |s.instances|
    && (!Cleared(s) ==> forall i | 0 <= i < |s.tasks| :: s.tasks[i] == ToClear)
    && (s.phase == Published ==> forall i | 0 <= i < |s.tasks| :: s.tasks[i] == Deployed)
  }

  // The frontend holds exactly the endpoints of the tasks that are done.
  ghost predicate Mirrors(s: Deployment) {
    && |s.tasks| == |s.instances| && Distinct(s.list)
    && (forall i | 0 <= i < |s.tasks| :: Target(s, i) in s.list <==> s.tasks[i] == Deployed)
    && (forall e | e in s.list :: exists i :: 0 <= i < |s.tasks| && Target(s, i) == e)
  }

  lemma TargetsDiffer(s: Deployment, i: nat, j: nat)
    requires Distinct(s.instances) && i < |s.instances| && j < |s.instances| && i != j
    ensures Target(s, i) != Target(s, j)
  {
    EndpointInjective(s.instances[i], s.instances[j], s.port);
  }

  lemma AdvanceKeeps(s: Deployment, i: nat, ok: bool)
    requires Mirrors(s) && Distinct(s.instances) && CanAct(s, Advance(i, ok))
    ensures Mirrors(Act(s, Advance(i, ok)))
  {
    var s' := Act(s, Advance(i, ok));
    LremDistinct(s.list, Target(s, i));
    forall j | 0 <= j < |s.tasks| ensures Target(s', j) in s'.list <==> s'.tasks[j] == Deployed {
      if j != i { TargetsDiffer(s, i, j); }
    }
    forall e | e in s'.list ensures exists j :: 0 <= j < |s'.tasks| && Target(s', j) == e {
      if e in s.list {
        var j :| 0 <= j < |s.tasks| && Target(s, j) == e;
        assert Target(s', j) == e;
      } else {
        assert Target(s', i) == e;
      }
    }
  }

  lemma ActOrdered(s: Deployment, a: Action)
    requires Ordered(s) && CanAct(s, a)
    ensures Ordered(Act(s, a)) && Act(s, a).instances == s.instances && Act(s, a).port == s.port
  {
  }

  lemma {:induction false} PlayOrdered(start: Deployment, actions: seq<Action>)
    requires Ordered(start) && Play(start, actions).Some?
    ensures var s := Play(start, actions).value;
            Ordered(s) && s.instances == start.instances && s.port == start.port
  {
    if actions != [] {
      var n := |actions| - 1;
      PlayOrdered(start, actions[..n]);
      ActOrdered(Play(start, actions[..n]).value, actions[n]);
    }
  }

  // No other writer since the DEL, or since the beginning before it.
  predicate Undisturbed(actions: seq<Action>) {
    actions == [] ||
    var a := actions[|actions| - 1];
    a == Clear(true) || (!a.Foreign? && Undisturbed(actions[..|actions| - 1]))
  }

  ghost predicate Consistent(s: Deployment, before: seq<string>) {
    if Cleared(s) then Mirrors(s) else s.list == before
  }

  lemma ActKeeps(s: Deployment, before: seq<string>, a: Action)
    requires Ordered(s) && Distinct(s.instances) && CanAct(s, a) && !a.Foreign?
    requires a == Clear(true) || Consistent(s, before)
    ensures Consistent(Act(s, a), before)
  {
    if a.Advance? {
      AdvanceKeeps(s, a.i, a.ok);
    } else {
      assert forall j | 0 <= j < |s.tasks| :: Target(Act(s, a), j) == Target(s, j);
    }
  }

  lemma {:induction false} PlayKeeps(port: string, instances: seq<Container>, before: seq<string>, actions: seq<Action>)
    requires Distinct(instances) && Play(Begin(port, instances, before), actions).Some? && Undisturbed(actions)
    ensures Consistent(Play(Begin(port, instances, before), actions).value, before)
  {
    if actions != [] {
      var n := |actions| - 1;
      PlayOrdered(Begin(port, instances, before), actions[..n]);
      if actions[n] != Clear(true) { PlayKeeps(port, instances, before, actions[..n]); }
      ActKeeps(Play(Begin(port, instances, before), actions[..n]).value, before, actions[n]);
    }
  }

  function Targets(port: string, instances: seq<Container>): (ts: seq<string>)
    ensures |ts| == |instances| && forall i :: 0 <= i < |ts| ==> ts[i] == Endpoint(instances[i], port)
  {
    seq(|instances|, i requires 0 <= i < |instances| => Endpoint(instances[i], port))
  }

  /** For every interleaving over distinct instances, while no other writer has come in since the
      DEL, the frontend is a part of the chosen endpoints without duplicates; before the DEL, and
      for good if that is rejected, it is the old one. */
  lemma FrontendIsPart(port: string, instances: seq<Container>, before: seq<string>, actions: seq<Action>)
    requires Distinct(instances) && Play(Begin(port, instances, before), actions).Some? && Undisturbed(actions)
    ensures var s := Play(Begin(port, instances, before), actions).value;
            if Cleared(s) then Distinct(s.list) && forall e | e in s.list :: e in Targets(port, instances)
            else s.list == before
  {
    PlayKeeps(port, instances, before, actions);
    PlayOrdered(Begin(port, instances, before), actions);
    var s := Play(Begin(port, instances, before), actions).value;
    if Cleared(s) {
      forall e | e in s.list ensures e in Targets(port, instances) {
        var i :| 0 <= i < |s.tasks| && Target(s, i) == e;
        assert Targets(port, instances)[i] == e;
      }
    }
  }

  lemma TargetsDistinct(port: string, instances: seq<Container>)
    requires Distinct(instances)
    ensures Distinct(Targets(port, instances))
  {
    var ts := Targets(port, instances);
    forall i, j | 0 <= i < j < |ts| ensures ts[i] != ts[j] {
      EndpointInjective(instances[i], instances[j], port);
    }
  }

  /** The new frontend is published only when every deployment succeeded, and then, if no other
      writer has come in since the DEL, the frontend is a permutation of the chosen endpoints. */
  lemma PublishedIsComplete(port: string, instances: seq<Container>, before: seq<string>, actions: seq<Action>)
    requires Distinct(instances) && Play(Begin(port, instances, before), actions).Some?
    requires Play(Begin(port, instances, before), actions).value.phase == Published
    ensures var s := Play(Begin(port, instances, before), actions).value;
            && (forall i | 0 <= i < |s.tasks| :: s.tasks[i] == Deployed)
            && (Undisturbed(actions) ==>
                  multiset(s.list) == multiset(Targets(port, instances)) && |s.list| == |instances|)
  {
    PlayOrdered(Begin(port, instances, before), actions);
    if Undisturbed(actions) {
      PlayKeeps(port, instances, before, actions);
      FrontendIsPart(port, instances, before, actions);
      var s, ts := Play(Begin(port, instances, before), actions).value, Targets(port, instances);
      TargetsDistinct(port, instances);
      forall e | e in ts ensures e in s.list {
        var i :| 0 <= i < |ts| && ts[i] == e;
        assert Target(s, i) == e;
      }
      SameElements(s.list, ts);
    }
  }

  // ---------------------------------------------------------------- other writers

  // The command that an action performs on the frontend, if any.
  function CommandOf(s: Deployment, a: Action): Option<Command>
    requires CanAct(s, a)
  {
    match a
    case Foreign(command) => Some(command)
    case Clear(true) => Some(Del)
    case Advance(i, true) =>
      if s.tasks[i] == ToLrem then Some(Remove(Target(s, i)))
      else if s.tasks[i] == ToRpush then Some(Append(Target(s, i))) else None
    case _ => None
  }

  // The last command on the frontend that named this endpoint was another writer's DEL or LREM.
  predicate TakenOut(start: Deployment, actions: seq<Action>, e: string)
    requires Play(start, actions).Some?
  {
    actions != [] &&
    var rest, a := actions[..|actions| - 1], actions[|actions| - 1];
    var c := CommandOf(Play(start, rest).value, a);
    if c.Some? && Names(c.value, e) then a.Foreign? && !c.value.Append? else TakenOut(start, rest, e)
  }

  lemma ListByCommand(s: Deployment, a: Action)
    requires CanAct(s, a)
    ensures var c := CommandOf(s, a); Act(s, a).list == if c.Some? then Perform(s.list, c.value) else s.list
  {
  }

  // A deployed endpoint is only named again by other writers.
  lemma NamedByOthers(s: Deployment, a: Action, i: nat)
    requires Ordered(s) && Distinct(s.instances) && CanAct(s, a) && i < |s.tasks| && s.tasks[i] == Deployed
    ensures var c := CommandOf(s, a); c.Some? && Names(c.value, Target(s, i)) ==> a.Foreign?
  {
    if a.Advance? && a.i != i { TargetsDiffer(s, a.i, i); }
  }

  /** Whatever other writers do to the list, at every moment the endpoint of a deployed task is in
      the frontend unless the last command that named it was another writer's DEL or LREM. */
  lemma {:induction false} DeployedIff(start: Deployment, actions: seq<Action>, i: nat)
    requires Ordered(start) && start.phase == Clearing && Distinct(start.instances) && Play(start, actions).Some?
    requires var s := Play(start, actions).value; i < |s.tasks| && s.tasks[i] == Deployed
    ensures i < |start.instances|
    ensures Target(start, i) in Play(start, actions).value.list <==> !TakenOut(start, actions, Target(start, i))
  {
    PlayOrdered(start, actions);
    if actions != [] {
      var n := |actions| - 1;
      var s, a := Play(start, actions[..n]).value, actions[n];
      PlayOrdered(start, actions[..n]);
      ListByCommand(s, a);
      if s.tasks[i] == Deployed {
        DeployedIff(start, actions[..n], i);
        NamedByOthers(s, a, i);
      }
    }
  }

  /** What is published lacks a chosen endpoint exactly if another writer's DEL or LREM was the
      last command to name it. */
  lemma PublishedIff(port: string, instances: seq<Container>, before: seq<string>, actions: seq<Action>, i: nat)
    requires Distinct(instances) && Play(Begin(port, instances, before), actions).Some? && i < |instances|
    requires Play(Begin(port, instances, before), actions).value.phase == Published
    ensures var e := Endpoint(instances[i], port);
            e in Play(Begin(port, instances, before), actions).value.list <==>
            !TakenOut(Begin(port, instances, before), actions, e)
  {
    PlayOrdered(Begin(port, instances, before), actions);
    DeployedIff(Begin(port, instances, before), actions, i);
  }

  /** From the registry to the publish: what is chosen from a pool that the watcher's handlers,
      failing and overlapping as they may, have kept free of duplicates, and deployed in any
      interleaving, is published completely, but for what other writers take out. */
  lemma DeployFromRegistry(start: State, watcher: seq<MountebankPool.Action>, capacity: Capacity, debug: bool,
                           port: string, before: seq<string>, actions: seq<Action>)
    requires Initial(start) && Run(start, watcher).Some?
    requires Distinct(start.pool) && NeverPushesAgain(start, watcher, Pool)
    requires IsNumeral(start.mountebankPort) && AllEndpoints(start.pool, start.mountebankPort)
    requires forall i | 0 <= i < |watcher| && !watcher[i].Step? :: IsName(watcher[i].container)
    requires Choose(Run(start, watcher).value.pool, capacity, debug).Chosen?
    requires var instances := Choose(Run(start, watcher).value.pool, capacity, debug).instances;
             && Play(Begin(port, instances, before), actions).Some?
             && Play(Begin(port, instances, before), actions).value.phase == Published
    ensures var instances := Choose(Run(start, watcher).value.pool, capacity, debug).instances;
            var d := Begin(port, instances, before);
            var list := Play(d, actions).value.list;
            && 0 < |instances| && capacity.Number? && (capacity.n >= 0 ==> |instances| <= capacity.n)
            && (forall c | c in instances :: Endpoint(c, port) in list <==> !TakenOut(d, actions, Endpoint(c, port)))
            && (Undisturbed(actions) ==> Distinct(list) && multiset(list) == multiset(Targets(port, instances)))
  {
    DistinctIff(start, watcher, Pool);
    PoolOfEndpoints(start, watcher);
    var pool := Run(start, watcher).value.pool;
    ChosenFromPool(pool, start.mountebankPort, capacity, debug);
    var instances := Choose(pool, capacity, debug).instances;
    if capacity.Number? { WithinCapacity(pool, capacity.n, debug); }
    PublishedParts(port, instances, before, actions);
  }

  lemma PublishedParts(port: string, instances: seq<Container>, before: seq<string>, actions: seq<Action>)
    requires Distinct(instances) && Play(Begin(port, instances, before), actions).Some?
    requires Play(Begin(port, instances, before), actions).value.phase == Published
    ensures var d := Begin(port, instances, before);
            var list := Play(d, actions).value.list;
            && (forall c | c in instances :: Endpoint(c, port) in list <==> !TakenOut(d, actions, Endpoint(c, port)))
            && (Undisturbed(actions) ==> Distinct(list) && multiset(list) == multiset(Targets(port, instances)))
  {
    forall i | 0 <= i < |instances|
      ensures var d, e := Begin(port, instances, before), Endpoint(instances[i], port);
              e in Play(d, actions).value.list <==> !TakenOut(d, actions, e)
    {
      PublishedIff(port, instances, before, actions, i);
    }
    PublishedIsComplete(port, instances, before, actions);
    if Undisturbed(actions) {
      PlayOrdered(Begin(port, instances, before), actions);
      FrontendIsPart(port, instances, before, actions);
    }
  }
}
