/**
 Runs of the whole proxy: goroutines of all ports, interleaved in any order, and what
 holds in every state such a run can reach.
 */
module ProxyRuns {
  import opened Wrappers
  import opened ClusterLifecycle

  type Proxy = map<Port, Site>

  // A port nobody has touched has no lock, no cluster and no goroutine.
  function At(s: Proxy, port: Port): Site {
    if port in s then s[port] else EMPTY
  }

  predicate Crashed(s: Proxy) {
    exists port :: port in s && s[port].crash.Some?
  }

  datatype Event = Event(port: Port, action: Action)

  // The state after a run of events, if each of them could happen when its turn came. A
  // crash ends the run.
  function Run(events: seq<Event>): Option<Proxy> {
    if events == [] then Some(map[])
    else
      var n := |events| - 1;
      match Run(events[..n])
      case None => None
      case Some(s) =>
        var Event(port, a) := events[n];
        if !Crashed(s) && Enabled(At(s, port), a) then Some(s[port := Apply(At(s, port), a)]) else None
  }

  // The site of a port after a run.
  function SiteOf(events: seq<Event>, port: Port): Site
    requires Run(events).Some?
  {
    At(Run(events).value, port)
  }

  // What the last event of a run does to a port.
  lemma LastEvent(events: seq<Event>, port: Port)
    requires events != [] && Run(events).Some?
    ensures var before, e := events[..|events| - 1], events[|events| - 1];
            && Run(before).Some? && SiteOf(before, port).crash.None?
            && (e.port == port ==> Enabled(SiteOf(before, port), e.action))
            && SiteOf(events, port) ==
               if e.port == port then Apply(SiteOf(before, port), e.action) else SiteOf(before, port)
  {
  }

  /** In every reachable state every site keeps its invariant. */
  lemma {:induction false} RunSane(events: seq<Event>, port: Port)
    requires Run(events).Some?
    ensures Inv(SiteOf(events, port))
  {
    if events != [] {
      LastEvent(events, port);
      var before, e := events[..|events| - 1], events[|events| - 1];
      RunSane(before, port);
      if e.port == port {
        ActionKeeps(SiteOf(before, port), e.action);
      }
    }
  }

  /** In every reachable state, on every port, at most one goroutine is past the port's lock. */
  lemma MutualExclusion(events: seq<Event>, port: Port, g: nat, h: nat)
    requires Run(events).Some?
    requires var x := SiteOf(events, port);
             g < |x.goroutines| && h < |x.goroutines| && Critical(x.goroutines[g].pc) && Critical(x.goroutines[h].pc)
    ensures g == h && SiteOf(events, port).holder == Some(g)
  {
    RunSane(events, port);
  }

  /** In every reachable state, on every port, at most one server is live; when the port's lock
      is free it belongs to the registered cluster, and that cluster has backends, so the pick of
      a request is defined while its server is live. */
  lemma OneServerPerPort(events: seq<Event>, port: Port, p: nat, o: nat)
    requires Run(events).Some?
    requires var d := SiteOf(events, port).data;
             p < |d.protocols| && o < |d.protocols| && Alive(d.protocols[p]) && Alive(d.protocols[o])
    ensures p == o
    ensures var x := SiteOf(events, port);
            var d := x.data;
            && d.protocols[p].server
            && (x.holder.None? ==>
                  && d.registered.Some? && d.registered.value < |d.objects|
                  && d.objects[d.registered.value].protocol == Some(p)
                  && d.objects[d.registered.value].backends != [])
  {
    RunSane(events, port);
    var x := SiteOf(events, port);
    var c := InService(x.data, Current(x).pc);
    assert Serves(x.data, c, p) && Serves(x.data, c, o);
  }

  // ------------------------------------------------------------- failing updates

  predicate IsStep(x: Site, a: Action) {
    a.Step? && a.g < |x.goroutines|
  }

  // The next step is a Refresh of an already registered cluster that returns an error.
  predicate Fails(t: Goroutine, w: World) {
    t.update &&
    ((t.pc.MakeBackends? && (w.backends.None? || w.backends.value == [])) || (t.pc.MakeProtocol? && !w.known))
  }

  predicate FailsUpdate(x: Site, a: Action) {
    IsStep(x, a) && Fails(x.goroutines[a.g], a.world)
  }

  // The step registers a cluster, or takes it out of the registry.
  predicate Replaces(x: Site, a: Action) {
    IsStep(x, a) && (x.goroutines[a.g].pc.MakePublish? || x.goroutines[a.g].pc.RemoveClear?)
  }

  // Since the cluster of the port was last registered or removed, an update of it has failed.
  predicate UpdateFailed(events: seq<Event>, port: Port)
    requires Run(events).Some?
  {
    events != [] &&
    var before, e := events[..|events| - 1], events[|events| - 1];
    var x := SiteOf(before, port);
    if e.port != port then UpdateFailed(before, port)
    else !Replaces(x, e.action) && (UpdateFailed(before, port) || FailsUpdate(x, e.action))
  }

  lemma DownWork(d: Data, g: nat, t: Goroutine, w: World)
    requires CanWork(d, t.pc) && Critical(t.pc)
    ensures Work(d, g, t, w).data.down <==> !t.pc.MakePublish? && !t.pc.RemoveClear? && (d.down || Fails(t, w))
  {
  }

  lemma DownStep(x: Site, a: Action)
    requires x.crash.None? && Enabled(x, a)
    ensures Apply(x, a).data.down <==> !Replaces(x, a) && (x.data.down || FailsUpdate(x, a))
  {
    if a.Step? && Critical(x.goroutines[a.g].pc) && !Leaving(x.goroutines[a.g].pc) {
      DownWork(x.data, a.g, x.goroutines[a.g], a.world);
    }
  }

  lemma {:induction false} DownIff(events: seq<Event>, port: Port)
    requires Run(events).Some?
    ensures SiteOf(events, port).data.down <==> UpdateFailed(events, port)
  {
    if events != [] {
      LastEvent(events, port);
      var before, e := events[..|events| - 1], events[|events| - 1];
      DownIff(before, port);
      if e.port == port { DownStep(SiteOf(before, port), e.action); }
    }
  }

  /** In every reachable state a port whose lock is free has a live server exactly when it has a
      registered cluster of which no update has failed since it was last registered; and a server
      that is still starting will listen, its port is never taken by an older one. */
  lemma ServedIff(events: seq<Event>, port: Port)
    requires Run(events).Some? && SiteOf(events, port).holder.None?
    ensures var d := SiteOf(events, port).data;
            && ((exists p :: 0 <= p < |d.protocols| && Alive(d.protocols[p])) <==>
                  d.registered.Some? && !UpdateFailed(events, port))
            && forall p | 0 <= p < |d.protocols| && d.protocols[p].listener == Starting ::
                 d.protocols[p].server && Bound(d, p).protocols[p].listener == Listening
  {
    RunSane(events, port);
    DownIff(events, port);
    var d := SiteOf(events, port).data;
    if d.registered.Some? && !d.down {
      assert IsLive(d, d.registered.value);
    }
    forall p | 0 <= p < |d.protocols| && Alive(d.protocols[p])
      ensures d.registered.Some? && !d.down
      ensures d.protocols[p].server && (d.protocols[p].listener == Starting ==> !PortTaken(d))
    {
      assert Serves(d, InService(d, Finished), p);
      if d.protocols[p].listener == Starting { PortIsFree(d, Finished, p); }
    }
  }

  // ---------------------------------------------------- shutting down a nil server

  predicate ShutsDown(x: Site, a: Action) {
    IsStep(x, a) && (x.goroutines[a.g].pc.MakeShutdown? || x.goroutines[a.g].pc.RemoveShutdown?)
  }

  // The last Shutdown that goroutine `g` of the port called returned without an error.
  predicate Cleared(events: seq<Event>, port: Port, g: nat)
    requires Run(events).Some?
  {
    events != [] &&
    var before, e := events[..|events| - 1], events[|events| - 1];
    var x := SiteOf(before, port);
    if e.port == port && ShutsDown(x, e.action) && e.action.g == g && SiteOf(events, port).crash.None?
    then e.action.world.shutdownOk
    else Cleared(before, port, g)
  }

  // Since the cluster of the port was last registered or removed, an update of it has
  // cleared its server and then failed.
  predicate ClearedThenFailed(events: seq<Event>, port: Port)
    requires Run(events).Some?
  {
    events != [] &&
    var before, e := events[..|events| - 1], events[|events| - 1];
    var x := SiteOf(before, port);
    if e.port != port then ClearedThenFailed(before, port)
    else
      && !Replaces(x, e.action)
      && (ClearedThenFailed(before, port) || (FailsUpdate(x, e.action) && Cleared(before, port, e.action.g)))
  }

  lemma ClearedWork(d: Data, g: nat, t: Goroutine, w: World)
    requires Consistent(d, Some(g), t) && CanWork(d, t.pc)
    ensures var o := Work(d, g, t, w);
            o.t.cleared ==
            if (t.pc.MakeShutdown? || t.pc.RemoveShutdown?) && !o.crashed then w.shutdownOk else t.cleared
  {
    if t.pc.MakeShutdown? || t.pc.RemoveShutdown? {
      assert HasServer(d, d.registered.value, !d.stale);
    }
  }

  lemma ClearedStep(x: Site, a: Action, g: nat)
    requires Inv(x) && x.crash.None? && Enabled(x, a)
    requires g < |x.goroutines|
    ensures var x' := Apply(x, a);
            && g < |x'.goroutines|
            && x'.goroutines[g].cleared ==
               if ShutsDown(x, a) && a.g == g && x'.crash.None? then a.world.shutdownOk else x.goroutines[g].cleared
  {
    if a.Step? && Critical(x.goroutines[a.g].pc) && !Leaving(x.goroutines[a.g].pc) {
      ClearedWork(x.data, a.g, x.goroutines[a.g], a.world);
    }
  }

  lemma {:induction false} ClearedIff(events: seq<Event>, port: Port, g: nat)
    requires Run(events).Some? && g < |SiteOf(events, port).goroutines|
    ensures SiteOf(events, port).goroutines[g].cleared <==> Cleared(events, port, g)
  {
    if events != [] {
      LastEvent(events, port);
      var before, e := events[..|events| - 1], events[|events| - 1];
      var x := SiteOf(before, port);
      if g < |x.goroutines| {
        ClearedIff(before, port, g);
        RunSane(before, port);
        if e.port == port { ClearedStep(x, e.action, g); }
      } else {
        NeverCleared(before, port, g);
      }
    }
  }

  lemma {:induction false} NeverCleared(events: seq<Event>, port: Port, g: nat)
    requires Run(events).Some? && g >= |SiteOf(events, port).goroutines|
    ensures !Cleared(events, port, g)
  {
    if events != [] {
      LastEvent(events, port);
      NeverCleared(events[..|events| - 1], port, g);
    }
  }

  lemma StaleWork(d: Data, g: nat, t: Goroutine, w: World)
    requires CanWork(d, t.pc) && Critical(t.pc)
    ensures Work(d, g, t, w).data.stale <==>
            !t.pc.MakePublish? && !t.pc.RemoveClear? && (d.stale || (Fails(t, w) && t.cleared))
  {
  }

  lemma StaleStep(x: Site, a: Action)
    requires Inv(x) && x.crash.None? && Enabled(x, a)
    ensures Apply(x, a).data.stale <==>
            !Replaces(x, a) && (x.data.stale || (FailsUpdate(x, a) && x.goroutines[a.g].cleared))
  {
    if a.Step? && Critical(x.goroutines[a.g].pc) && !Leaving(x.goroutines[a.g].pc) {
      StaleWork(x.data, a.g, x.goroutines[a.g], a.world);
    }
  }

  lemma {:induction false} StaleIff(events: seq<Event>, port: Port)
    requires Run(events).Some?
    ensures SiteOf(events, port).data.stale <==> ClearedThenFailed(events, port)
  {
    if events != [] {
      LastEvent(events, port);
      var before, e := events[..|events| - 1], events[|events| - 1];
      var x := SiteOf(before, port);
      StaleIff(before, port);
      if e.port == port {
        RunSane(before, port);
        StaleStep(x, e.action);
        if IsStep(x, e.action) { ClearedIff(before, port, e.action.g); }
      }
    }
  }

  lemma TeardownCrashIff(x: Site, a: Action)
    requires Inv(x) && x.crash.None? && Enabled(x, a) && ShutsDown(x, a)
    ensures Apply(x, a).crash == Some(NilShutdown) <==> x.data.stale
  {
    assert x.holder == Some(a.g);
    assert HasServer(x.data, x.data.registered.value, !x.data.stale);
  }

  /** A Teardown crashes on a nil server exactly when, since the cluster was last registered or
      removed, an update of the port has cleared its server and then failed. */
  lemma NilShutdownIff(events: seq<Event>, port: Port, a: Action)
    requires Run(events).Some? && !Crashed(Run(events).value)
    requires Enabled(SiteOf(events, port), a) && ShutsDown(SiteOf(events, port), a)
    ensures Apply(SiteOf(events, port), a).crash == Some(NilShutdown) <==> ClearedThenFailed(events, port)
  {
    RunSane(events, port);
    TeardownCrashIff(SiteOf(events, port), a);
    StaleIff(events, port);
  }

  predicate UpdatesSucceed(events: seq<Event>) {
    events == [] ||
    var n := |events| - 1;
    && UpdatesSucceed(events[..n])
    && (Run(events[..n]).Some? ==> !FailsUpdate(SiteOf(events[..n], events[n].port), events[n].action))
  }

  /** When every Refresh of a registered cluster succeeds, no Teardown meets a nil server. */
  lemma {:induction false} NoNilShutdown(events: seq<Event>, port: Port)
    requires Run(events).Some? && UpdatesSucceed(events)
    ensures !ClearedThenFailed(events, port) && SiteOf(events, port).crash != Some(NilShutdown)
  {
    RunSane(events, port);
    StaleIff(events, port);
    if events != [] {
      LastEvent(events, port);
      NoNilShutdown(events[..|events| - 1], port);
    }
  }

  // ------------------------------------------------------ listening on a nil server

  // An error-free Shutdown of a protocol whose listening goroutine has not run yet.
  predicate ShutsEarly(x: Site, a: Action, p: nat) {
    && ShutsDown(x, a) && a.world.shutdownOk
    && var c := x.goroutines[a.g].pc.c;
       && c < |x.data.objects| && x.data.objects[c].protocol == Some(p)
       && p < |x.data.protocols| && x.data.protocols[p].server && x.data.protocols[p].spawned
  }

  predicate ShutEarly(events: seq<Event>, port: Port, p: nat)
    requires Run(events).Some?
  {
    events != [] &&
    var before, e := events[..|events| - 1], events[|events| - 1];
    ShutEarly(before, port, p) || (e.port == port && ShutsEarly(SiteOf(before, port), e.action, p))
  }

  predicate Abandoned(d: Data, p: nat) {
    p < |d.protocols| && d.protocols[p].spawned && !d.protocols[p].server
  }

  // A protocol is abandoned by an early shutdown and by nothing else, and stays so.
  lemma AbandonedStep(x: Site, a: Action, p: nat)
    requires Inv(x) && x.crash.None? && Enabled(x, a)
    ensures Abandoned(Apply(x, a).data, p) <==> Abandoned(x.data, p) || ShutsEarly(x, a, p)
  {
    if a.Step? && !Waiting(x.goroutines[a.g].pc) && !Leaving(x.goroutines[a.g].pc) {
      assert x.holder == Some(a.g);
      AbandonedWork(x, a, p);
    }
  }

  lemma AbandonedShutdown(d: Data, t: Goroutine, c: nat, ok: bool, next: Pc, p: nat)
    requires c < |d.objects| && (d.objects[c].protocol.Some? ==> d.objects[c].protocol.value < |d.protocols|)
    ensures Abandoned(Shutdown(d, t, c, ok, next).data, p) <==>
            || Abandoned(d, p)
            || (ok && d.objects[c].protocol == Some(p) && d.protocols[p].server && d.protocols[p].spawned)
  {
  }

  lemma AbandonedWork(x: Site, a: Action, p: nat)
    requires Inv(x) && x.crash.None? && a.Step? && Enabled(x, a) && x.holder == Some(a.g)
    requires !Leaving(x.goroutines[a.g].pc)
    ensures var o := Work(x.data, a.g, x.goroutines[a.g], a.world);
            Abandoned(o.data, p) <==> Abandoned(x.data, p) || ShutsEarly(x, a, p)
  {
    var t, ok := x.goroutines[a.g], a.world.shutdownOk;
    if t.pc.MakeShutdown? {
      AbandonedShutdown(x.data, t, t.pc.c, ok, MakeRefresh(t.pc.c), p);
    } else if t.pc.RemoveShutdown? {
      AbandonedShutdown(x.data, t, t.pc.c, ok, RemoveClear(t.pc.c), p);
    } else {
      AbandonedElsewhere(x.data, a.g, t, a.world, p);
    }
  }

  // No other step abandons a protocol, or takes one up again.
  lemma AbandonedElsewhere(d: Data, g: nat, t: Goroutine, w: World, p: nat)
    requires Progress(d, t) && CanWork(d, t.pc) && !t.pc.MakeShutdown? && !t.pc.RemoveShutdown?
    ensures Abandoned(Work(d, g, t, w).data, p) <==> Abandoned(d, p)
  {
    if t.pc.MakeStart? {
      assert IsNew(d, t.pc.c);
    }
  }

  lemma {:induction false} AbandonedIff(events: seq<Event>, port: Port, p: nat)
    requires Run(events).Some?
    ensures Abandoned(SiteOf(events, port).data, p) <==> ShutEarly(events, port, p)
  {
    if events != [] {
      LastEvent(events, port);
      var before, e := events[..|events| - 1], events[|events| - 1];
      AbandonedIff(before, port, p);
      if e.port == port {
        RunSane(before, port);
        AbandonedStep(SiteOf(before, port), e.action, p);
      }
    }
  }

  /** A listening goroutine meets a nil server exactly when its protocol was shut down, without
      an error, before that goroutine ran; and once that has happened it is due to crash. */
  lemma NilListenIff(events: seq<Event>, port: Port, p: nat)
    requires Run(events).Some? && !Crashed(Run(events).value)
    ensures var x := SiteOf(events, port);
            (Enabled(x, Bind(p)) && Apply(x, Bind(p)).crash == Some(NilListen)) <==> ShutEarly(events, port, p)
  {
    AbandonedIff(events, port, p);
  }

  /** Without an early shutdown no run ends in that crash. */
  lemma {:induction false} NoNilListen(events: seq<Event>, port: Port)
    requires Run(events).Some? && forall p: nat :: !ShutEarly(events, port, p)
    ensures SiteOf(events, port).crash != Some(NilListen)
  {
    if events != [] {
      LastEvent(events, port);
      var before, e := events[..|events| - 1], events[|events| - 1];
      forall p: nat ensures !ShutEarly(before, port, p) {
        assert !ShutEarly(events, port, p);
      }
      NoNilListen(before, port);
      if e.port == port && e.action.Bind? {
        AbandonedIff(before, port, e.action.p);
      }
    }
  }

  // The times that the listening goroutine of a protocol has called ListenAndServe.
  function Binds(events: seq<Event>, port: Port, p: nat): nat {
    if events == [] then 0
    else
      var e := events[|events| - 1];
      Binds(events[..|events| - 1], port, p) + (if e.port == port && e.action == Bind(p) then 1 else 0)
  }

  predicate BoundOnce(d: Data, p: nat, binds: nat) {
    if p >= |d.protocols| then binds == 0
    else
      && (d.protocols[p].listener == Unbound ==> binds == 0 && !d.protocols[p].spawned)
      && binds + (if d.protocols[p].spawned then 1 else 0) <= 1
  }

  lemma ShutdownBinds(d: Data, t: Goroutine, c: nat, ok: bool, next: Pc, p: nat, binds: nat)
    requires c < |d.objects| && (d.objects[c].protocol.Some? ==> d.objects[c].protocol.value < |d.protocols|)
    requires BoundOnce(d, p, binds)
    ensures BoundOnce(Shutdown(d, t, c, ok, next).data, p, binds)
  {
  }

  lemma WorkBinds(d: Data, g: nat, t: Goroutine, w: World, p: nat, binds: nat)
    requires Progress(d, t) && CanWork(d, t.pc) && BoundOnce(d, p, binds)
    ensures BoundOnce(Work(d, g, t, w).data, p, binds)
  {
    if t.pc.MakeShutdown? {
      ShutdownBinds(d, t, t.pc.c, w.shutdownOk, MakeRefresh(t.pc.c), p, binds);
    } else if t.pc.RemoveShutdown? {
      ShutdownBinds(d, t, t.pc.c, w.shutdownOk, RemoveClear(t.pc.c), p, binds);
    } else if t.pc.MakeStart? {
      assert IsNew(d, t.pc.c);
    }
  }

  lemma ActionBinds(x: Site, a: Action, p: nat, binds: nat)
    requires Inv(x) && x.crash.None? && Enabled(x, a) && BoundOnce(x.data, p, binds)
    requires Apply(x, a).crash != Some(NilListen)
    ensures BoundOnce(Apply(x, a).data, p, binds + (if a == Bind(p) then 1 else 0))
  {
    if a.Step? && Critical(x.goroutines[a.g].pc) && !Leaving(x.goroutines[a.g].pc) {
      WorkBinds(x.data, a.g, x.goroutines[a.g], a.world, p, binds);
    }
  }

  lemma {:induction false} RunBinds(events: seq<Event>, port: Port, p: nat)
    requires Run(events).Some? && SiteOf(events, port).crash != Some(NilListen)
    ensures BoundOnce(SiteOf(events, port).data, p, Binds(events, port, p))
  {
    if events != [] {
      LastEvent(events, port);
      var before, e := events[..|events| - 1], events[|events| - 1];
      RunBinds(before, port, p);
      if e.port == port {
        RunSane(before, port);
        ActionBinds(SiteOf(before, port), e.action, p, Binds(before, port, p));
      }
    }
  }

  /** A server is told to listen at most once. */
  lemma ListensOnce(events: seq<Event>, port: Port, p: nat)
    requires Run(events).Some?
    ensures Binds(events, port, p) <= 1
  {
    if events != [] {
      var before := events[..|events| - 1];
      LastEvent(events, port);
      RunBinds(before, port, p);
    }
  }

  // ---------------------------------------------------------------------- progress

  lemma HolderCanStep(x: Site, w: World)
    requires Inv(x) && x.holder.Some?
    ensures Enabled(x, Step(x.holder.value, w))
  {
    var pc := x.goroutines[x.holder.value].pc;
    assert Current(x).pc == pc && HasObject(x.data, pc);
  }

  /** The inner mutex of a cluster is never waited for, so a goroutine that waits at all waits
      for the lock of its port, whose holder can go on: the protocol has no deadlock. */
  lemma NoDeadlock(events: seq<Event>, port: Port, g: nat, w: World)
    requires Run(events).Some?
    requires var x := SiteOf(events, port); g < |x.goroutines| && x.goroutines[g].pc != Finished
    ensures var x := SiteOf(events, port);
            || Enabled(x, Step(g, w))
            || (x.holder.Some? && x.holder.value != g && Enabled(x, Step(x.holder.value, w)))
  {
    RunSane(events, port);
    var x := SiteOf(events, port);
    if x.holder.Some? {
      HolderCanStep(x, w);
    }
  }

  // The steps a goroutine has left at most.
  function Left(pc: Pc): nat {
    match pc
    case MakeLock => 10
    case MakeLookup => 9
    case MakeTeardown(_) => 8
    case MakeShutdown(_) => 7
    case MakeRefresh(_) => 6
    case MakeBackends(_) => 5
    case MakeProtocol(_) => 4
    case MakeStart(_) => 3
    case MakePublish(_) => 2
    case MakeUnlock => 1
    case RemoveLock => 6
    case RemoveLookup => 5
    case RemoveTeardown(_) => 4
    case RemoveShutdown(_) => 3
    case RemoveClear(_) => 2
    case RemoveUnlock => 1
    case Finished => 0
  }

  lemma ShutdownStepsLess(d: Data, g: nat, t: Goroutine, w: World)
    requires CanWork(d, t.pc) && (t.pc.MakeShutdown? || t.pc.RemoveShutdown?)
    ensures var o := Work(d, g, t, w); o.crashed || Left(o.t.pc) < Left(t.pc)
  {
  }

  lemma WorkStepsLess(d: Data, g: nat, t: Goroutine, w: World)
    requires CanWork(d, t.pc) && Critical(t.pc) && !Leaving(t.pc)
    ensures var o := Work(d, g, t, w); o.crashed || Left(o.t.pc) < Left(t.pc)
  {
    if t.pc.MakeShutdown? || t.pc.RemoveShutdown? {
      ShutdownStepsLess(d, g, t, w);
    }
  }

  // A goroutine comes one step nearer to its end, and the others stay where they are.
  lemma StepsLess(x: Site, a: Action, g: nat)
    requires Enabled(x, a) && g < |x.goroutines|
    ensures var x' := Apply(x, a);
            && g < |x'.goroutines|
            && var left := Left(x.goroutines[g].pc);
               if a.Step? && a.g == g then 0 < left && (x'.crash.Some? || Left(x'.goroutines[g].pc) < left)
               else x'.goroutines[g] == x.goroutines[g]
  {
    if a.Step? && a.g == g && Critical(x.goroutines[g].pc) && !Leaving(x.goroutines[g].pc) {
      WorkStepsLess(x.data, g, x.goroutines[g], a.world);
    }
  }

  // The steps goroutine `g` of a port has taken in a run.
  function StepsTaken(events: seq<Event>, port: Port, g: nat): nat {
    if events == [] then 0
    else
      var e := events[|events| - 1];
      var last := if e.port == port && e.action.Step? && e.action.g == g then 1 else 0;
      StepsTaken(events[..|events| - 1], port, g) + last
  }

  lemma {:induction false} StepsAndLeft(events: seq<Event>, port: Port, g: nat)
    requires Run(events).Some?
    ensures StepsTaken(events, port, g) <= 10
    ensures var x := SiteOf(events, port);
            if g < |x.goroutines| then x.crash.None? ==> StepsTaken(events, port, g) + Left(x.goroutines[g].pc) <= 10
            else StepsTaken(events, port, g) == 0
  {
    if events != [] {
      LastEvent(events, port);
      var before, e := events[..|events| - 1], events[|events| - 1];
      var x := SiteOf(before, port);
      StepsAndLeft(before, port, g);
      if e.port == port && g < |x.goroutines| {
        StepsLess(x, e.action, g);
      }
    }
  }

  /** In every run every call of MakeCluster or RemoveCluster takes at most ten steps. */
  lemma AtMostTenSteps(events: seq<Event>, port: Port, g: nat)
    requires Run(events).Some?
    ensures StepsTaken(events, port, g) <= 10
  {
    StepsAndLeft(events, port, g);
  }

  // ----------------------------------------------------------------- crashing runs

  ghost predicate Reaches(events: seq<Event>, port: Port, x: Site) {
    Run(events) == Some(map[port := x])
  }

  lemma Then(events: seq<Event>, port: Port, x: Site, a: Action) returns (events': seq<Event>, x': Site)
    requires Reaches(events, port, x) && x.crash.None? && Enabled(x, a)
    ensures events' == events + [Event(port, a)] && x' == Apply(x, a)
    ensures Reaches(events', port, x')
  {
    events', x' := events + [Event(port, a)], Apply(x, a);
    var s: Proxy := map[port := x];
    assert events'[..|events|] == events;
    assert s[port := x'] == map[port := x'];
  }

  lemma Begin(port: Port) returns (events: seq<Event>, x: Site)
    ensures events == [Event(port, SpawnMake)] && x == Apply(EMPTY, SpawnMake) && Reaches(events, port, x)
  {
    events, x := [Event(port, SpawnMake)], Apply(EMPTY, SpawnMake);
    var s: Proxy := map[];
    assert events[..0] == [] && s[port := x] == map[port := x];
  }

  // A goroutine's step when Redis, the registry and Shutdown all answer well.
  function Good(g: nat, backend: string): Action {
    Step(g, World(Some([backend]), true, true))
  }

  lemma LockFirst(port: Port, backend: string) returns (events: seq<Event>, x: Site)
    ensures Reaches(events, port, x)
    ensures x == Site(Some(0), [Goroutine(MakeLookup, false, false)], NOTHING, None)
  {
    events, x := Begin(port);
    events, x := Then(events, port, x, Good(0, backend));
  }

  lemma LookFirst(port: Port, backend: string) returns (events: seq<Event>, x: Site)
    ensures Reaches(events, port, x)
    ensures x == Site(Some(0), [Goroutine(MakeRefresh(0), false, false)],
                      Data(None, [Cluster([], None, None)], [], false, false), None)
  {
    events, x := LockFirst(port, backend);
    events, x := Then(events, port, x, Good(0, backend));
  }

  lemma BeginFirst(port: Port, backend: string) returns (events: seq<Event>, x: Site)
    ensures Reaches(events, port, x)
    ensures x == Site(Some(0), [Goroutine(MakeBackends(0), false, false)],
                      Data(None, [Cluster([], None, Some(0))], [], false, false), None)
  {
    events, x := LookFirst(port, backend);
    events, x := Then(events, port, x, Good(0, backend));
  }

  lemma BackendsFirst(port: Port, backend: string) returns (events: seq<Event>, x: Site)
    ensures Reaches(events, port, x)
    ensures x == Site(Some(0), [Goroutine(MakeProtocol(0), false, false)],
                      Data(None, [Cluster([backend], None, Some(0))], [], false, false), None)
  {
    events, x := BeginFirst(port, backend);
    events, x := Then(events, port, x, Good(0, backend));
  }

  lemma StartFirst(port: Port, backend: string) returns (events: seq<Event>, x: Site)
    ensures Reaches(events, port, x)
    ensures x == Site(Some(0), [Goroutine(MakeStart(0), false, false)],
                      Data(None, [Cluster([backend], Some(0), Some(0))], [Protocol(false, Unbound, false)],
                           false, false), None)
  {
    events, x := BackendsFirst(port, backend);
    events, x := Then(events, port, x, Good(0, backend));
  }

  // The data of a port with one cluster and its protocol.
  function OneCluster(backend: string, q: Protocol, failed: bool): Data {
    Data(Some(0), [Cluster([backend], Some(0), None)], [q], failed, failed)
  }

  lemma StartedFirst(port: Port, backend: string) returns (events: seq<Event>, x: Site)
    ensures Reaches(events, port, x)
    ensures x == Site(Some(0), [Goroutine(MakePublish(0), false, false)],
                      OneCluster(backend, Protocol(true, Starting, true), false).(registered := None), None)
  {
    events, x := StartFirst(port, backend);
    events, x := Then(events, port, x, Good(0, backend));
  }

  // A first MakeCluster has run to its end; its listening goroutine has not run yet.
  lemma MakeFirst(port: Port, backend: string) returns (events: seq<Event>, x: Site)
    ensures Reaches(events, port, x)
    ensures x == Site(None, [Goroutine(Finished, false, false)],
                      OneCluster(backend, Protocol(true, Starting, true), false), None)
  {
    events, x := StartedFirst(port, backend);
    events, x := Then(events, port, x, Good(0, backend));
    events, x := Then(events, port, x, Good(0, backend));
  }

  lemma UpdateBegins(port: Port, backend: string) returns (events: seq<Event>, x: Site)
    ensures Reaches(events, port, x)
    ensures x == Site(Some(1), [Goroutine(Finished, false, false), Goroutine(MakeTeardown(0), true, false)],
                      OneCluster(backend, Protocol(true, Starting, true), false), None)
  {
    events, x := MakeFirst(port, backend);
    events, x := Then(events, port, x, SpawnMake);
    events, x := Then(events, port, x, Good(1, backend));
    events, x := Then(events, port, x, Good(1, backend));
  }

  lemma UpdateLocks(port: Port, backend: string) returns (events: seq<Event>, x: Site)
    ensures Reaches(events, port, x)
    ensures x == Site(Some(1), [Goroutine(Finished, false, false), Goroutine(MakeShutdown(0), true, false)],
                      SetMu(OneCluster(backend, Protocol(true, Starting, true), false), 0, Some(1)), None)
  {
    events, x := UpdateBegins(port, backend);
    events, x := Then(events, port, x, Good(1, backend));
  }

  // An update as far as the end of its Shutdown, which reports no error.
  lemma ShutFirst(port: Port, backend: string) returns (events: seq<Event>, x: Site)
    ensures Reaches(events, port, x)
    ensures x == Site(Some(1), [Goroutine(Finished, false, false), Goroutine(MakeRefresh(0), true, true)],
                      OneCluster(backend, Protocol(false, Closed, true), false), None)
  {
    events, x := UpdateLocks(port, backend);
    events, x := Then(events, port, x, Good(1, backend));
  }

  lemma UpdateRefreshes(port: Port, backend: string) returns (events: seq<Event>, x: Site)
    ensures Reaches(events, port, x)
    ensures x == Site(Some(1), [Goroutine(Finished, false, false), Goroutine(MakeBackends(0), true, true)],
                      SetMu(OneCluster(backend, Protocol(false, Closed, true), false), 0, Some(1)), None)
  {
    events, x := ShutFirst(port, backend);
    events, x := Then(events, port, x, Good(1, backend));
  }

  lemma UpdateErrs(port: Port, backend: string) returns (events: seq<Event>, x: Site)
    ensures Reaches(events, port, x)
    ensures x == Site(Some(1), [Goroutine(Finished, false, false), Goroutine(MakeUnlock, true, true)],
                      OneCluster(backend, Protocol(false, Closed, true), true), None)
  {
    events, x := UpdateRefreshes(port, backend);
    events, x := Then(events, port, x, Step(1, World(None, true, true)));
  }

  lemma UpdateFails(port: Port, backend: string) returns (events: seq<Event>, x: Site)
    ensures Reaches(events, port, x)
    ensures x == Site(None, [Goroutine(Finished, false, false), Goroutine(Finished, true, true)],
                      OneCluster(backend, Protocol(false, Closed, true), true), None)
  {
    events, x := UpdateErrs(port, backend);
    events, x := Then(events, port, x, Good(1, backend));
  }

  lemma RemovalWaits(port: Port, backend: string) returns (events: seq<Event>, x: Site)
    ensures Reaches(events, port, x)
    ensures x == Site(Some(2), [Goroutine(Finished, false, false), Goroutine(Finished, true, true),
                                Goroutine(RemoveLookup, false, false)],
                      OneCluster(backend, Protocol(false, Closed, true), true), None)
  {
    events, x := UpdateFails(port, backend);
    events, x := Then(events, port, x, SpawnRemove);
    events, x := Then(events, port, x, Good(2, backend));
  }

  lemma RemovalBegins(port: Port, backend: string) returns (events: seq<Event>, x: Site)
    ensures Reaches(events, port, x)
    ensures x == Site(Some(2), [Goroutine(Finished, false, false), Goroutine(Finished, true, true),
                                Goroutine(RemoveTeardown(0), false, false)],
                      OneCluster(backend, Protocol(false, Closed, true), true), None)
  {
    events, x := RemovalWaits(port, backend);
    events, x := Then(events, port, x, Good(2, backend));
  }

  lemma RemovalLocks(port: Port, backend: string) returns (events: seq<Event>, x: Site)
    ensures Reaches(events, port, x)
    ensures x == Site(Some(2), [Goroutine(Finished, false, false), Goroutine(Finished, true, true),
                                Goroutine(RemoveShutdown(0), false, false)],
                      SetMu(OneCluster(backend, Protocol(false, Closed, true), true), 0, Some(2)), None)
  {
    events, x := RemovalBegins(port, backend);
    events, x := Then(events, port, x, Good(2, backend));
  }

  /** The crash is reachable: an update that fails after its shutdown leaves a torn-down
      cluster registered, and the next removal of that port meets its nil server. */
  lemma FailedUpdateCrashes(port: Port, backend: string) returns (events: seq<Event>, x: Site)
    ensures Reaches(events, port, x) && x.crash == Some(NilShutdown)
  {
    events, x := RemovalLocks(port, backend);
    events, x := Then(events, port, x, Good(2, backend));
  }

  /** The other crash needs no failure at all: a shutdown that finishes before the listening
      goroutine of the server has run leaves it a nil server to listen on. */
  lemma EarlyShutdownCrashes(port: Port, backend: string) returns (events: seq<Event>, x: Site)
    ensures Reaches(events, port, x) && x.crash == Some(NilListen) && !x.data.stale
  {
    events, x := ShutFirst(port, backend);
    events, x := Then(events, port, x, Bind(0));
  }
}
