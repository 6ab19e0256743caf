/**
 What one call of MakeCluster or RemoveCluster comes to, and where the backends of a registered
 cluster come from.
 */
module ClusterCalls {
  import opened Wrappers
  import opened ClusterLifecycle
  import opened ProxyRuns

  // ------------------------------------------------------------------- the backends

  predicate Reads(t: Goroutine, w: World) {
    t.pc.MakeBackends? && w.backends.Some?
  }

  // The list in the last answer of Redis to a Refresh of the port.
  function LastRead(events: seq<Event>, port: Port): Option<seq<string>>
    requires Run(events).Some?
  {
    if events == [] then None
    else
      var before, e := events[..|events| - 1], events[|events| - 1];
      var x := SiteOf(before, port);
      if e.port == port && IsStep(x, e.action) && Reads(x.goroutines[e.action.g], e.action.world)
      then e.action.world.backends
      else LastRead(before, port)
  }

  // The cluster a Refresh is working on, once it has read its backends.
  predicate HasRead(pc: Pc) {
    pc.MakeProtocol? || pc.MakeStart? || pc.MakePublish?
  }

  predicate Holds(d: Data, c: nat, list: Option<seq<string>>) {
    c < |d.objects| && list == Some(d.objects[c].backends)
  }

  predicate Known(d: Data, pc: Pc, last: Option<seq<string>>) {
    && (d.registered.Some? ==> Holds(d, d.registered.value, last))
    && (HasRead(pc) ==> Holds(d, pc.c, last))
  }

  // No cluster has changed its backends, and the registry is as it was.
  predicate SameBackends(d: Data, d': Data) {
    && d'.registered == d.registered && |d'.objects| == |d.objects|
    && forall c | 0 <= c < |d.objects| :: d'.objects[c].backends == d.objects[c].backends
  }

  lemma SetMuSame(d: Data, c: nat, owner: Option<nat>)
    requires c < |d.objects|
    ensures SameBackends(d, SetMu(d, c, owner))
  {
  }

  lemma ShutdownKnown(d: Data, t: Goroutine, c: nat, ok: bool, next: Pc, last: Option<seq<string>>)
    requires c < |d.objects| && (d.objects[c].protocol.Some? ==> d.objects[c].protocol.value < |d.protocols|)
    requires Known(d, t.pc, last) && !HasRead(next)
    ensures var o := Shutdown(d, t, c, ok, next); o.crashed || Known(o.data, o.t.pc, last)
  {
    SetMuSame(d, c, None);
    var o := Shutdown(d, t, c, ok, next);
    if !o.crashed {
      assert o.data.objects == SetMu(d, c, None).objects && o.data.registered == d.registered && o.t.pc == next;
    }
  }

  // Steps that take c.mu, and those that neither read backends nor shut a server down.
  lemma TakingKnown(d: Data, g: nat, t: Goroutine, w: World, last: Option<seq<string>>)
    requires CanWork(d, t.pc) && Known(d, t.pc, last) && WaitsForMu(t.pc)
    ensures var o := Work(d, g, t, w); Known(o.data, o.t.pc, last)
  {
    SetMuSame(d, t.pc.c, Some(g));
  }

  lemma LookupKnown(d: Data, g: nat, t: Goroutine, w: World, last: Option<seq<string>>)
    requires CanWork(d, t.pc) && Known(d, t.pc, last) && (t.pc.MakeLookup? || t.pc.RemoveLookup? || Leaving(t.pc))
    ensures var o := Work(d, g, t, w); Known(o.data, o.t.pc, last)
  {
  }

  lemma RefreshKnown(d: Data, g: nat, t: Goroutine, w: World, last: Option<seq<string>>)
    requires CanWork(d, t.pc) && Known(d, t.pc, last)
    requires t.pc.MakeProtocol? || t.pc.MakeStart? || t.pc.MakePublish? || t.pc.RemoveClear?
    ensures var o := Work(d, g, t, w); Known(o.data, o.t.pc, last)
  {
    if t.pc.MakeProtocol? || t.pc.MakeStart? { SetMuSame(d, t.pc.c, None); }
  }

  lemma BackendsKnown(d: Data, g: nat, t: Goroutine, w: World, last: Option<seq<string>>)
    requires Consistent(d, Some(g), t) && CanWork(d, t.pc) && Known(d, t.pc, last) && t.pc.MakeBackends?
    ensures var o := Work(d, g, t, w); Known(o.data, o.t.pc, if Reads(t, w) then w.backends else last)
  {
    assert Progress(d, t);
  }

  lemma WorkKnown(d: Data, g: nat, t: Goroutine, w: World, last: Option<seq<string>>)
    requires Consistent(d, Some(g), t) && CanWork(d, t.pc) && Known(d, t.pc, last) && Critical(t.pc)
    ensures var o := Work(d, g, t, w); o.crashed || Known(o.data, o.t.pc, if Reads(t, w) then w.backends else last)
  {
    if t.pc.MakeBackends? {
      BackendsKnown(d, g, t, w, last);
    } else if t.pc.MakeShutdown? {
      ShutdownKnown(d, t, t.pc.c, w.shutdownOk, MakeRefresh(t.pc.c), last);
    } else if t.pc.RemoveShutdown? {
      ShutdownKnown(d, t, t.pc.c, w.shutdownOk, RemoveClear(t.pc.c), last);
    } else if WaitsForMu(t.pc) {
      TakingKnown(d, g, t, w, last);
    } else if t.pc.MakeLookup? || t.pc.RemoveLookup? || Leaving(t.pc) {
      LookupKnown(d, g, t, w, last);
    } else {
      RefreshKnown(d, g, t, w, last);
    }
  }

  lemma ActionKnown(x: Site, a: Action, last: Option<seq<string>>)
    requires Inv(x) && x.crash.None? && Enabled(x, a) && Known(x.data, Current(x).pc, last)
    requires Apply(x, a).crash.None?
    ensures var read := IsStep(x, a) && Reads(x.goroutines[a.g], a.world);
            Known(Apply(x, a).data, Current(Apply(x, a)).pc, if read then a.world.backends else last)
  {
    if a.Step? && Critical(x.goroutines[a.g].pc) {
      WorkKnown(x.data, a.g, x.goroutines[a.g], a.world, last);
    } else if a.Step? {
      assert Waiting(x.goroutines[a.g].pc);
    } else {
      assert Current(Apply(x, a)) == Current(x);
    }
  }

  lemma {:induction false} RunKnown(events: seq<Event>, port: Port)
    requires Run(events).Some? && SiteOf(events, port).crash.None?
    ensures Known(SiteOf(events, port).data, Current(SiteOf(events, port)).pc, LastRead(events, port))
  {
    if events != [] {
      LastEvent(events, port);
      var before, e := events[..|events| - 1], events[|events| - 1];
      RunKnown(before, port);
      if e.port == port {
        RunSane(before, port);
        ActionKnown(SiteOf(before, port), e.action, LastRead(before, port));
      }
    }
  }

  /** In every reachable state the backends of a registered cluster are the list in the last
      answer of Redis to a Refresh of its port. */
  lemma BackendsAreRead(events: seq<Event>, port: Port)
    requires Run(events).Some? && SiteOf(events, port).crash.None?
    requires SiteOf(events, port).data.registered.Some?
    ensures var d := SiteOf(events, port).data;
            d.registered.value < |d.objects| && LastRead(events, port) == Some(d.objects[d.registered.value].backends)
  {
    RunKnown(events, port);
  }

  // ------------------------------------------------------------------- one whole call

  // What the holder of the lock makes of a port until it gives the lock back, or crashes.
  function Finish(d: Data, g: nat, t: Goroutine, w: World): Outcome
    requires Consistent(d, Some(g), t) && Critical(t.pc)
    decreases Left(t.pc)
  {
    if Leaving(t.pc) then Outcome(d, t, false)
    else
      WorkContinues(d, g, t, w);
      WorkStepsLess(d, g, t, w);
      var o := Work(d, g, t, w);
      if o.crashed then o else Finish(o.data, g, o.t, w)
  }

  // Redis names backends, and the protocol of the cluster exists.
  predicate Good(w: World) {
    w.backends.Some? && w.backends.value != [] && w.known
  }

  function ListOf(w: World): seq<string> {
    if w.backends.Some? then w.backends.value else []
  }

  // A cluster with these backends is registered, and its server is live.
  predicate Serving(d: Data, c: nat, backends: seq<string>) {
    && d.registered == Some(c) && c < |d.objects| && d.objects[c].backends == backends
    && HasServer(d, c, true) && IsLive(d, c) && !d.down && !d.stale
  }

  predicate NothingLive(d: Data) {
    forall p | 0 <= p < |d.protocols| :: !Alive(d.protocols[p])
  }

  // A Refresh of cluster `c` ends with the cluster registered, if all answers are good, or else
  // with the registry as it was.
  predicate Refreshed(d: Data, t: Goroutine, o: Outcome, c: nat, backends: seq<string>, good: bool) {
    && !o.crashed && o.t.pc == MakeUnlock
    && if good then Serving(o.data, c, backends)
       else
         && o.data.registered == d.registered && NothingLive(o.data)
         && o.data.down == (d.down || t.update) && o.data.stale == (t.update && t.cleared)
  }

  lemma FromPublish(d: Data, g: nat, t: Goroutine, c: nat, w: World)
    requires Consistent(d, Some(g), t) && t.pc == MakePublish(c)
    ensures Refreshed(d, t, Finish(d, g, t, w), c, d.objects[c].backends, true)
  {
    WorkContinues(d, g, t, w);
  }

  lemma FromStart(d: Data, g: nat, t: Goroutine, c: nat, w: World)
    requires Consistent(d, Some(g), t) && t.pc == MakeStart(c)
    ensures Refreshed(d, t, Finish(d, g, t, w), c, d.objects[c].backends, true)
  {
    WorkContinues(d, g, t, w);
    var o := Work(d, g, t, w);
    FromPublish(o.data, g, o.t, c, w);
  }

  lemma FromFailure(d: Data, g: nat, t: Goroutine, c: nat, w: World)
    requires Consistent(d, Some(g), t) && (t.pc == MakeBackends(c) || t.pc == MakeProtocol(c)) && !Good(w)
    requires t.pc == MakeProtocol(c) ==> !w.known
    requires t.pc == MakeBackends(c) ==> w.backends.None? || w.backends.value == []
    ensures Refreshed(d, t, Finish(d, g, t, w), c, [], false)
  {
    WorkContinues(d, g, t, w);
    assert forall p | 0 <= p < |d.protocols| :: !Alive(d.protocols[p]);
  }

  lemma FromProtocol(d: Data, g: nat, t: Goroutine, c: nat, w: World)
    requires Consistent(d, Some(g), t) && t.pc == MakeProtocol(c)
    ensures Refreshed(d, t, Finish(d, g, t, w), c, d.objects[c].backends, w.known)
  {
    if w.known {
      WorkContinues(d, g, t, w);
      var o := Work(d, g, t, w);
      FromStart(o.data, g, o.t, c, w);
    } else {
      FromFailure(d, g, t, c, w);
    }
  }

  lemma FromBackends(d: Data, g: nat, t: Goroutine, c: nat, w: World)
    requires Consistent(d, Some(g), t) && t.pc == MakeBackends(c)
    ensures Refreshed(d, t, Finish(d, g, t, w), c, ListOf(w), Good(w))
  {
    if w.backends.Some? && w.backends.value != [] {
      WorkContinues(d, g, t, w);
      var o := Work(d, g, t, w);
      FromProtocol(o.data, g, o.t, c, w);
    } else {
      FromFailure(d, g, t, c, w);
    }
  }

  lemma FromRefresh(d: Data, g: nat, t: Goroutine, c: nat, w: World)
    requires Consistent(d, Some(g), t) && t.pc == MakeRefresh(c)
    ensures Refreshed(d, t, Finish(d, g, t, w), c, ListOf(w), Good(w))
  {
    WorkContinues(d, g, t, w);
    var o := Work(d, g, t, w);
    FromBackends(o.data, g, o.t, c, w);
  }

  lemma FromShutdown(d: Data, g: nat, t: Goroutine, c: nat, w: World)
    requires Consistent(d, Some(g), t) && t.pc == MakeShutdown(c) && !d.stale
    ensures Refreshed(d, t.(cleared := w.shutdownOk), Finish(d, g, t, w), c, ListOf(w), Good(w))
  {
    WorkContinues(d, g, t, w);
    ShutdownContinues(d, g, t, c, w.shutdownOk, MakeRefresh(c));
    assert HasServer(d, c, true);
    var o := Work(d, g, t, w);
    FromRefresh(o.data, g, o.t, c, w);
  }

  lemma StaleCrashes(d: Data, g: nat, t: Goroutine, c: nat, w: World)
    requires Consistent(d, Some(g), t) && (t.pc == MakeShutdown(c) || t.pc == RemoveShutdown(c)) && d.stale
    ensures Finish(d, g, t, w).crashed
  {
    assert HasServer(d, c, false);
  }

  // What a call of MakeCluster makes of a port.
  predicate Makes(d: Data, o: Outcome, w: World) {
    if d.registered.Some? && d.stale then o.crashed
    else
      && !o.crashed && o.t.pc == MakeUnlock
      && if Good(w) then
           && o.data.registered.Some? && Serving(o.data, o.data.registered.value, w.backends.value)
           && (d.registered.Some? ==> o.data.registered == d.registered)
         else
           && o.data.registered == d.registered && NothingLive(o.data)
           && (d.registered.Some? ==> o.data.down && o.data.stale == w.shutdownOk)
  }

  lemma FromTeardown(d: Data, g: nat, t: Goroutine, c: nat, w: World)
    requires Consistent(d, Some(g), t) && t.pc == MakeTeardown(c)
    ensures Makes(d, Finish(d, g, t, w), w)
  {
    WorkContinues(d, g, t, w);
    var o := Work(d, g, t, w);
    if d.stale {
      StaleCrashes(o.data, g, o.t, c, w);
    } else {
      FromShutdown(o.data, g, o.t, c, w);
    }
  }

  lemma FromNew(d: Data, g: nat, t: Goroutine, w: World)
    requires Consistent(d, Some(g), t) && t.pc.MakeLookup? && d.registered.None?
    ensures Makes(d, Finish(d, g, t, w), w)
  {
    WorkContinues(d, g, t, w);
    var o := Work(d, g, t, w);
    FromRefresh(o.data, g, o.t, |d.objects|, w);
  }

  lemma FromMakeLookup(d: Data, g: nat, t: Goroutine, w: World)
    requires Consistent(d, Some(g), t) && t.pc.MakeLookup?
    ensures Makes(d, Finish(d, g, t, w), w)
  {
    if d.registered.Some? {
      WorkContinues(d, g, t, w);
      var o := Work(d, g, t, w);
      FromTeardown(o.data, g, o.t, d.registered.value, w);
    } else {
      FromNew(d, g, t, w);
    }
  }

  // What a call of RemoveCluster makes of a port.
  predicate Removes(d: Data, o: Outcome) {
    if d.registered.Some? && d.stale then o.crashed
    else !o.crashed && o.t.pc == RemoveUnlock && o.data.registered.None? && NothingLive(o.data)
  }

  lemma FromRemoveClear(d: Data, g: nat, t: Goroutine, c: nat, w: World)
    requires Consistent(d, Some(g), t) && t.pc == RemoveClear(c)
    ensures var o := Finish(d, g, t, w);
            !o.crashed && o.t.pc == RemoveUnlock && o.data.registered.None? && NothingLive(o.data)
  {
    WorkContinues(d, g, t, w);
    assert forall p | 0 <= p < |d.protocols| :: !Alive(d.protocols[p]);
  }

  lemma FromRemoveShutdown(d: Data, g: nat, t: Goroutine, c: nat, w: World)
    requires Consistent(d, Some(g), t) && t.pc == RemoveShutdown(c)
    ensures Removes(d, Finish(d, g, t, w))
  {
    if d.stale {
      StaleCrashes(d, g, t, c, w);
    } else {
      WorkContinues(d, g, t, w);
      ShutdownContinues(d, g, t, c, w.shutdownOk, RemoveClear(c));
      assert HasServer(d, c, true);
      var o := Work(d, g, t, w);
      FromRemoveClear(o.data, g, o.t, c, w);
    }
  }

  lemma FromRemoveLookup(d: Data, g: nat, t: Goroutine, w: World)
    requires Consistent(d, Some(g), t) && t.pc.RemoveLookup?
    ensures Removes(d, Finish(d, g, t, w))
  {
    WorkContinues(d, g, t, w);
    var o := Work(d, g, t, w);
    if d.registered.Some? {
      WorkContinues(o.data, g, o.t, w);
      var p := Work(o.data, g, o.t, w);
      FromRemoveShutdown(p.data, g, p.t, d.registered.value, w);
    } else {
      assert forall p | 0 <= p < |d.protocols| && Alive(d.protocols[p]) :: Serves(d, InService(d, t.pc), p);
    }
  }

  // ------------------------------------------------------------------- a call in a run

  // The run goes on with steps of one goroutine of a port, which get these answers.
  predicate OnlySteps(events: seq<Event>, longer: seq<Event>, port: Port, g: nat, w: World) {
    events <= longer && forall k | |events| <= k < |longer| :: longer[k] == Event(port, Step(g, w))
  }

  lemma OneStep(events: seq<Event>, port: Port, g: nat, w: World) returns (longer: seq<Event>)
    requires Run(events).Some? && !Crashed(Run(events).value) && CanStep(SiteOf(events, port), g)
    ensures longer == events + [Event(port, Step(g, w))]
    ensures Run(longer).Some? && SiteOf(longer, port) == StepOf(SiteOf(events, port), g, w)
    ensures SiteOf(longer, port).crash.None? ==> !Crashed(Run(longer).value)
  {
    longer := events + [Event(port, Step(g, w))];
    assert longer[..|events|] == events;
  }

  // What Drive says of where it leads to.
  ghost predicate Driven(events: seq<Event>, longer: seq<Event>, port: Port, g: nat, o: Outcome)
    requires Run(events).Some? && Run(longer).Some?
  {
    var x' := SiteOf(longer, port);
    && x'.data == o.data && Inv(x') && |SiteOf(events, port).goroutines| <= |x'.goroutines|
    && if o.crashed then x'.crash == Some(NilShutdown)
       else
         && !Crashed(Run(longer).value) && x'.holder == Some(g)
         && g < |x'.goroutines| && x'.goroutines[g] == o.t && Leaving(o.t.pc)
  }

  lemma HolderWorks(events: seq<Event>, port: Port, g: nat, w: World)
    requires Run(events).Some? && SiteOf(events, port).holder == Some(g)
    ensures var x := SiteOf(events, port);
            Inv(x) && g < |x.goroutines| && Consistent(x.data, Some(g), x.goroutines[g]) && Critical(x.goroutines[g].pc)
            && CanStep(x, g)
  {
    RunSane(events, port);
    HolderCanStep(SiteOf(events, port), w);
  }

  // The holder of the lock goes on alone until it is about to give the lock back.
  lemma Drive(events: seq<Event>, port: Port, g: nat, w: World) returns (longer: seq<Event>)
    requires Run(events).Some? && !Crashed(Run(events).value) && SiteOf(events, port).holder == Some(g)
    requires var x := SiteOf(events, port);
             g < |x.goroutines| && Consistent(x.data, Some(g), x.goroutines[g]) && Critical(x.goroutines[g].pc)
    ensures OnlySteps(events, longer, port, g, w) && Run(longer).Some?
    ensures var x := SiteOf(events, port);
            Driven(events, longer, port, g, Finish(x.data, g, x.goroutines[g], w))
    decreases Left(SiteOf(events, port).goroutines[g].pc)
  {
    HolderWorks(events, port, g, w);
    var x := SiteOf(events, port);
    var t := x.goroutines[g];
    longer := events;
    if !Leaving(t.pc) {
      WorkStepsLess(x.data, g, t, w);
      longer := OneStep(events, port, g, w);
      RunSane(longer, port);
      if SiteOf(longer, port).crash.None? {
        HolderWorks(longer, port, g, w);
        var rest := Drive(longer, port, g, w);
        longer := rest;
      }
    }
  }

  // A call that has just been started takes the free lock.
  lemma TakesLock(events: seq<Event>, port: Port, spawn: Action, w: World) returns (longer: seq<Event>, g: nat)
    requires Run(events).Some? && !Crashed(Run(events).value) && SiteOf(events, port).holder.None?
    requires spawn == SpawnMake || spawn == SpawnRemove
    ensures g == |SiteOf(events, port).goroutines|
    ensures OnlySteps(events + [Event(port, spawn)], longer, port, g, w)
    ensures Run(longer).Some? && !Crashed(Run(longer).value)
    ensures var x := SiteOf(longer, port);
            && x.holder == Some(g) && x.data == SiteOf(events, port).data && |x.goroutines| == g + 1
            && x.goroutines[g] == Goroutine(if spawn == SpawnMake then MakeLookup else RemoveLookup, false, false)
  {
    g := |SiteOf(events, port).goroutines|;
    longer := events + [Event(port, spawn)];
    assert longer[..|events|] == events;
    var x := SiteOf(longer, port);
    assert x.goroutines[g] == Goroutine(if spawn == SpawnMake then MakeLock else RemoveLock, false, false);
    longer := OneStep(longer, port, g, w);
  }

  // A call that has finished its work gives the lock back.
  lemma GivesLockBack(events: seq<Event>, port: Port, g: nat, w: World) returns (longer: seq<Event>)
    requires Run(events).Some? && !Crashed(Run(events).value) && SiteOf(events, port).holder == Some(g)
    requires var x := SiteOf(events, port); g < |x.goroutines| && Leaving(x.goroutines[g].pc)
    ensures longer == events + [Event(port, Step(g, w))] && Run(longer).Some? && !Crashed(Run(longer).value)
    ensures var x := SiteOf(longer, port);
            x.holder.None? && x.data == SiteOf(events, port).data
            && g < |x.goroutines| && x.goroutines[g].pc == Finished
  {
    longer := OneStep(events, port, g, w);
  }

  // A whole call on a port whose lock is free.
  lemma Alone(events: seq<Event>, port: Port, spawn: Action, w: World) returns (longer: seq<Event>, o: Outcome)
    requires Run(events).Some? && !Crashed(Run(events).value) && SiteOf(events, port).holder.None?
    requires spawn == SpawnMake || spawn == SpawnRemove
    ensures OnlySteps(events + [Event(port, spawn)], longer, port, |SiteOf(events, port).goroutines|, w)
    ensures Run(longer).Some? && SiteOf(longer, port).data == o.data
    ensures if o.crashed then SiteOf(longer, port).crash == Some(NilShutdown) else Over(longer, port)
    ensures if spawn == SpawnMake then Makes(SiteOf(events, port).data, o, w) else Removes(SiteOf(events, port).data, o)
  {
    var g;
    longer, g := TakesLock(events, port, spawn, w);
    HolderWorks(longer, port, g, w);
    var x := SiteOf(longer, port);
    o := Finish(x.data, g, x.goroutines[g], w);
    if spawn == SpawnMake {
      FromMakeLookup(x.data, g, x.goroutines[g], w);
    } else {
      FromRemoveLookup(x.data, g, x.goroutines[g], w);
    }
    var driven := Drive(longer, port, g, w);
    longer := driven;
    if !o.crashed {
      longer := GivesLockBack(longer, port, g, w);
    }
  }

  // The lock is free, no call is at work, and nothing has crashed.
  predicate Over(events: seq<Event>, port: Port)
    requires Run(events).Some?
  {
    !Crashed(Run(events).value) && SiteOf(events, port).holder.None?
  }

  /** A call of MakeCluster on a port whose lock is free, left to itself: unless the port is stale,
      when it crashes, it ends. If Redis names backends and the protocol exists, then a cluster is
      registered, the old one if there was one, with just these backends and a live server. If
      not, the registry is as it was and nothing of the port is live. */
  lemma MakeAlone(events: seq<Event>, port: Port, w: World) returns (longer: seq<Event>)
    requires Run(events).Some? && !Crashed(Run(events).value) && SiteOf(events, port).holder.None?
    ensures OnlySteps(events + [Event(port, SpawnMake)], longer, port, |SiteOf(events, port).goroutines|, w)
    ensures Run(longer).Some?
    ensures var before, d := SiteOf(events, port).data.registered, SiteOf(longer, port).data;
            if ClearedThenFailed(events, port) then SiteOf(longer, port).crash == Some(NilShutdown)
            else
              && Over(longer, port)
              && if Good(w) then
                   && d.registered.Some? && Serving(d, d.registered.value, w.backends.value)
                   && (before.Some? ==> d.registered == before)
                 else d.registered == before && NothingLive(d)
  {
    var o;
    RunSane(events, port);
    StaleIff(events, port);
    longer, o := Alone(events, port, SpawnMake, w);
  }

  /** A call of RemoveCluster likewise: unless the port is stale it ends, with no cluster
      registered and nothing of the port live. */
  lemma RemoveAlone(events: seq<Event>, port: Port, w: World) returns (longer: seq<Event>)
    requires Run(events).Some? && !Crashed(Run(events).value) && SiteOf(events, port).holder.None?
    ensures OnlySteps(events + [Event(port, SpawnRemove)], longer, port, |SiteOf(events, port).goroutines|, w)
    ensures Run(longer).Some?
    ensures var d := SiteOf(longer, port).data;
            if ClearedThenFailed(events, port) then SiteOf(longer, port).crash == Some(NilShutdown)
            else Over(longer, port) && d.registered.None? && NothingLive(d)
  {
    var o;
    RunSane(events, port);
    StaleIff(events, port);
    longer, o := Alone(events, port, SpawnRemove, w);
  }
}
