/**
 The life of the per-port clusters of the proxy: any number of MakeCluster and
 RemoveCluster goroutines, and the goroutines that bind the listeners, interleaved step
 by step. The registry, the mutexes, the clusters and their protocols are all kept per
 port, so the state of the proxy is a map from ports to sites.

 Assumed of the code: the check-and-create of ClusterMutex is one atomic step, and so is
 ListenAndServe up to the moment it accepts; Shutdown closes the listener even when it
 reports a timeout; the JSON configuration overwrites neither Port nor Backends. A call on
 a nil server is a crash that ends the run.
 */
module ClusterLifecycle {
  import opened Wrappers

  type Port = int

  // Unbound: no server yet. Starting: a server whose listener is not yet bound.
  datatype Listener = Unbound | Starting | Listening | Refused | Closed

  // An HttpProtocol: `server` says whether p.server is non-nil, `spawned` whether the
  // goroutine that calls ListenAndServe has been started and has not yet called it.
  datatype Protocol = Protocol(server: bool, listener: Listener, spawned: bool)

  datatype Cluster = Cluster(backends: seq<string>, protocol: Option<nat>, mu: Option<nat>)

  // Where a goroutine stands; `c` is the cluster object it works on.
  datatype Pc =
    | MakeLock
    | MakeLookup
    | MakeTeardown(c: nat)   // about to lock c.mu in Teardown
    | MakeShutdown(c: nat)   // holds c.mu in Teardown
    | MakeRefresh(c: nat)    // about to lock c.mu in Refresh
    | MakeBackends(c: nat)   // holds c.mu, about to read the backends
    | MakeProtocol(c: nat)   // holds c.mu, about to choose the protocol
    | MakeStart(c: nat)      // holds c.mu, about to start the server
    | MakePublish(c: nat)    // about to register the cluster
    | MakeUnlock
    | RemoveLock
    | RemoveLookup
    | RemoveTeardown(c: nat)
    | RemoveShutdown(c: nat)
    | RemoveClear(c: nat)
    | RemoveUnlock
    | Finished

  // `update`: the cluster was registered before; `cleared`: its Shutdown reported no error.
  datatype Goroutine = Goroutine(pc: Pc, update: bool, cleared: bool)

  datatype Crash = NilShutdown | NilListen

  // What a port's lock protects. `down` records that the last update of the registered
  // cluster failed, `stale` that its shutdown before that reported no error.
  datatype Data = Data(
    registered: Option<nat>,
    objects: seq<Cluster>,
    protocols: seq<Protocol>,
    down: bool,
    stale: bool)

  // Everything about one port.
  datatype Site = Site(holder: Option<nat>, goroutines: seq<Goroutine>, data: Data, crash: Option<Crash>)

  const NOTHING := Data(None, [], [], false, false)
  const EMPTY := Site(None, [], NOTHING, None)

  // What Redis, the protocol registry and Shutdown answer to a step.
  datatype World = World(backends: Option<seq<string>>, known: bool, shutdownOk: bool)

  datatype Action =
    | SpawnMake
    | SpawnRemove
    | Step(g: nat, world: World)
    | Bind(p: nat)

  // --------------------------------------------------- what the holder of a lock does

  // The state and the goroutine after a step, or the crash of a Shutdown on a nil server.
  datatype Outcome = Outcome(data: Data, t: Goroutine, crashed: bool)

  function SetMu(d: Data, c: nat, owner: Option<nat>): Data
    requires c < |d.objects|
  {
    d.(objects := d.objects[c := d.objects[c].(mu := owner)])
  }

  function PcObject(pc: Pc): Option<nat> {
    match pc
    case MakeTeardown(c) => Some(c)
    case MakeShutdown(c) => Some(c)
    case MakeRefresh(c) => Some(c)
    case MakeBackends(c) => Some(c)
    case MakeProtocol(c) => Some(c)
    case MakeStart(c) => Some(c)
    case MakePublish(c) => Some(c)
    case RemoveTeardown(c) => Some(c)
    case RemoveShutdown(c) => Some(c)
    case RemoveClear(c) => Some(c)
    case _ => None
  }

  // The object a goroutine works on, and its protocol where the step needs it, exist.
  predicate HasObject(d: Data, pc: Pc) {
    match PcObject(pc)
    case None => true
    case Some(c) =>
      && c < |d.objects|
      && (d.objects[c].protocol.Some? ==> d.objects[c].protocol.value < |d.protocols|)
      && (pc.MakeStart? ==> d.objects[c].protocol.Some?)
  }

  // The next step locks c.mu.
  predicate WaitsForMu(pc: Pc) {
    pc.MakeTeardown? || pc.RemoveTeardown? || pc.MakeRefresh?
  }

  predicate CanWork(d: Data, pc: Pc) {
    HasObject(d, pc) && (WaitsForMu(pc) ==> d.objects[pc.c].mu.None?)
  }

  // Teardown with c.mu held: shut the server down, release c.mu, go on at `next`.
  function Shutdown(d: Data, t: Goroutine, c: nat, ok: bool, next: Pc): Outcome
    requires c < |d.objects|
    requires d.objects[c].protocol.Some? ==> d.objects[c].protocol.value < |d.protocols|
  {
    match d.objects[c].protocol
    case None => Outcome(SetMu(d, c, None), t.(pc := next), false)
    case Some(p) =>
      if !d.protocols[p].server then Outcome(d, t, true)
      else
        Outcome(SetMu(d, c, None).(protocols := d.protocols[p := d.protocols[p].(listener := Closed, server := !ok)]),
                t.(pc := next, cleared := ok), false)
  }

  // An error return of Refresh: release c.mu, leave the registry as it is.
  function RefreshFails(d: Data, t: Goroutine, c: nat): Outcome
    requires c < |d.objects|
  {
    Outcome(SetMu(d, c, None).(down := d.down || t.update, stale := d.stale || (t.update && t.cleared)),
            t.(pc := MakeUnlock), false)
  }

  // A step of the goroutine `g` between taking and giving back the lock of its port.
  function Work(d: Data, g: nat, t: Goroutine, w: World): Outcome
    requires CanWork(d, t.pc)
  {
    match t.pc
    case MakeLookup =>
      if d.registered.Some? then Outcome(d, t.(pc := MakeTeardown(d.registered.value), update := true), false)
      else
        Outcome(d.(objects := d.objects + [Cluster([], None, None)]),
                t.(pc := MakeRefresh(|d.objects|), update := false), false)
    case MakeTeardown(c) => Outcome(SetMu(d, c, Some(g)), t.(pc := MakeShutdown(c)), false)
    case MakeShutdown(c) => Shutdown(d, t, c, w.shutdownOk, MakeRefresh(c))
    case MakeRefresh(c) => Outcome(SetMu(d, c, Some(g)), t.(pc := MakeBackends(c)), false)
    case MakeBackends(c) =>
      if w.backends.None? then RefreshFails(d, t, c)
      else
        var d' := d.(objects := d.objects[c := d.objects[c].(backends := w.backends.value)]);
        if w.backends.value == [] then RefreshFails(d', t, c) else Outcome(d', t.(pc := MakeProtocol(c)), false)
    case MakeProtocol(c) =>
      if !w.known then RefreshFails(d, t, c)
      else
        Outcome(d.(objects := d.objects[c := d.objects[c].(protocol := Some(|d.protocols|))],
                   protocols := d.protocols + [Protocol(false, Unbound, false)]), t.(pc := MakeStart(c)), false)
    case MakeStart(c) =>
      var p := d.objects[c].protocol.value;
      Outcome(SetMu(d, c, None).(protocols := d.protocols[p := Protocol(true, Starting, true)]),
              t.(pc := MakePublish(c)), false)
    case MakePublish(c) =>
      Outcome(d.(registered := Some(c), down := false, stale := false), t.(pc := MakeUnlock), false)
    case RemoveLookup =>
      Outcome(d, t.(pc := if d.registered.Some? then RemoveTeardown(d.registered.value) else RemoveUnlock), false)
    case RemoveTeardown(c) => Outcome(SetMu(d, c, Some(g)), t.(pc := RemoveShutdown(c)), false)
    case RemoveShutdown(c) => Shutdown(d, t, c, w.shutdownOk, RemoveClear(c))
    case RemoveClear(c) => Outcome(d.(registered := None, down := false, stale := false), t.(pc := RemoveUnlock), false)
    case _ => Outcome(d, t, false)
  }

  predicate PortTaken(d: Data) {
    exists o :: 0 <= o < |d.protocols| && d.protocols[o].listener == Listening
  }

  // The listening goroutine calls p.server.ListenAndServe: after a shutdown it returns at
  // once, and on a port in use it is refused.
  function Bound(d: Data, p: nat): Data
    requires p < |d.protocols|
  {
    var q := d.protocols[p];
    var l := if q.listener != Starting then q.listener else if PortTaken(d) then Refused else Listening;
    d.(protocols := d.protocols[p := q.(listener := l, spawned := false)])
  }

  // ------------------------------------------------------------------------- actions

  predicate Waiting(pc: Pc) {
    pc.MakeLock? || pc.RemoveLock?
  }

  predicate Leaving(pc: Pc) {
    pc.MakeUnlock? || pc.RemoveUnlock?
  }

  // Past the lock of the port.
  predicate Critical(pc: Pc) {
    !Waiting(pc) && !pc.Finished?
  }

  predicate CanStep(x: Site, g: nat) {
    && g < |x.goroutines|
    && var pc := x.goroutines[g].pc;
       !pc.Finished? && (Waiting(pc) ==> x.holder.None?) && CanWork(x.data, pc)
  }

  predicate Enabled(x: Site, a: Action) {
    match a
    case Step(g, _) => CanStep(x, g)
    case Bind(p) => p < |x.data.protocols| && x.data.protocols[p].spawned
    case _ => true
  }

  function StepOf(x: Site, g: nat, w: World): Site
    requires CanStep(x, g)
  {
    var t := x.goroutines[g];
    if Waiting(t.pc) then
      var next := if t.pc.MakeLock? then MakeLookup else RemoveLookup;
      x.(holder := Some(g), goroutines := x.goroutines[g := t.(pc := next)])
    else if Leaving(t.pc) then
      x.(holder := None, goroutines := x.goroutines[g := t.(pc := Finished)])
    else
      var o := Work(x.data, g, t, w);
      Site(x.holder, x.goroutines[g := o.t], o.data, if o.crashed then Some(NilShutdown) else x.crash)
  }

  function Apply(x: Site, a: Action): Site
    requires Enabled(x, a)
  {
    match a
    case SpawnMake => x.(goroutines := x.goroutines + [Goroutine(MakeLock, false, false)])
    case SpawnRemove => x.(goroutines := x.goroutines + [Goroutine(RemoveLock, false, false)])
    case Step(g, w) => StepOf(x, g, w)
    case Bind(p) => if x.data.protocols[p].server then x.(data := Bound(x.data, p)) else x.(crash := Some(NilListen))
  }

  // ----------------------------------------------------------------------- invariant

  // The goroutine holds c.mu.
  predicate HoldsMu(pc: Pc) {
    pc.MakeShutdown? || pc.MakeBackends? || pc.MakeProtocol? || pc.MakeStart? || pc.RemoveShutdown?
  }

  // Between the shutdown of the old server and the start of the new one.
  predicate Between(pc: Pc) {
    pc.MakeRefresh? || pc.MakeBackends? || pc.MakeProtocol? || pc.MakeStart? || pc.RemoveClear?
  }

  predicate Alive(q: Protocol) {
    q.listener == Starting || q.listener == Listening
  }

  const IDLE := Goroutine(Finished, false, false)

  // What the holder of the lock is doing; IDLE when the lock is free.
  function Current(x: Site): Goroutine {
    if x.holder.Some? && x.holder.value < |x.goroutines| then x.goroutines[x.holder.value] else IDLE
  }

  // At most one goroutine is past the lock of the port, and it is the recorded holder.
  predicate OneHolder(x: Site) {
    && (x.holder.Some? ==> x.holder.value < |x.goroutines| && Critical(x.goroutines[x.holder.value].pc))
    && (forall g | 0 <= g < |x.goroutines| && Critical(x.goroutines[g].pc) :: x.holder == Some(g))
  }

  predicate InnerLocks(d: Data, holder: Option<nat>, pc: Pc) {
    forall c | 0 <= c < |d.objects| ::
      d.objects[c].mu == if HoldsMu(pc) && PcObject(pc) == Some(c) then holder else None
  }

  predicate Wiring(d: Data, pc: Pc) {
    && (d.registered.Some? ==> d.registered.value < |d.objects|)
    && HasObject(d, pc)
    && (forall c | 0 <= c < |d.objects| && d.objects[c].protocol.Some? :: d.objects[c].protocol.value < |d.protocols|)
  }

  // The cluster that may have a live server.
  function InService(d: Data, pc: Pc): Option<nat> {
    if pc.MakePublish? then Some(pc.c) else if Between(pc) then None else d.registered
  }

  // Only the cluster in service has a live server, it has backends to pick from, and the
  // live server is that of its current protocol.
  predicate OneServer(d: Data, pc: Pc) {
    forall p | 0 <= p < |d.protocols| && Alive(d.protocols[p]) :: Serves(d, InService(d, pc), p)
  }

  predicate Serves(d: Data, c: Option<nat>, p: nat)
    requires p < |d.protocols|
  {
    && d.protocols[p].server
    && c.Some? && c.value < |d.objects| && d.objects[c.value].protocol == Some(p) && d.objects[c.value].backends != []
  }

  predicate HasServer(d: Data, c: nat, server: bool) {
    && c < |d.objects| && d.objects[c].protocol.Some? && d.objects[c].protocol.value < |d.protocols|
    && d.protocols[d.objects[c].protocol.value].server == server
  }

  predicate IsLive(d: Data, c: nat) {
    && c < |d.objects| && d.objects[c].protocol.Some? && d.objects[c].protocol.value < |d.protocols|
    && Alive(d.protocols[d.objects[c].protocol.value])
  }

  // The protocol a Refresh has just made.
  predicate IsNew(d: Data, c: nat) {
    && c < |d.objects| && d.objects[c].protocol.Some? && d.objects[c].protocol.value < |d.protocols|
    && d.protocols[d.objects[c].protocol.value] == Protocol(false, Unbound, false)
  }

  // What the holder of the lock knows.
  predicate Progress(d: Data, t: Goroutine) {
    match t.pc
    case MakeRefresh(c) => Refreshing(d, t, c) && (t.update ==> HasServer(d, c, !t.cleared))
    case MakeBackends(c) => Refreshing(d, t, c) && (t.update ==> HasServer(d, c, !t.cleared))
    case MakeProtocol(c) =>
      Refreshing(d, t, c) && (t.update ==> HasServer(d, c, !t.cleared)) && d.objects[c].backends != []
    case MakeStart(c) => Refreshing(d, t, c) && IsNew(d, c) && d.objects[c].backends != []
    case MakePublish(c) => Refreshing(d, t, c) && HasServer(d, c, true) && IsLive(d, c) && d.objects[c].backends != []
    case MakeTeardown(c) => d.registered == Some(c) && t.update
    case MakeShutdown(c) => d.registered == Some(c) && t.update
    case RemoveTeardown(c) => d.registered == Some(c)
    case RemoveShutdown(c) => d.registered == Some(c)
    case _ => true
  }

  predicate Refreshing(d: Data, t: Goroutine, c: nat) {
    c < |d.objects| && !d.stale && d.registered == (if t.update then Some(c) else None)
  }

  // A registered cluster nobody is working on has a nil server exactly when it is stale, and
  // a live server exactly when it is not down.
  predicate Ready(d: Data, pc: Pc) {
    && (d.registered.None? ==> !d.stale && !d.down)
    && (d.stale ==> d.down)
    && (d.registered.Some? && !Between(pc) && !pc.MakePublish? ==>
          HasServer(d, d.registered.value, !d.stale) && (IsLive(d, d.registered.value) <==> !d.down))
  }

  predicate Consistent(d: Data, holder: Option<nat>, t: Goroutine) {
    InnerLocks(d, holder, t.pc) && Wiring(d, t.pc) && OneServer(d, t.pc) && Progress(d, t) && Ready(d, t.pc)
  }

  predicate Inv(x: Site) {
    && OneHolder(x) && Consistent(x.data, x.holder, Current(x))
    && (x.crash == Some(NilShutdown) ==> x.data.stale)
  }

  // ------------------------------------------- every step of the holder keeps it going

  // What a step has to leave behind.
  predicate Continues(d: Data, g: nat, o: Outcome) {
    if o.crashed then d.stale && o.data == d else Consistent(o.data, Some(g), o.t) && Critical(o.t.pc)
  }

  lemma SameServers(d: Data, d': Data, pc: Pc, next: Pc)
    requires OneServer(d, pc) && InService(d', next) == InService(d, pc) && d'.protocols == d.protocols
    requires |d'.objects| == |d.objects|
    requires forall c | 0 <= c < |d.objects| ::
               d'.objects[c].protocol == d.objects[c].protocol && d'.objects[c].backends == d.objects[c].backends
    ensures OneServer(d', next)
  {
    forall p | 0 <= p < |d'.protocols| && Alive(d'.protocols[p]) ensures Serves(d', InService(d', next), p) {
      assert Serves(d, InService(d, pc), p);
    }
  }

  // The holder moves on without touching what the lock protects.
  lemma MovesOn(d: Data, g: nat, t: Goroutine, t': Goroutine)
    requires Consistent(d, Some(g), t) && (t.pc.MakeLookup? || t.pc.RemoveLookup?)
    requires if d.registered.None? then t'.pc.RemoveUnlock?
             else || t'.pc == RemoveTeardown(d.registered.value)
                  || (t'.pc == MakeTeardown(d.registered.value) && t'.update)
    ensures Consistent(d, Some(g), t')
  {
    SameServers(d, d, t.pc, t'.pc);
  }

  lemma NewCluster(d: Data, g: nat, t: Goroutine, w: World)
    requires Consistent(d, Some(g), t) && t.pc.MakeLookup? && d.registered.None?
    ensures Continues(d, g, Work(d, g, t, w))
  {
    assert forall p | 0 <= p < |d.protocols| :: !Alive(d.protocols[p]);
  }

  // The next step takes c.mu and goes on at `next`.
  predicate Takes(pc: Pc, c: nat, next: Pc) {
    || (pc == MakeTeardown(c) && next == MakeShutdown(c))
    || (pc == RemoveTeardown(c) && next == RemoveShutdown(c))
    || (pc == MakeRefresh(c) && next == MakeBackends(c))
  }

  lemma HoldsAfter(d: Data, g: nat, pc: Pc, c: nat, next: Pc)
    requires InnerLocks(d, Some(g), pc) && Wiring(d, pc) && CanWork(d, pc) && Takes(pc, c, next)
    ensures InnerLocks(SetMu(d, c, Some(g)), Some(g), next) && Wiring(SetMu(d, c, Some(g)), next)
  {
  }

  // Taking c.mu changes nothing else.
  lemma TakesMu(d: Data, g: nat, t: Goroutine, c: nat, next: Pc)
    requires Consistent(d, Some(g), t) && CanWork(d, t.pc) && Takes(t.pc, c, next)
    ensures Consistent(SetMu(d, c, Some(g)), Some(g), t.(pc := next))
  {
    var d' := SetMu(d, c, Some(g));
    HoldsAfter(d, g, t.pc, c, next);
    assert InService(d', next) == InService(d, t.pc);
    SameServers(d, d', t.pc, next);
  }

  lemma ShutdownContinues(d: Data, g: nat, t: Goroutine, c: nat, ok: bool, next: Pc)
    requires Consistent(d, Some(g), t)
    requires || (t.pc == MakeShutdown(c) && next == MakeRefresh(c))
             || (t.pc == RemoveShutdown(c) && next == RemoveClear(c))
    ensures HasObject(d, t.pc) && Continues(d, g, Shutdown(d, t, c, ok, next))
  {
    assert HasServer(d, c, !d.stale);
    if !d.stale {
      ShutsDown(d, g, t, c, ok, next);
    }
  }

  lemma ShutsDown(d: Data, g: nat, t: Goroutine, c: nat, ok: bool, next: Pc)
    requires Consistent(d, Some(g), t) && !d.stale && HasServer(d, c, true)
    requires || (t.pc == MakeShutdown(c) && next == MakeRefresh(c))
             || (t.pc == RemoveShutdown(c) && next == RemoveClear(c))
    ensures var o := Shutdown(d, t, c, ok, next); Consistent(o.data, Some(g), o.t)
  {
    var o := Shutdown(d, t, c, ok, next);
    forall p | 0 <= p < |o.data.protocols| ensures !Alive(o.data.protocols[p]) {
      assert Alive(d.protocols[p]) ==> Serves(d, InService(d, t.pc), p);
    }
  }

  // An error return gives c.mu back.
  lemma GivesMuBack(d: Data, g: nat, t: Goroutine, c: nat)
    requires InnerLocks(d, Some(g), t.pc) && Wiring(d, t.pc) && (t.pc == MakeBackends(c) || t.pc == MakeProtocol(c))
    ensures c < |d.objects|
    ensures var o := RefreshFails(d, t, c); InnerLocks(o.data, Some(g), o.t.pc) && Wiring(o.data, o.t.pc)
  {
  }

  lemma FailedRefresh(d: Data, g: nat, t: Goroutine, c: nat)
    requires Consistent(d, Some(g), t) && (t.pc == MakeBackends(c) || t.pc == MakeProtocol(c))
    ensures c < |d.objects| && Continues(d, g, RefreshFails(d, t, c))
  {
    GivesMuBack(d, g, t, c);
    assert forall p | 0 <= p < |d.protocols| :: !Alive(d.protocols[p]);
  }

  function Backed(d: Data, c: nat, backends: seq<string>): Data
    requires c < |d.objects|
  {
    d.(objects := d.objects[c := d.objects[c].(backends := backends)])
  }

  // Reading the backends of a cluster that has no live server changes nothing else.
  lemma BackendsRead(d: Data, g: nat, t: Goroutine, c: nat, backends: seq<string>)
    requires Consistent(d, Some(g), t) && t.pc == MakeBackends(c)
    ensures c < |d.objects| && Consistent(Backed(d, c, backends), Some(g), t)
  {
    assert forall p | 0 <= p < |d.protocols| :: !Alive(d.protocols[p]);
  }

  lemma BackendsContinue(d: Data, g: nat, t: Goroutine, c: nat, w: World)
    requires Consistent(d, Some(g), t) && t.pc == MakeBackends(c)
    ensures Continues(d, g, Work(d, g, t, w))
  {
    if w.backends.None? {
      FailedRefresh(d, g, t, c);
    } else {
      var d' := Backed(d, c, w.backends.value);
      BackendsRead(d, g, t, c, w.backends.value);
      if w.backends.value == [] {
        FailedRefresh(d', g, t, c);
      } else {
        assert forall p | 0 <= p < |d'.protocols| :: !Alive(d'.protocols[p]);
      }
    }
  }

  lemma ProtocolContinues(d: Data, g: nat, t: Goroutine, c: nat, w: World)
    requires Consistent(d, Some(g), t) && t.pc == MakeProtocol(c)
    ensures Continues(d, g, Work(d, g, t, w))
  {
    assert forall p | 0 <= p < |d.protocols| :: !Alive(d.protocols[p]);
    if !w.known {
      FailedRefresh(d, g, t, c);
    }
  }

  lemma StartContinues(d: Data, g: nat, t: Goroutine, c: nat, w: World)
    requires Consistent(d, Some(g), t) && t.pc == MakeStart(c)
    ensures Continues(d, g, Work(d, g, t, w))
  {
    assert forall p | 0 <= p < |d.protocols| :: !Alive(d.protocols[p]);
  }

  lemma PublishContinues(d: Data, g: nat, t: Goroutine, w: World)
    requires Consistent(d, Some(g), t) && (t.pc.MakePublish? || t.pc.RemoveClear?)
    ensures Continues(d, g, Work(d, g, t, w))
  {
    var o := Work(d, g, t, w);
    if t.pc.MakePublish? {
      SameServers(d, o.data, t.pc, o.t.pc);
    } else {
      assert forall p | 0 <= p < |d.protocols| :: !Alive(d.protocols[p]);
    }
  }

  lemma RefreshContinues(d: Data, g: nat, t: Goroutine, w: World)
    requires Consistent(d, Some(g), t) && CanWork(d, t.pc)
    requires t.pc.MakeRefresh? || t.pc.MakeBackends? || t.pc.MakeProtocol? || t.pc.MakeStart?
    ensures Continues(d, g, Work(d, g, t, w))
  {
    if t.pc.MakeRefresh? {
      TakesMu(d, g, t, t.pc.c, MakeBackends(t.pc.c));
    } else if t.pc.MakeBackends? {
      BackendsContinue(d, g, t, t.pc.c, w);
    } else if t.pc.MakeProtocol? {
      ProtocolContinues(d, g, t, t.pc.c, w);
    } else {
      StartContinues(d, g, t, t.pc.c, w);
    }
  }

  lemma TeardownContinues(d: Data, g: nat, t: Goroutine, w: World)
    requires Consistent(d, Some(g), t) && CanWork(d, t.pc)
    requires t.pc.MakeTeardown? || t.pc.MakeShutdown? || t.pc.RemoveTeardown? || t.pc.RemoveShutdown?
    ensures Continues(d, g, Work(d, g, t, w))
  {
    if t.pc.MakeTeardown? {
      TakesMu(d, g, t, t.pc.c, MakeShutdown(t.pc.c));
    } else if t.pc.RemoveTeardown? {
      TakesMu(d, g, t, t.pc.c, RemoveShutdown(t.pc.c));
    } else if t.pc.MakeShutdown? {
      ShutdownContinues(d, g, t, t.pc.c, w.shutdownOk, MakeRefresh(t.pc.c));
    } else {
      ShutdownContinues(d, g, t, t.pc.c, w.shutdownOk, RemoveClear(t.pc.c));
    }
  }

  lemma LookupContinues(d: Data, g: nat, t: Goroutine, w: World)
    requires Consistent(d, Some(g), t) && (t.pc.MakeLookup? || t.pc.RemoveLookup?)
    ensures Continues(d, g, Work(d, g, t, w))
  {
    if t.pc.MakeLookup? && d.registered.None? {
      NewCluster(d, g, t, w);
    } else {
      MovesOn(d, g, t, Work(d, g, t, w).t);
    }
  }

  lemma WorkContinues(d: Data, g: nat, t: Goroutine, w: World)
    requires Consistent(d, Some(g), t) && CanWork(d, t.pc) && Critical(t.pc) && !Leaving(t.pc)
    ensures Continues(d, g, Work(d, g, t, w))
  {
    if t.pc.MakeLookup? || t.pc.RemoveLookup? {
      LookupContinues(d, g, t, w);
    } else if t.pc.MakePublish? || t.pc.RemoveClear? {
      PublishContinues(d, g, t, w);
    } else if t.pc.MakeRefresh? || t.pc.MakeBackends? || t.pc.MakeProtocol? || t.pc.MakeStart? {
      RefreshContinues(d, g, t, w);
    } else {
      TeardownContinues(d, g, t, w);
    }
  }

  // ---------------------------------------------------- every action keeps the invariant

  // Taking and giving back the lock of a port.
  lemma LockMoves(d: Data, holder: Option<nat>, t: Goroutine, holder': Option<nat>, t': Goroutine)
    requires Consistent(d, holder, t)
    requires t == IDLE || Leaving(t.pc)
    requires t' == IDLE || t'.pc.MakeLookup? || t'.pc.RemoveLookup?
    ensures Consistent(d, holder', t')
  {
    SameServers(d, d, t.pc, t'.pc);
  }

  lemma WorkKeeps(x: Site, g: nat, w: World)
    requires Inv(x) && x.crash.None? && CanStep(x, g) && Critical(x.goroutines[g].pc) && !Leaving(x.goroutines[g].pc)
    ensures Inv(StepOf(x, g, w))
  {
    WorkContinues(x.data, g, x.goroutines[g], w);
  }

  lemma LockKeeps(x: Site, g: nat, w: World)
    requires Inv(x) && x.crash.None? && CanStep(x, g) && Waiting(x.goroutines[g].pc)
    ensures Inv(StepOf(x, g, w))
  {
    LockMoves(x.data, x.holder, IDLE, Some(g), StepOf(x, g, w).goroutines[g]);
  }

  lemma UnlockKeeps(x: Site, g: nat, w: World)
    requires Inv(x) && x.crash.None? && CanStep(x, g) && Leaving(x.goroutines[g].pc)
    ensures Inv(StepOf(x, g, w))
  {
    LockMoves(x.data, x.holder, x.goroutines[g], None, IDLE);
  }

  lemma StepKeeps(x: Site, g: nat, w: World)
    requires Inv(x) && x.crash.None? && CanStep(x, g)
    ensures Inv(StepOf(x, g, w))
  {
    if Waiting(x.goroutines[g].pc) {
      LockKeeps(x, g, w);
    } else if Leaving(x.goroutines[g].pc) {
      UnlockKeeps(x, g, w);
    } else {
      WorkKeeps(x, g, w);
    }
  }

  // A change of a listener that leaves its server alone, and it as live as it was.
  lemma ListenerChange(d: Data, holder: Option<nat>, t: Goroutine, p: nat, q: Protocol)
    requires Consistent(d, holder, t) && p < |d.protocols| && d.protocols[p].spawned
    requires q.server == d.protocols[p].server && (Alive(q) <==> Alive(d.protocols[p]))
    ensures Consistent(d.(protocols := d.protocols[p := q]), holder, t)
  {
    var d' := d.(protocols := d.protocols[p := q]);
    forall o | 0 <= o < |d'.protocols| && Alive(d'.protocols[o]) ensures Serves(d', InService(d', t.pc), o) {
      assert Serves(d, InService(d, t.pc), o);
    }
  }

  /** A server that starts never finds its port taken by an older one of the same proxy. */
  lemma PortIsFree(d: Data, pc: Pc, p: nat)
    requires OneServer(d, pc) && p < |d.protocols| && d.protocols[p].listener == Starting
    ensures !PortTaken(d)
  {
    assert Serves(d, InService(d, pc), p);
    forall o | 0 <= o < |d.protocols| && Alive(d.protocols[o]) ensures o == p {
      assert Serves(d, InService(d, pc), o);
    }
  }

  lemma BindKeeps(x: Site, p: nat)
    requires Inv(x) && x.crash.None? && Enabled(x, Bind(p))
    ensures Inv(Apply(x, Bind(p)))
  {
    var d := x.data;
    if d.protocols[p].server {
      if d.protocols[p].listener == Starting { PortIsFree(d, Current(x).pc, p); }
      ListenerChange(d, x.holder, Current(x), p, Bound(d, p).protocols[p]);
    }
  }

  /** Every step of every goroutine keeps the invariant of its site. */
  lemma ActionKeeps(x: Site, a: Action)
    requires Inv(x) && x.crash.None? && Enabled(x, a)
    ensures Inv(Apply(x, a))
  {
    match a
    case SpawnMake => assert Current(Apply(x, a)) == Current(x);
    case SpawnRemove => assert Current(Apply(x, a)) == Current(x);
    case Bind(p) => BindKeeps(x, p);
    case Step(g, w) => StepKeeps(x, g, w);
  }
}
