/**
 Runs of the registry in which the lists end up with a duplicate, or in disagreement; and which
 of them one connection to Redis allows.
 */
module RegistryRuns {
  import opened RedisLists
  import opened Wrappers
  import opened MountebankPool
  import opened RegistryOrder

  // A run, the state and the queue it leads to, and whether all answers came in order.
  datatype Reached = Reached(actions: seq<Action>, s: State, queue: seq<nat>, ordered: bool)

  ghost predicate Reaches(start: State, r: Reached) {
    && Run(start, r.actions) == Some(r.s) && Queue(start, r.actions) == r.queue
    && (r.ordered <==> InOrder(start, r.actions))
  }

  lemma Then(start: State, r: Reached, a: Action) returns (r': Reached)
    requires Reaches(start, r) && Enabled(r.s, a)
    ensures r'.actions == r.actions + [a] && r'.s == Apply(r.s, a) && r'.queue == NextQueue(r.s, r.queue, a)
    ensures r'.ordered == (r.ordered && IsNext(r.s, r.queue, a))
    ensures Reaches(start, r')
    ensures AlwaysDistinct(start, r'.actions, Pool) <==> AlwaysDistinct(start, r.actions, Pool) && Distinct(r'.s.pool)
    ensures Serialised(start, r'.actions) <==>
            Serialised(start, r.actions) && (a.Step? || !InFlight(r.s, a.container))
  {
    r' := Reached(r.actions + [a], Apply(r.s, a), NextQueue(r.s, r.queue, a), r.ordered && IsNext(r.s, r.queue, a));
    assert r'.actions[..|r.actions|] == r.actions;
  }

  // The registry is empty when the watcher starts.
  ghost predicate Blank(start: State) {
    start == State(start.mountebankPort, [], [], [])
  }

  lemma Begin(start: State) returns (r: Reached)
    requires Blank(start)
    ensures Reaches(start, r) && r == Reached([], start, [], true)
    ensures Initial(start) && Serialised(start, []) && AlwaysDistinct(start, [], Pool)
  {
    r := Reached([], start, [], true);
  }

  // An add that is about to push.
  lemma OneAdd(start: State, c: Container) returns (r: Reached)
    requires Blank(start)
    ensures Reaches(start, r) && r.ordered && r.queue == [0]
    ensures Serialised(start, r.actions) && AlwaysDistinct(start, r.actions, Pool)
    ensures r.s == start.(handlers := [Handler(c, AddRpushPool, false)])
  {
    r := Begin(start);
    r := Then(start, r, SpawnAdd(c));
    r := Then(start, r, Step(0, true));
    r := Then(start, r, Step(0, true));
    r := Then(start, r, Step(0, true));
  }

  lemma AddPushes(s: State, c: Container)
    requires s.pool == [] && s.handlers == [Handler(c, AddRpushPool, false)]
    ensures Apply(s, Step(0, true)) ==
            s.(pool := [Endpoint(c, s.mountebankPort)], handlers := [Handler(c, AddRpushFront, false)])
  {
  }

  // An add that has pushed onto the pool.
  lemma HalfAdd(start: State, c: Container) returns (r: Reached)
    requires Blank(start)
    ensures Reaches(start, r) && r.ordered && r.queue == [0]
    ensures Serialised(start, r.actions)
    ensures r.s == start.(pool := [Endpoint(c, start.mountebankPort)], handlers := [Handler(c, AddRpushFront, false)])
  {
    r := OneAdd(start, c);
    AddPushes(r.s, c);
    r := Then(start, r, Step(0, true));
  }

  /** A failed command between the two pushes leaves the lists in disagreement, even over one
      connection and with handlers serialised. */
  lemma TornAddDisagrees(start: State, c: Container) returns (r: Reached)
    requires Blank(start)
    ensures Reaches(start, r) && r.ordered && Serialised(start, r.actions) && Idle(r.s) && !InFlight(r.s, c)
    ensures r.s.pool == [Endpoint(c, start.mountebankPort)] && r.s.front == []
  {
    r := HalfAdd(start, c);
    r := Then(start, r, Step(0, false));
  }

  lemma DropBegins(start: State, c: Container) returns (r: Reached)
    requires Blank(start)
    ensures Reaches(start, r) && r.ordered && r.queue == [0, 1]
    ensures r.s == start.(pool := [Endpoint(c, start.mountebankPort)],
                          handlers := [Handler(c, AddRpushFront, false), Handler(c, DropLremPool, false)])
  {
    r := HalfAdd(start, c);
    r := Then(start, r, SpawnDrop(c));
  }

  lemma DropClears(s: State, c: Container)
    requires s.pool == [Endpoint(c, s.mountebankPort)]
    requires s.handlers == [Handler(c, AddRpushFront, false), Handler(c, DropLremPool, false)]
    ensures Apply(s, Step(1, true)) ==
            s.(pool := [], handlers := [Handler(c, AddRpushFront, false), Handler(c, DropLremFront, false)])
  {
    LremOnly(Endpoint(c, s.mountebankPort));
  }

  // A drop overtakes an add that has pushed onto the pool.
  lemma DropOvertakes(start: State, c: Container) returns (r: Reached)
    requires Blank(start)
    ensures Reaches(start, r) && !r.ordered
    ensures r.s == start.(handlers := [Handler(c, AddRpushFront, false), Handler(c, DropLremFront, false)])
  {
    r := DropBegins(start, c);
    DropClears(r.s, c);
    r := Then(start, r, Step(1, true));
  }

  lemma DropEnds(start: State, c: Container) returns (r: Reached)
    requires Blank(start)
    ensures Reaches(start, r) && !r.ordered
    ensures r.s == start.(handlers := [Handler(c, AddRpushFront, false), Handler(c, Dropped, false)])
  {
    LremOnly(Endpoint(c, start.mountebankPort));
    r := DropOvertakes(start, c);
    r := Then(start, r, Step(1, true));
  }

  /** Without the order of one connection an overlapping add and drop leave the lists in
      disagreement for good, although no command fails and nothing is left in flight. */
  lemma OverlapDisagrees(start: State, c: Container) returns (r: Reached)
    requires Blank(start)
    ensures Reaches(start, r) && !r.ordered && Idle(r.s) && !InFlight(r.s, c)
    ensures forall h | 0 <= h < |r.s.handlers| :: !r.s.handlers[h].cut
    ensures r.s.pool == [] && r.s.front == [Endpoint(c, start.mountebankPort)]
  {
    r := DropEnds(start, c);
    r := Then(start, r, Step(0, true));
    r := Then(start, r, Step(0, true));
  }

  // Two adds of one container whose health checks have both succeeded.
  lemma TwoAdds(start: State, c: Container) returns (r: Reached)
    requires Blank(start)
    ensures Reaches(start, r) && r.ordered && r.queue == [0, 1] && AlwaysDistinct(start, r.actions, Pool)
    ensures r.s == start.(handlers := [Handler(c, AddLremPool, false), Handler(c, AddLremPool, false)])
  {
    r := Begin(start);
    r := Then(start, r, SpawnAdd(c));
    r := Then(start, r, SpawnAdd(c));
    r := Then(start, r, Step(0, true));
    r := Then(start, r, Step(1, true));
  }

  lemma BothCleared(start: State, c: Container) returns (r: Reached)
    requires Blank(start)
    ensures Reaches(start, r) && r.ordered && r.queue == [0, 1] && AlwaysDistinct(start, r.actions, Pool)
    ensures r.s == start.(handlers := [Handler(c, AddLremFront, false), Handler(c, AddLremFront, false)])
  {
    r := TwoAdds(start, c);
    r := Then(start, r, Step(0, true));
    r := Then(start, r, Step(1, true));
  }

  // Both adds are about to push.
  lemma BothPush(start: State, c: Container) returns (r: Reached)
    requires Blank(start)
    ensures Reaches(start, r) && r.ordered && r.queue == [0, 1] && AlwaysDistinct(start, r.actions, Pool)
    ensures r.s == start.(handlers := [Handler(c, AddRpushPool, false), Handler(c, AddRpushPool, false)])
  {
    r := BothCleared(start, c);
    r := Then(start, r, Step(0, true));
    r := Then(start, r, Step(1, true));
  }

  /** Two adds of one container at the same time leave a duplicate, even over one connection. */
  lemma UnserialisedDuplicates(start: State, c: Container) returns (r: Reached)
    requires Blank(start)
    ensures Reaches(start, r) && r.ordered && !Distinct(r.s.pool)
  {
    var e := Endpoint(c, start.mountebankPort);
    r := BothPush(start, c);
    r := Then(start, r, Step(0, true));
    r := Then(start, r, Step(1, true));
    assert r.s.pool == [e, e] && r.s.pool[0] == r.s.pool[1];
  }

  lemma OneOfTwo(start: State, c: Container) returns (r: Reached)
    requires Blank(start)
    ensures Reaches(start, r) && AlwaysDistinct(start, r.actions, Pool)
    ensures r.s == start.(pool := [Endpoint(c, start.mountebankPort)],
                          handlers := [Handler(c, AddRpushPool, false), Handler(c, AddRpushFront, false)])
  {
    r := BothPush(start, c);
    r := Then(start, r, Step(1, true));
  }

  // One of the two has pushed, and a drop has begun.
  lemma AddsAndDrop(start: State, c: Container) returns (r: Reached)
    requires Blank(start)
    ensures Reaches(start, r) && AlwaysDistinct(start, r.actions, Pool)
    ensures r.s.pool == [Endpoint(c, start.mountebankPort)] && r.s.mountebankPort == start.mountebankPort
    ensures r.s.handlers ==
            [Handler(c, AddRpushPool, false), Handler(c, AddRpushFront, false), Handler(c, DropLremPool, false)]
  {
    r := OneOfTwo(start, c);
    r := Then(start, r, SpawnDrop(c));
  }

  /** It is the last command that counts: a push of another handler since the own LREM does no
      harm when the LREM of a third one comes between. */
  lemma ThirdHandlerHeals(start: State, c: Container) returns (r: Reached)
    requires Blank(start)
    ensures Reaches(start, r) && AlwaysDistinct(start, r.actions, Pool) && Enabled(r.s, Step(0, true))
    ensures r.s.handlers[0] == Handler(c, AddRpushPool, false) && PushedBy(r.s, 1, c, Pool)
    ensures Distinct(Apply(r.s, Step(0, true)).pool)
  {
    LremOnly(Endpoint(c, start.mountebankPort));
    r := AddsAndDrop(start, c);
    r := Then(start, r, Step(2, true));
  }
}
