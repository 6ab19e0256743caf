/**
 The registry of mountebank instances that the watcher keeps in two Redis lists: add and
 drop handlers of any number of containers, interleaved at every await. Each Redis command
 is one atomic step that may also fail, which ends its handler.
 */
module MountebankPool {
  import opened RedisLists
  import opened Wrappers

  type Container = string

  // The endpoint of a container on the configured mountebank port.
  function Endpoint(c: Container, mountebankPort: string): string {
    "http://" + c + ":" + mountebankPort
  }

  /** Containers have different endpoints. */
  lemma EndpointInjective(c: Container, d: Container, mountebankPort: string)
    ensures Endpoint(c, mountebankPort) == Endpoint(d, mountebankPort) <==> c == d
  {
    var e, f := Endpoint(c, mountebankPort), Endpoint(d, mountebankPort);
    if e == f {
      assert c == e[7..|e| - |mountebankPort| - 1];
      assert d == f[7..|f| - |mountebankPort| - 1];
    }
  }

  // The next command of a handler. AddCheck is the health check; with Added and Dropped no
  // command is left.
  datatype Pc =
    | AddCheck
    | AddLremPool
    | AddLremFront
    | AddRpushPool
    | AddRpushFront
    | AddPublish
    | Added
    | DropLremPool
    | DropLremFront
    | Dropped

  // `cut`: that next command was rejected, which ended the handler.
  datatype Handler = Handler(container: Container, pc: Pc, cut: bool)

  // `pool` is mountebank_pool, `front` is frontend:2525; both name containers by their
  // endpoints. Handlers are in the order of their events.
  datatype State = State(mountebankPort: string, pool: seq<string>, front: seq<string>, handlers: seq<Handler>)

  datatype Action =
    | SpawnAdd(container: Container)
    | SpawnDrop(container: Container)
    | Step(h: nat, ok: bool)

  predicate Running(t: Handler) {
    !t.cut && t.pc != Added && t.pc != Dropped
  }

  predicate InFlight(s: State, c: Container) {
    exists h :: 0 <= h < |s.handlers| && s.handlers[h].container == c && Running(s.handlers[h])
  }

  predicate Enabled(s: State, a: Action) {
    a.Step? ==> a.h < |s.handlers| && Running(s.handlers[a.h])
  }

  function Move(s: State, h: nat, pc: Pc): State
    requires h < |s.handlers|
  {
    s.(handlers := s.handlers[h := s.handlers[h].(pc := pc)])
  }

  function Apply(s: State, a: Action): State
    requires Enabled(s, a)
  {
    match a
    case SpawnAdd(c) => s.(handlers := s.handlers + [Handler(c, AddCheck, false)])
    case SpawnDrop(c) => s.(handlers := s.handlers + [Handler(c, DropLremPool, false)])
    case Step(h, ok) =>
      var t := s.handlers[h];
      var e := Endpoint(t.container, s.mountebankPort);
      if !ok then s.(handlers := s.handlers[h := t.(cut := true)])
      else match t.pc
        case AddCheck => Move(s, h, AddLremPool)
        case AddLremPool => Move(s, h, AddLremFront).(pool := Lrem(s.pool, e))
        case AddLremFront => Move(s, h, AddRpushPool).(front := Lrem(s.front, e))
        case AddRpushPool => Move(s, h, AddRpushFront).(pool := Rpush(s.pool, e))
        case AddRpushFront => Move(s, h, AddPublish).(front := Rpush(s.front, e))
        case AddPublish => Move(s, h, Added)
        case DropLremPool => Move(s, h, DropLremFront).(pool := Lrem(s.pool, e))
        case DropLremFront => Move(s, h, Dropped).(front := Lrem(s.front, e))
        case _ => s
  }

  // The watcher starts: no handler has begun, and the lists are as an earlier one left them.
  predicate Initial(s: State) {
    s.handlers == []
  }

  // The state after a run, if each action of it could happen when its turn came.
  function Run(start: State, actions: seq<Action>): Option<State> {
    if actions == [] then Some(start)
    else
      var n := |actions| - 1;
      match Run(start, actions[..n])
      case None => None
      case Some(s) => if Enabled(s, actions[n]) then Some(Apply(s, actions[n])) else None
  }

  // --------------------------------------------------- every run: one list at a time

  datatype Key = Pool | Front

  function ListOf(s: State, key: Key): seq<string> {
    if key == Pool then s.pool else s.front
  }

  // The next command of a handler is the LREM, or the RPUSH, of this list.
  predicate Clears(pc: Pc, key: Key) {
    if key == Pool then pc == AddLremPool || pc == DropLremPool else pc == AddLremFront || pc == DropLremFront
  }

  predicate Pushes(pc: Pc, key: Key) {
    pc == if key == Pool then AddRpushPool else AddRpushFront
  }

  // The action performs the next command of a handler of this container.
  predicate Performs(s: State, a: Action, c: Container) {
    a.Step? && a.ok && a.h < |s.handlers| && s.handlers[a.h].container == c
  }

  // The last command on a list that named this container: an LREM, an RPUSH of some handler,
  // or none yet.
  datatype LastCommand = Untouched | Cleared | Pushed(pusher: nat)

  function LastOn(start: State, actions: seq<Action>, c: Container, key: Key): LastCommand
    requires Run(start, actions).Some?
  {
    if actions == [] then Untouched
    else
      var before, a := actions[..|actions| - 1], actions[|actions| - 1];
      var s := Run(start, before).value;
      if Performs(s, a, c) && Clears(s.handlers[a.h].pc, key) then Cleared
      else if Performs(s, a, c) && Pushes(s.handlers[a.h].pc, key) then Pushed(a.h)
      else LastOn(start, before, c, key)
  }

  lemma ListAfter(s: State, a: Action, key: Key)
    requires Enabled(s, a)
    ensures Apply(s, a).mountebankPort == s.mountebankPort
    ensures ListOf(Apply(s, a), key) ==
            if a.Step? && a.ok && Clears(s.handlers[a.h].pc, key)
            then Lrem(ListOf(s, key), Endpoint(s.handlers[a.h].container, s.mountebankPort))
            else if a.Step? && a.ok && Pushes(s.handlers[a.h].pc, key)
            then Rpush(ListOf(s, key), Endpoint(s.handlers[a.h].container, s.mountebankPort))
            else ListOf(s, key)
  {
  }

  // The last command on the list that named the container was an RPUSH, or there was none and
  // the list held it from the start.
  predicate Held(start: State, actions: seq<Action>, c: Container, key: Key)
    requires Run(start, actions).Some?
  {
    var last := LastOn(start, actions, c, key);
    last.Pushed? || (last.Untouched? && Endpoint(c, start.mountebankPort) in ListOf(start, key))
  }

  /** In every run, however the handlers overlap and fail, a list holds a container exactly when
      the last command on it that named the container was an RPUSH, or there was none and the
      list held it from the start. */
  lemma {:induction false} HeldIff(start: State, actions: seq<Action>, c: Container, key: Key)
    requires Run(start, actions).Some?
    ensures Run(start, actions).value.mountebankPort == start.mountebankPort
    ensures Endpoint(c, start.mountebankPort) in ListOf(Run(start, actions).value, key) <==>
            Held(start, actions, c, key)
  {
    if actions != [] {
      var before, a := actions[..|actions| - 1], actions[|actions| - 1];
      HeldIff(start, before, c, key);
      var s := Run(start, before).value;
      ListAfter(s, a, key);
      if a.Step? {
        EndpointInjective(s.handlers[a.h].container, c, s.mountebankPort);
      }
    }
  }

  /** In every run the two lists disagree on a container exactly when the last commands that named
      it left it in one of them and not in the other. */
  lemma DifferIff(start: State, actions: seq<Action>, c: Container)
    requires Run(start, actions).Some?
    ensures var s, e := Run(start, actions).value, Endpoint(c, start.mountebankPort);
            (e in s.pool <==> e in s.front) <==> (Held(start, actions, c, Pool) <==> Held(start, actions, c, Front))
  {
    HeldIff(start, actions, c, Pool);
    HeldIff(start, actions, c, Front);
  }

  // Past its own LREM of the list; past its own RPUSH.
  predicate HasCleared(pc: Pc, key: Key) {
    pc != AddCheck && pc != AddLremPool && pc != DropLremPool &&
    (key == Front ==> pc != AddLremFront && pc != DropLremFront)
  }

  predicate HasPushed(pc: Pc, key: Key) {
    pc == AddPublish || pc == Added || (key == Pool && pc == AddRpushFront)
  }

  predicate PushedBy(s: State, g: nat, c: Container, key: Key) {
    g < |s.handlers| && s.handlers[g].container == c && HasPushed(s.handlers[g].pc, key)
  }

  lemma StaysPushed(s: State, a: Action, g: nat, c: Container, key: Key)
    requires Enabled(s, a)
    requires PushedBy(s, g, c, key) || (Performs(s, a, c) && a.h == g && Pushes(s.handlers[g].pc, key))
    ensures PushedBy(Apply(s, a), g, c, key)
  {
  }

  lemma {:induction false} PusherHasPushed(start: State, actions: seq<Action>, c: Container, key: Key)
    requires Run(start, actions).Some? && LastOn(start, actions, c, key).Pushed?
    ensures PushedBy(Run(start, actions).value, LastOn(start, actions, c, key).pusher, c, key)
  {
    if actions != [] {
      var before, a := actions[..|actions| - 1], actions[|actions| - 1];
      if LastOn(start, actions, c, key) == LastOn(start, before, c, key) {
        PusherHasPushed(start, before, c, key);
      }
      StaysPushed(Run(start, before).value, a, LastOn(start, actions, c, key).pusher, c, key);
    }
  }

  predicate ClearedBy(s: State, h: nat, key: Key) {
    h < |s.handlers| && HasCleared(s.handlers[h].pc, key)
  }

  lemma ClearingStep(s: State, a: Action, h: nat, key: Key)
    requires Enabled(s, a) && ClearedBy(Apply(s, a), h, key)
    ensures h < |s.handlers| && Apply(s, a).handlers[h].container == s.handlers[h].container
    ensures || ClearedBy(s, h, key)
            || (Performs(s, a, s.handlers[h].container) && a.h == h && Clears(s.handlers[h].pc, key))
  {
  }

  lemma {:induction false} ClearedFirst(start: State, actions: seq<Action>, h: nat, key: Key)
    requires start.handlers == [] && Run(start, actions).Some? && ClearedBy(Run(start, actions).value, h, key)
    ensures !LastOn(start, actions, Run(start, actions).value.handlers[h].container, key).Untouched?
  {
    if actions != [] {
      var before, a := actions[..|actions| - 1], actions[|actions| - 1];
      var s := Run(start, before).value;
      ClearingStep(s, a, h, key);
      if ClearedBy(s, h, key) {
        ClearedFirst(start, before, h, key);
      }
    }
  }

  // The next action pushes a container that was pushed by the last command on the list that
  // named it.
  predicate PushesAgain(start: State, actions: seq<Action>, a: Action, key: Key)
    requires Run(start, actions).Some?
  {
    var s := Run(start, actions).value;
    && a.Step? && a.ok && a.h < |s.handlers| && Pushes(s.handlers[a.h].pc, key)
    && LastOn(start, actions, s.handlers[a.h].container, key).Pushed?
  }

  predicate NeverPushesAgain(start: State, actions: seq<Action>, key: Key)
    requires Run(start, actions).Some?
  {
    actions == [] ||
    var before, a := actions[..|actions| - 1], actions[|actions| - 1];
    NeverPushesAgain(start, before, key) && !PushesAgain(start, before, a, key)
  }

  predicate AlwaysDistinct(start: State, actions: seq<Action>, key: Key)
    requires Run(start, actions).Some?
  {
    && Distinct(ListOf(Run(start, actions).value, key))
    && (actions == [] || AlwaysDistinct(start, actions[..|actions| - 1], key))
  }

  /** When that happens, the other push was another handler's, made since this one's LREM. */
  lemma PushedByAnother(start: State, actions: seq<Action>, a: Action, key: Key) returns (g: nat)
    requires Run(start, actions).Some? && PushesAgain(start, actions, a, key)
    ensures var s := Run(start, actions).value;
            var t := s.handlers[a.h];
            && g != a.h && PushedBy(s, g, t.container, key)
            && HasCleared(t.pc, key) && LastOn(start, actions, t.container, key) == Pushed(g)
  {
    var c := Run(start, actions).value.handlers[a.h].container;
    PusherHasPushed(start, actions, c, key);
    g := LastOn(start, actions, c, key).pusher;
  }

  lemma StaysDistinctIff(start: State, actions: seq<Action>, a: Action, key: Key)
    requires Initial(start) && Run(start, actions).Some? && Enabled(Run(start, actions).value, a)
    requires Distinct(ListOf(Run(start, actions).value, key))
    ensures Distinct(ListOf(Apply(Run(start, actions).value, a), key)) <==> !PushesAgain(start, actions, a, key)
  {
    var s := Run(start, actions).value;
    ListAfter(s, a, key);
    if a.Step? {
      var c := s.handlers[a.h].container;
      LremDistinct(ListOf(s, key), Endpoint(c, s.mountebankPort));
      RpushDistinctIff(ListOf(s, key), Endpoint(c, s.mountebankPort));
      if a.ok && Pushes(s.handlers[a.h].pc, key) {
        HeldIff(start, actions, c, key);
        ClearedFirst(start, actions, a.h, key);
      }
    }
  }

  /** In every run, however the handlers overlap and fail, a list has no duplicate in any state
      exactly when it starts without one and no container is pushed onto it again before another
      LREM of it. */
  lemma {:induction false} DistinctIff(start: State, actions: seq<Action>, key: Key)
    requires Initial(start) && Run(start, actions).Some?
    ensures AlwaysDistinct(start, actions, key) <==>
            Distinct(ListOf(start, key)) && NeverPushesAgain(start, actions, key)
  {
    if actions != [] {
      var before, a := actions[..|actions| - 1], actions[|actions| - 1];
      DistinctIff(start, before, key);
      if AlwaysDistinct(start, before, key) {
        StaysDistinctIff(start, before, a, key);
      }
    }
  }

  // -------------------------------------------- one handler of a container at a time

  // A handler is only started when none for its container is in flight.
  predicate Serialised(start: State, actions: seq<Action>) {
    actions == [] ||
    var n := |actions| - 1;
    && Serialised(start, actions[..n])
    && match Run(start, actions[..n])
       case None => true
       case Some(s) => actions[n].Step? || !InFlight(s, actions[n].container)
  }

  // Whether the two lists hold a container.
  datatype Membership = Membership(pool: bool, front: bool)

  function Member(s: State, c: Container): Membership {
    var e := Endpoint(c, s.mountebankPort);
    Membership(e in s.pool, e in s.front)
  }

  // What the commands of one handler up to `pc` make of the membership it found.
  function Effect(m: Membership, pc: Pc): Membership {
    match pc
    case AddLremFront => Membership(false, m.front)
    case DropLremFront => Membership(false, m.front)
    case AddRpushPool => Membership(false, false)
    case Dropped => Membership(false, false)
    case AddRpushFront => Membership(true, false)
    case AddPublish => Membership(true, true)
    case Added => Membership(true, true)
    case _ => m
  }

  // What the first `n` handlers, one after the other, make of the membership of a container.
  function Effects(m: Membership, handlers: seq<Handler>, n: nat, c: Container): Membership
    requires n <= |handlers|
  {
    if n == 0 then m
    else
      var found := Effects(m, handlers, n - 1, c);
      if handlers[n - 1].container == c then Effect(found, handlers[n - 1].pc) else found
  }

  lemma {:induction false} EffectsSame(m: Membership, a: seq<Handler>, b: seq<Handler>, n: nat, c: Container)
    requires n <= |a| && n <= |b|
    requires forall k | 0 <= k < n :: a[k] == b[k] || (a[k].container != c && b[k].container != c)
    ensures Effects(m, a, n, c) == Effects(m, b, n, c)
  {
    if n > 0 { EffectsSame(m, a, b, n - 1, c); }
  }

  lemma {:induction false} EffectsOfLast(m: Membership, handlers: seq<Handler>, n: nat, c: Container, h: nat)
    requires h < n <= |handlers| && handlers[h].container == c
    requires forall k | h < k < n :: handlers[k].container != c || handlers[k].pc == AddCheck
    ensures Effects(m, handlers, n, c) == Effect(Effects(m, handlers, h, c), handlers[h].pc)
  {
    if h < n - 1 { EffectsOfLast(m, handlers, n - 1, c, h); }
  }

  function History(start: State, s: State, c: Container): Membership {
    Effects(Member(start, c), s.handlers, |s.handlers|, c)
  }

  // Only the last handler of a container can be running.
  predicate OneRunning(handlers: seq<Handler>) {
    forall h, k | 0 <= h < k < |handlers| && handlers[h].container == handlers[k].container :: !Running(handlers[h])
  }

  ghost predicate Inv(start: State, s: State) {
    && s.mountebankPort == start.mountebankPort
    && OneRunning(s.handlers)
    && forall c: Container :: Member(s, c) == History(start, s, c)
  }

  lemma SpawnKeeps(start: State, s: State, a: Action)
    requires Inv(start, s) && !a.Step? && !InFlight(s, a.container)
    ensures Inv(start, Apply(s, a))
  {
    var s', n := Apply(s, a), |s.handlers|;
    forall c: Container ensures Member(s', c) == History(start, s', c) {
      EffectsSame(Member(start, c), s.handlers, s'.handlers, n, c);
      assert Member(s, c) == History(start, s, c);
    }
  }

  // A command acts on the membership of its own container as it is meant to.
  lemma StepMember(s: State, a: Action, c: Container, found: Membership)
    requires a.Step? && Enabled(s, a)
    requires s.handlers[a.h].container == c ==> Member(s, c) == Effect(found, s.handlers[a.h].pc)
    ensures Member(Apply(s, a), c) ==
            if s.handlers[a.h].container == c then Effect(found, Apply(s, a).handlers[a.h].pc) else Member(s, c)
  {
    EndpointInjective(s.handlers[a.h].container, c, s.mountebankPort);
  }

  lemma StepHistory(start: State, s: State, a: Action, c: Container)
    requires Inv(start, s) && a.Step? && Enabled(s, a)
    ensures Member(Apply(s, a), c) == History(start, Apply(s, a), c)
  {
    var s', h, n, m := Apply(s, a), a.h, |s.handlers|, Member(start, c);
    var found := Effects(m, s.handlers, h, c);
    assert Member(s, c) == History(start, s, c);
    if s.handlers[h].container == c {
      EffectsOfLast(m, s.handlers, n, c, h);
      EffectsOfLast(m, s'.handlers, n, c, h);
      EffectsSame(m, s.handlers, s'.handlers, h, c);
    } else {
      EffectsSame(m, s.handlers, s'.handlers, n, c);
    }
    StepMember(s, a, c, found);
  }

  lemma StepKeeps(start: State, s: State, a: Action)
    requires Inv(start, s) && a.Step? && Enabled(s, a)
    ensures Inv(start, Apply(s, a))
  {
    forall c: Container ensures Member(Apply(s, a), c) == History(start, Apply(s, a), c) {
      StepHistory(start, s, a, c);
    }
  }

  lemma {:induction false} RunKeeps(start: State, actions: seq<Action>)
    requires Initial(start) && Run(start, actions).Some? && Serialised(start, actions)
    ensures Inv(start, Run(start, actions).value)
  {
    if actions != [] {
      var n := |actions| - 1;
      RunKeeps(start, actions[..n]);
      if actions[n].Step? {
        StepKeeps(start, Run(start, actions[..n]).value, actions[n]);
      } else {
        SpawnKeeps(start, Run(start, actions[..n]).value, actions[n]);
      }
    }
  }

  lemma PushesOnce(start: State, actions: seq<Action>, a: Action, key: Key)
    requires Run(start, actions).Some? && Enabled(Run(start, actions).value, a) && Inv(start, Run(start, actions).value)
    ensures !PushesAgain(start, actions, a, key)
  {
    var s := Run(start, actions).value;
    if a.Step? && Pushes(s.handlers[a.h].pc, key) {
      var c := s.handlers[a.h].container;
      assert Member(s, c) == History(start, s, c);
      EffectsOfLast(Member(start, c), s.handlers, |s.handlers|, c, a.h);
      HeldIff(start, actions, c, key);
    }
  }

  lemma {:induction false} SerialisedPushes(start: State, actions: seq<Action>, key: Key)
    requires Initial(start) && Run(start, actions).Some? && Serialised(start, actions)
    ensures NeverPushesAgain(start, actions, key)
  {
    if actions != [] {
      var before := actions[..|actions| - 1];
      SerialisedPushes(start, before, key);
      RunKeeps(start, before);
      PushesOnce(start, before, actions[|actions| - 1], key);
    }
  }

  /** While the handlers of one container are serialised, no container is ever pushed again, so a
      list that starts without duplicates never has one, even when commands fail. */
  lemma NoDuplicates(start: State, actions: seq<Action>, key: Key)
    requires Initial(start) && Run(start, actions).Some? && Serialised(start, actions)
    ensures NeverPushesAgain(start, actions, key)
    ensures AlwaysDistinct(start, actions, key) <==> Distinct(ListOf(start, key))
  {
    SerialisedPushes(start, actions, key);
    DistinctIff(start, actions, key);
  }

  // ------------------------------------------------------------ when the lists agree

  // The first `n` handlers leave the lists in disagreement on a container: the last of its
  // handlers stopped between the two RPUSHes; or at the LREM of frontend:2525, which held it;
  // or before it changed anything, and they disagreed already, perhaps from the start.
  predicate Apart(m: Membership, handlers: seq<Handler>, n: nat, c: Container)
    requires n <= |handlers|
  {
    if n == 0 then m.pool != m.front
    else
      var t := handlers[n - 1];
      if t.container != c then Apart(m, handlers, n - 1, c)
      else
        || t.pc == AddRpushFront
        || ((t.pc == AddLremFront || t.pc == DropLremFront) && Effects(m, handlers, n - 1, c).front)
        || ((t.pc == AddCheck || t.pc == AddLremPool || t.pc == DropLremPool) && Apart(m, handlers, n - 1, c))
  }

  lemma {:induction false} ApartIff(m: Membership, handlers: seq<Handler>, n: nat, c: Container)
    requires n <= |handlers|
    ensures Apart(m, handlers, n, c) <==> Effects(m, handlers, n, c).pool != Effects(m, handlers, n, c).front
  {
    if n > 0 { ApartIff(m, handlers, n - 1, c); }
  }

  ghost predicate ApartAfter(start: State, actions: seq<Action>, c: Container)
    requires Run(start, actions).Some?
  {
    var handlers := Run(start, actions).value.handlers;
    Apart(Member(start, c), handlers, |handlers|, c)
  }

  /** With handlers serialised per container, the two lists disagree on a container exactly when
      its last handler stands, or was cut short, between the two RPUSHes, or at the LREM of
      frontend:2525 while that list held it, or at its first LREM while they disagreed already. */
  lemma DisagreeIff(start: State, actions: seq<Action>, c: Container)
    requires Initial(start) && Run(start, actions).Some? && Serialised(start, actions)
    ensures var s, e := Run(start, actions).value, Endpoint(c, start.mountebankPort);
            (e in s.pool <==> e in s.front) <==> !ApartAfter(start, actions, c)
  {
    RunKeeps(start, actions);
    var s := Run(start, actions).value;
    assert Member(s, c) == History(start, s, c);
    ApartIff(Member(start, c), s.handlers, |s.handlers|, c);
  }

  /** When the last handler of a container that passed its health check has come to its end, both
      lists hold the container if it was an add, and neither does if it was a drop. */
  lemma LastEndedDecides(start: State, actions: seq<Action>, h: nat)
    requires Initial(start) && Run(start, actions).Some? && Serialised(start, actions)
    requires var hs := Run(start, actions).value.handlers;
             && h < |hs| && (hs[h].pc == Added || hs[h].pc == Dropped)
             && forall k | h < k < |hs| && hs[k].container == hs[h].container :: hs[k].pc == AddCheck
    ensures var s := Run(start, actions).value;
            var added := s.handlers[h].pc == Added;
            Member(s, s.handlers[h].container) == Membership(added, added)
  {
    RunKeeps(start, actions);
    var s := Run(start, actions).value;
    var c := s.handlers[h].container;
    assert Member(s, c) == History(start, s, c);
    EffectsOfLast(Member(start, c), s.handlers, |s.handlers|, c, h);
  }

  lemma ForeignStep(s: State, a: Action, e: string)
    requires Enabled(s, a)
    requires a.Step? ==> e != Endpoint(s.handlers[a.h].container, s.mountebankPort)
    ensures (e in Apply(s, a).pool <==> e in s.pool) && (e in Apply(s, a).front <==> e in s.front)
    ensures Apply(s, a).mountebankPort == s.mountebankPort
  {
    ListAfter(s, a, Pool);
    ListAfter(s, a, Front);
  }

  // Strings that are no endpoint of a container stay in the lists, or out of them.
  lemma {:induction false} ForeignUntouched(start: State, actions: seq<Action>, e: string)
    requires Run(start, actions).Some?
    requires forall c: Container :: e != Endpoint(c, start.mountebankPort)
    ensures var s := Run(start, actions).value;
            && s.mountebankPort == start.mountebankPort
            && (e in s.pool <==> e in start.pool) && (e in s.front <==> e in start.front)
  {
    if actions != [] {
      var n := |actions| - 1;
      ForeignUntouched(start, actions[..n], e);
      ForeignStep(Run(start, actions[..n]).value, actions[n], e);
    }
  }

  // A string that is no endpoint of a container is in one of the lists and not in the other.
  ghost predicate ForeignDiffer(s: State) {
    exists e :: (e in s.pool <==> e !in s.front) && forall c: Container :: e != Endpoint(c, s.mountebankPort)
  }

  /** Two lists that started without duplicates are permutations of each other exactly when they
      disagree on no container, and did not start with other strings in which they differ. */
  lemma PermutationsIff(start: State, actions: seq<Action>)
    requires Initial(start) && Run(start, actions).Some? && Serialised(start, actions)
    requires Distinct(start.pool) && Distinct(start.front)
    ensures var s := Run(start, actions).value;
            multiset(s.pool) == multiset(s.front) <==>
            !ForeignDiffer(start) && forall c: Container :: !ApartAfter(start, actions, c)
  {
    var s := Run(start, actions).value;
    if multiset(s.pool) == multiset(s.front) {
      PermutationsAgree(start, actions);
    } else if !ForeignDiffer(start) && forall c: Container :: !ApartAfter(start, actions, c) {
      AgreeingPermutations(start, actions);
    }
  }

  lemma PermutationsAgree(start: State, actions: seq<Action>)
    requires Initial(start) && Run(start, actions).Some? && Serialised(start, actions)
    requires multiset(Run(start, actions).value.pool) == multiset(Run(start, actions).value.front)
    ensures !ForeignDiffer(start) && forall c: Container :: !ApartAfter(start, actions, c)
  {
    var s := Run(start, actions).value;
    forall c: Container ensures !ApartAfter(start, actions, c) {
      DisagreeIff(start, actions, c);
      SameMembers(s.pool, s.front, Endpoint(c, start.mountebankPort));
    }
    if ForeignDiffer(start) {
      var e :|
        (e in start.pool <==> e !in start.front) && forall c: Container :: e != Endpoint(c, start.mountebankPort);
      ForeignUntouched(start, actions, e);
      SameMembers(s.pool, s.front, e);
    }
  }

  lemma AgreeingPermutations(start: State, actions: seq<Action>)
    requires Initial(start) && Run(start, actions).Some? && Serialised(start, actions)
    requires Distinct(start.pool) && Distinct(start.front)
    requires !ForeignDiffer(start) && forall c: Container :: !ApartAfter(start, actions, c)
    ensures multiset(Run(start, actions).value.pool) == multiset(Run(start, actions).value.front)
  {
    var s := Run(start, actions).value;
    forall e ensures e in s.pool <==> e in s.front {
      if c: Container :| e == Endpoint(c, start.mountebankPort) {
        DisagreeIff(start, actions, c);
      } else {
        ForeignUntouched(start, actions, e);
      }
    }
    NoDuplicates(start, actions, Pool);
    NoDuplicates(start, actions, Front);
    SameElements(s.pool, s.front);
  }
}
