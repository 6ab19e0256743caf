/**
 The registry handlers over one connection to Redis, which answers commands in the order in
 which they were issued: a handler issues its next command when its last one is answered. The
 two lists then receive the same commands in the same order.
 */
module RegistryOrder {
  import opened RedisLists
  import opened Wrappers
  import opened MountebankPool

  predicate IsCommand(s: State, a: Action) {
    a.Step? && a.h < |s.handlers| && s.handlers[a.h].pc != AddCheck
  }

  // The handlers that wait for an answer, in the order in which they issued their commands. A
  // drop issues its first command at once, an add after its health check.
  function NextQueue(s: State, q: seq<nat>, a: Action): seq<nat>
    requires Enabled(s, a)
  {
    match a
    case SpawnAdd(_) => q
    case SpawnDrop(_) => q + [|s.handlers|]
    case Step(h, _) =>
      var rest := if IsCommand(s, a) && q != [] then q[1..] else q;
      if Running(Apply(s, a).handlers[h]) then rest + [h] else rest
  }

  function Queue(start: State, actions: seq<Action>): seq<nat>
    requires Run(start, actions).Some?
  {
    if actions == [] then []
    else
      var before, a := actions[..|actions| - 1], actions[|actions| - 1];
      NextQueue(Run(start, before).value, Queue(start, before), a)
  }

  // A command is only answered when it is the first in the queue.
  predicate IsNext(s: State, q: seq<nat>, a: Action) {
    IsCommand(s, a) ==> q != [] && q[0] == a.h
  }

  predicate InOrder(start: State, actions: seq<Action>)
    requires Run(start, actions).Some?
  {
    actions == [] ||
    var before, a := actions[..|actions| - 1], actions[|actions| - 1];
    InOrder(start, before) && IsNext(Run(start, before).value, Queue(start, before), a)
  }

  predicate Waits(s: State, h: nat) {
    h < |s.handlers| && Running(s.handlers[h]) && s.handlers[h].pc != AddCheck
  }

  predicate QueueOk(s: State, q: seq<nat>) {
    && (forall i | 0 <= i < |q| :: Waits(s, q[i]))
    && (forall i, j | 0 <= i < j < |q| :: q[i] != q[j])
  }

  lemma NextQueueOk(s: State, q: seq<nat>, a: Action)
    requires Enabled(s, a) && QueueOk(s, q) && IsNext(s, q, a)
    ensures QueueOk(Apply(s, a), NextQueue(s, q, a))
  {
  }

  lemma {:induction false} RunQueueOk(start: State, actions: seq<Action>)
    requires Initial(start) && Run(start, actions).Some? && InOrder(start, actions)
    ensures QueueOk(Run(start, actions).value, Queue(start, actions))
  {
    if actions != [] {
      var before, a := actions[..|actions| - 1], actions[|actions| - 1];
      RunQueueOk(start, before);
      NextQueueOk(Run(start, before).value, Queue(start, before), a);
    }
  }

  // ------------------------------------------------------- the commands of each list

  // The command that an action performs on a list, if any.
  function CommandOn(s: State, a: Action, key: Key): seq<Command> {
    if a.Step? && a.ok && a.h < |s.handlers| then
      var t := s.handlers[a.h];
      var e := Endpoint(t.container, s.mountebankPort);
      if Clears(t.pc, key) then [Remove(e)] else if Pushes(t.pc, key) then [Append(e)] else []
    else []
  }

  function Commands(start: State, actions: seq<Action>, key: Key): seq<Command>
    requires Run(start, actions).Some?
  {
    if actions == [] then []
    else
      var before, a := actions[..|actions| - 1], actions[|actions| - 1];
      Commands(start, before, key) + CommandOn(Run(start, before).value, a, key)
  }

  /** A list is what its commands have made of it. */
  lemma {:induction false} ListIsReplay(start: State, actions: seq<Action>, key: Key)
    requires Run(start, actions).Some?
    ensures ListOf(Run(start, actions).value, key) == Replay(ListOf(start, key), Commands(start, actions, key))
  {
    if actions != [] {
      var before, a := actions[..|actions| - 1], actions[|actions| - 1];
      ListIsReplay(start, before, key);
      ReplayStep(Run(start, before).value, a, key, ListOf(start, key), Commands(start, before, key));
    }
  }

  lemma ReplayStep(s: State, a: Action, key: Key, list: seq<string>, cs: seq<Command>)
    requires Enabled(s, a) && ListOf(s, key) == Replay(list, cs)
    ensures ListOf(Apply(s, a), key) == Replay(list, cs + CommandOn(s, a, key))
  {
    var more := CommandOn(s, a, key);
    ListByCommand(s, a, key);
    ReplayMore(list, cs, more);
  }

  lemma ListByCommand(s: State, a: Action, key: Key)
    requires Enabled(s, a)
    ensures var more := CommandOn(s, a, key);
            && |more| <= 1
            && ListOf(Apply(s, a), key) == if more == [] then ListOf(s, key) else Perform(ListOf(s, key), more[0])
  {
    ListAfter(s, a, key);
  }

  // The command on frontend:2525 that a handler has still to repeat there.
  function OwedBy(s: State, h: nat): seq<Command> {
    if h >= |s.handlers| then []
    else
      var e := Endpoint(s.handlers[h].container, s.mountebankPort);
      match s.handlers[h].pc
      case AddLremFront => [Remove(e)]
      case DropLremFront => [Remove(e)]
      case AddRpushFront => [Append(e)]
      case _ => []
  }

  function Owed(s: State, q: seq<nat>): seq<Command> {
    if q == [] then [] else OwedBy(s, q[0]) + Owed(s, q[1..])
  }

  lemma {:induction false} OwedSame(s: State, s': State, q: seq<nat>)
    requires forall i | 0 <= i < |q| :: OwedBy(s, q[i]) == OwedBy(s', q[i])
    ensures Owed(s, q) == Owed(s', q)
  {
    if q != [] { OwedSame(s, s', q[1..]); }
  }

  lemma {:induction false} OwedLast(s: State, q: seq<nat>, h: nat)
    ensures Owed(s, q + [h]) == Owed(s, q) + OwedBy(s, h)
  {
    if q == [] {
      assert q + [h] == [h] && [h][1..] == [];
    } else {
      OwedLast(s, q[1..], h);
      assert (q + [h])[1..] == q[1..] + [h];
    }
  }

  // A rejected LREM or RPUSH of frontend:2525.
  predicate Rejects(s: State, a: Action) {
    a.Step? && !a.ok && a.h < |s.handlers| && OwedBy(s, a.h) != []
  }

  // What one command takes from its handler's debt, and adds to it.
  lemma OwedByStep(s: State, a: Action)
    requires IsCommand(s, a) && Enabled(s, a)
    ensures var s' := Apply(s, a);
            var left := if Running(s'.handlers[a.h]) then OwedBy(s', a.h) else [];
            if Rejects(s, a) then left == CommandOn(s, a, Pool) == CommandOn(s, a, Front) == []
            else OwedBy(s, a.h) + CommandOn(s, a, Pool) == CommandOn(s, a, Front) + left
    ensures if CommandOn(s, a, Pool) != [] then OwedBy(s, a.h) == CommandOn(s, a, Front) == []
            else Running(Apply(s, a).handlers[a.h]) ==> OwedBy(Apply(s, a), a.h) == []
  {
  }

  lemma OthersOwe(s: State, a: Action, q: seq<nat>)
    requires Enabled(s, a) && forall i | 0 <= i < |q| :: q[i] < |s.handlers| && (a.Step? ==> q[i] != a.h)
    ensures Owed(Apply(s, a), q) == Owed(s, q)
  {
    OwedSame(s, Apply(s, a), q);
  }

  // The pool is ahead of frontend:2525 by what the queue owes.
  lemma OwedStep(s: State, q: seq<nat>, a: Action)
    requires Enabled(s, a) && QueueOk(s, q) && IsNext(s, q, a)
    ensures var owed := Owed(Apply(s, a), NextQueue(s, q, a));
            if Rejects(s, a) then |Owed(s, q)| + |CommandOn(s, a, Pool)| > |CommandOn(s, a, Front)| + |owed|
            else Owed(s, q) + CommandOn(s, a, Pool) == CommandOn(s, a, Front) + owed
  {
    if IsCommand(s, a) {
      CommandOwes(s, q, a);
    } else {
      OtherwiseOwed(s, q, a);
    }
  }

  // Starting a handler, or ending its health check, performs no command on a list.
  lemma OtherwiseOwed(s: State, q: seq<nat>, a: Action)
    requires Enabled(s, a) && QueueOk(s, q) && !IsCommand(s, a)
    ensures CommandOn(s, a, Pool) == CommandOn(s, a, Front) == [] && !Rejects(s, a)
    ensures Owed(Apply(s, a), NextQueue(s, q, a)) == Owed(s, q)
  {
    var s', h := Apply(s, a), if a.Step? then a.h else |s.handlers|;
    OthersOwe(s, a, q);
    OwedLast(s', q, h);
    assert OwedBy(s', h) == [];
    assert NextQueue(s, q, a) == q || NextQueue(s, q, a) == q + [h];
  }

  lemma CommandOwes(s: State, q: seq<nat>, a: Action)
    requires Enabled(s, a) && QueueOk(s, q) && IsNext(s, q, a) && IsCommand(s, a)
    ensures var owed := Owed(Apply(s, a), NextQueue(s, q, a));
            if Rejects(s, a) then |Owed(s, q)| + |CommandOn(s, a, Pool)| > |CommandOn(s, a, Front)| + |owed|
            else Owed(s, q) + CommandOn(s, a, Pool) == CommandOn(s, a, Front) + owed
  {
    var s', rest := Apply(s, a), q[1..];
    OwedByStep(s, a);
    OthersOwe(s, a, rest);
    OwedLast(s', rest, a.h);
    var left := if Running(s'.handlers[a.h]) then OwedBy(s', a.h) else [];
    assert Owed(s', NextQueue(s, q, a)) == Owed(s, rest) + left;
    Regroup(OwedBy(s, a.h), Owed(s, rest), CommandOn(s, a, Pool), CommandOn(s, a, Front), left);
  }

  lemma Regroup(own: seq<Command>, rest: seq<Command>, p: seq<Command>, f: seq<Command>, left: seq<Command>)
    requires p == left == [] || own == f == []
    ensures own + p == f + left ==> own + rest + p == f + (rest + left)
    ensures own != [] && left == p == f == [] ==> |own + rest + p| > |f| + |rest + left|
  {
    if p == left == [] {
      assert own + p == own && f + left == f && rest + left == rest && own + rest + p == own + rest;
    } else {
      assert own + p == p && f + left == left && own + rest == rest && f + (rest + left) == rest + left;
    }
  }

  // ------------------------------------------------------------- the same commands

  // Some LREM or RPUSH of frontend:2525 was rejected.
  predicate FrontRejected(s: State) {
    exists h :: 0 <= h < |s.handlers| && s.handlers[h].cut && OwedBy(s, h) != []
  }

  lemma RejectedStep(s: State, a: Action)
    requires Enabled(s, a)
    ensures FrontRejected(Apply(s, a)) <==> FrontRejected(s) || Rejects(s, a)
  {
    var s' := Apply(s, a);
    if FrontRejected(s) {
      var h :| 0 <= h < |s.handlers| && s.handlers[h].cut && OwedBy(s, h) != [];
      assert s'.handlers[h].cut && OwedBy(s', h) != [];
    }
    if Rejects(s, a) {
      assert s'.handlers[a.h].cut && OwedBy(s', a.h) != [];
    }
    if FrontRejected(s') && !Rejects(s, a) {
      var h :| 0 <= h < |s'.handlers| && s'.handlers[h].cut && OwedBy(s', h) != [];
      assert s.handlers[h].cut && OwedBy(s, h) != [];
    }
  }

  // frontend:2525 lags behind by what is owed, or has missed a command for good.
  ghost predicate Lags(start: State, actions: seq<Action>)
    requires Run(start, actions).Some?
  {
    var owed := Owed(Run(start, actions).value, Queue(start, actions));
    var pool, front := Commands(start, actions, Pool), Commands(start, actions, Front);
    if FrontRejected(Run(start, actions).value) then |pool| > |front| + |owed| else pool == front + owed
  }

  lemma {:induction false} RunLags(start: State, actions: seq<Action>)
    requires Initial(start) && Run(start, actions).Some? && InOrder(start, actions)
    ensures Lags(start, actions)
  {
    if actions != [] {
      var before, a := actions[..|actions| - 1], actions[|actions| - 1];
      RunLags(start, before);
      RunQueueOk(start, before);
      var s, q := Run(start, before).value, Queue(start, before);
      OwedStep(s, q, a);
      RejectedStep(s, a);
      LagsOn(Commands(start, before, Pool), Commands(start, before, Front), Owed(s, q),
             CommandOn(s, a, Pool), CommandOn(s, a, Front), Owed(Apply(s, a), NextQueue(s, q, a)));
    }
  }

  lemma LagsOn(pool: seq<Command>, front: seq<Command>, owed: seq<Command>,
               p: seq<Command>, f: seq<Command>, owed': seq<Command>)
    ensures pool == front + owed && owed + p == f + owed' ==> pool + p == front + f + owed'
    ensures |owed| + |p| == |f| + |owed'| || |owed| + |p| > |f| + |owed'| ==>
              |pool| > |front| + |owed| ==> |pool + p| > |front + f| + |owed'|
  {
    if pool == front + owed && owed + p == f + owed' {
      assert pool + p == front + (owed + p);
    }
  }

  // No command is waiting for its answer.
  predicate Idle(s: State) {
    forall h: nat | h < |s.handlers| :: !Waits(s, h)
  }

  lemma IsBusy(s: State, q: seq<nat>)
    requires QueueOk(s, q) && q != []
    ensures !Idle(s)
  {
    assert Waits(s, q[0]);
  }

  /** In every run over one connection both lists have, once nothing waits for an answer, received
      the same commands in the same order, exactly if no command on frontend:2525 was rejected;
      however the handlers overlap, and whatever else fails. */
  lemma SameCommandsIff(start: State, actions: seq<Action>)
    requires Initial(start) && Run(start, actions).Some? && InOrder(start, actions) && Idle(Run(start, actions).value)
    ensures Commands(start, actions, Pool) == Commands(start, actions, Front) <==>
            !FrontRejected(Run(start, actions).value)
  {
    RunLags(start, actions);
    RunQueueOk(start, actions);
    var s, q := Run(start, actions).value, Queue(start, actions);
    if q != [] { IsBusy(s, q); }
  }

  /** Then lists that were equal at the start are equal, and on whatever they agreed they agree. */
  lemma InOrderAgree(start: State, actions: seq<Action>)
    requires Initial(start) && Run(start, actions).Some? && InOrder(start, actions) && Idle(Run(start, actions).value)
    requires !FrontRejected(Run(start, actions).value)
    ensures var s := Run(start, actions).value;
            && (start.pool == start.front ==> s.pool == s.front)
            && forall e :: (e in start.pool <==> e in start.front) ==> (e in s.pool <==> e in s.front)
  {
    SameCommandsIff(start, actions);
    ListIsReplay(start, actions, Pool);
    ListIsReplay(start, actions, Front);
    var s, cs := Run(start, actions).value, Commands(start, actions, Pool);
    forall e | e in start.pool <==> e in start.front ensures e in s.pool <==> e in s.front {
      ReplayHolds(start.pool, cs, e);
      ReplayHolds(start.front, cs, e);
    }
  }
}
