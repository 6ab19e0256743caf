/**
 The registry handlers as scripts: what the n-th step of a handler does, read off the actions
 of a run alone. The step system of MountebankPool performs exactly these scripts.
 */
module HandlerScripts {
  import opened RedisLists
  import opened Wrappers
  import opened MountebankPool

  // The start of a handler: an add, or else a drop.
  datatype Start = Start(container: Container, adds: bool)

  function StartOf(a: Action): seq<Start> {
    match a
    case SpawnAdd(c) => [Start(c, true)]
    case SpawnDrop(c) => [Start(c, false)]
    case Step(_, _) => []
  }

  // The starts in a run, in order: handler `h` is that of the h-th.
  function Spawned(actions: seq<Action>): seq<Start> {
    if actions == [] then [] else Spawned(actions[..|actions| - 1]) + StartOf(actions[|actions| - 1])
  }

  // The steps that handler `h` has taken.
  function StepsOf(actions: seq<Action>, h: nat): nat {
    if actions == [] then 0
    else
      var a := actions[|actions| - 1];
      StepsOf(actions[..|actions| - 1], h) + (if a.Step? && a.h == h then 1 else 0)
  }

  // A step of a handler: the health check, a command on a list, or the PUBLISH.
  datatype Deed = HealthCheck | OnList(key: Key, push: bool) | Announce

  function Script(adds: bool): seq<Deed> {
    if adds then
      [HealthCheck, OnList(Pool, false), OnList(Front, false), OnList(Pool, true), OnList(Front, true), Announce]
    else
      [OnList(Pool, false), OnList(Front, false)]
  }

  // A handler takes a step while it has been started, none has failed, and its script goes on.
  predicate CanFollow(actions: seq<Action>, a: Action) {
    a.Step? ==>
      && a.h < |Spawned(actions)| && Step(a.h, false) !in actions
      && StepsOf(actions, a.h) < |Script(Spawned(actions)[a.h].adds)|
  }

  predicate Possible(actions: seq<Action>) {
    actions == [] ||
    var before := actions[..|actions| - 1];
    Possible(before) && CanFollow(before, actions[|actions| - 1])
  }

  // The command that an action performs on a list: that of its place in the script.
  function ScriptCommand(actions: seq<Action>, a: Action, key: Key, mountebankPort: string): seq<Command> {
    if a.Step? && a.ok && CanFollow(actions, a) then
      var start := Spawned(actions)[a.h];
      var deed := Script(start.adds)[StepsOf(actions, a.h)];
      if deed.OnList? && deed.key == key then
        var e := Endpoint(start.container, mountebankPort);
        [if deed.push then Append(e) else Remove(e)]
      else []
    else []
  }

  function ScriptCommands(actions: seq<Action>, key: Key, mountebankPort: string): seq<Command> {
    if actions == [] then []
    else
      var before := actions[..|actions| - 1];
      ScriptCommands(before, key, mountebankPort) + ScriptCommand(before, actions[|actions| - 1], key, mountebankPort)
  }

  // ------------------------------------------------------ the step system follows them

  function PcAt(adds: bool, n: nat): Pc {
    if adds then
      match n
      case 0 => AddCheck
      case 1 => AddLremPool
      case 2 => AddLremFront
      case 3 => AddRpushPool
      case 4 => AddRpushFront
      case 5 => AddPublish
      case _ => Added
    else
      match n
      case 0 => DropLremPool
      case 1 => DropLremFront
      case _ => Dropped
  }

  // The handler that a script stands for after `n` steps, of which the last may have failed.
  predicate Stands(t: Handler, start: Start, n: nat, failed: bool) {
    && t.container == start.container && t.cut == failed
    && n <= |Script(start.adds)| && (failed ==> n > 0)
    && t.pc == PcAt(start.adds, if failed then n - 1 else n)
  }

  predicate StandsAt(actions: seq<Action>, s: State, h: nat) {
    h < |s.handlers| && h < |Spawned(actions)| &&
    Stands(s.handlers[h], Spawned(actions)[h], StepsOf(actions, h), Step(h, false) in actions)
  }

  ghost predicate Follows(actions: seq<Action>, s: State) {
    && |s.handlers| == |Spawned(actions)|
    && (forall h | 0 <= h < |s.handlers| ::
          StandsAt(actions, s, h))
    && (forall h: nat | h >= |s.handlers| :: StepsOf(actions, h) == 0 && Step(h, false) !in actions)
  }

  lemma EnabledIff(actions: seq<Action>, s: State, a: Action)
    requires Follows(actions, s)
    ensures Enabled(s, a) <==> CanFollow(actions, a)
  {
    if a.Step? && a.h < |s.handlers| {
      assert StandsAt(actions, s, a.h);
    }
  }

  // What one more action adds to the record.
  lemma OneMore(actions: seq<Action>, a: Action, h: nat)
    ensures var longer := actions + [a];
            && Spawned(longer) == Spawned(actions) + StartOf(a)
            && StepsOf(longer, h) == StepsOf(actions, h) + (if a.Step? && a.h == h then 1 else 0)
            && (Step(h, false) in longer <==> Step(h, false) in actions || a == Step(h, false))
  {
    assert (actions + [a])[..|actions|] == actions;
  }

  // A step takes its handler one place on, unless it fails.
  lemma StepStands(s: State, a: Action, start: Start, n: nat)
    requires a.Step? && Enabled(s, a) && Stands(s.handlers[a.h], start, n, false)
    ensures Stands(Apply(s, a).handlers[a.h], start, n + 1, !a.ok)
  {
  }

  lemma OldHandlerFollows(actions: seq<Action>, s: State, a: Action, h: nat)
    requires StandsAt(actions, s, h) && Enabled(s, a)
    ensures StandsAt(actions + [a], Apply(s, a), h)
  {
    OneMore(actions, a, h);
    if a.Step? && a.h == h {
      StepStands(s, a, Spawned(actions)[h], StepsOf(actions, h));
    } else {
      assert Apply(s, a).handlers[h] == s.handlers[h];
    }
  }

  lemma HandlerFollows(actions: seq<Action>, s: State, a: Action, h: nat)
    requires Follows(actions, s) && Enabled(s, a) && h < |Apply(s, a).handlers|
    ensures StandsAt(actions + [a], Apply(s, a), h)
  {
    if h < |s.handlers| {
      assert StandsAt(actions, s, h);
      OldHandlerFollows(actions, s, a, h);
    } else {
      OneMore(actions, a, h);
    }
  }

  lemma StepFollows(actions: seq<Action>, s: State, a: Action)
    requires Follows(actions, s) && Enabled(s, a)
    ensures Follows(actions + [a], Apply(s, a))
  {
    OneMore(actions, a, 0);
    forall h | 0 <= h < |Apply(s, a).handlers|
      ensures StandsAt(actions + [a], Apply(s, a), h)
    {
      HandlerFollows(actions, s, a, h);
    }
    forall h: nat | h >= |Apply(s, a).handlers|
      ensures StepsOf(actions + [a], h) == 0 && Step(h, false) !in actions + [a]
    {
      OneMore(actions, a, h);
    }
  }

  /** A sequence of actions is a run exactly when every handler takes its steps after its start,
      none after one that failed, and no more than its script has. */
  lemma {:induction false} RunIff(start: State, actions: seq<Action>)
    requires Initial(start)
    ensures Run(start, actions).Some? <==> Possible(actions)
    ensures Run(start, actions).Some? ==> Follows(actions, Run(start, actions).value)
  {
    if actions != [] {
      var before, a := actions[..|actions| - 1], actions[|actions| - 1];
      RunIff(start, before);
      assert before + [a] == actions;
      if Run(start, before).Some? {
        EnabledIff(before, Run(start, before).value, a);
        if Run(start, actions).Some? { StepFollows(before, Run(start, before).value, a); }
      }
    }
  }

  lemma CommandFollows(actions: seq<Action>, s: State, a: Action, key: Key)
    requires Follows(actions, s) && Enabled(s, a)
    ensures var cs := ScriptCommand(actions, a, key, s.mountebankPort);
            && |cs| <= 1
            && ListOf(Apply(s, a), key) == if cs == [] then ListOf(s, key) else Perform(ListOf(s, key), cs[0])
  {
    ListAfter(s, a, key);
    if a.Step? {
      assert StandsAt(actions, s, a.h);
    }
  }

  /** In every run a list is what the scripts of the handlers, step by step, make of it. */
  lemma {:induction false} ListsFollowScripts(start: State, actions: seq<Action>, key: Key)
    requires Initial(start) && Run(start, actions).Some?
    ensures Run(start, actions).value.mountebankPort == start.mountebankPort
    ensures ListOf(Run(start, actions).value, key) ==
            Replay(ListOf(start, key), ScriptCommands(actions, key, start.mountebankPort))
  {
    if actions != [] {
      var before, a := actions[..|actions| - 1], actions[|actions| - 1];
      ListsFollowScripts(start, before, key);
      RunIff(start, before);
      var s, cs := Run(start, before).value, ScriptCommands(before, key, start.mountebankPort);
      CommandFollows(before, s, a, key);
      ListAfter(s, a, key);
      ReplayMore(ListOf(start, key), cs, ScriptCommand(before, a, key, s.mountebankPort));
    }
  }

  /** After a failed step a handler takes no other. */
  lemma {:induction false} NothingAfterFailure(start: State, actions: seq<Action>, i: nat, j: nat)
    requires Initial(start) && Run(start, actions).Some? && i < j < |actions|
    requires actions[i].Step? && !actions[i].ok
    ensures actions[j].Step? ==> actions[j].h != actions[i].h
  {
    RunIff(start, actions);
    if j == |actions| - 1 {
      assert actions[..j][i] == actions[i];
    } else {
      NothingAfterFailure(start, actions[..|actions| - 1], i, j);
    }
  }

  // ------------------------------------------------------------------ health checks

  // Handler `h` is a drop, or an add whose health check succeeded.
  predicate Goes(actions: seq<Action>, h: nat)
    requires h < |Spawned(actions)|
  {
    Spawned(actions)[h].adds ==> Step(h, true) in actions
  }

  // Its script has been performed to the end.
  predicate Complete(actions: seq<Action>, h: nat)
    requires h < |Spawned(actions)|
  {
    StepsOf(actions, h) == |Script(Spawned(actions)[h].adds)| && Step(h, false) !in actions
  }

  // Without a successful step a handler has taken none, or one that failed.
  lemma {:induction false} StepsSucceed(actions: seq<Action>, h: nat)
    requires Possible(actions)
    ensures StepsOf(actions, h) >= 1 && Step(h, false) !in actions ==> Step(h, true) in actions
    ensures StepsOf(actions, h) >= 2 ==> Step(h, true) in actions
    ensures Step(h, true) in actions ==>
              StepsOf(actions, h) >= 1 && (Step(h, false) in actions ==> StepsOf(actions, h) >= 2)
  {
    if actions != [] {
      var n := |actions| - 1;
      StepsSucceed(actions[..n], h);
      assert actions == actions[..n] + [actions[n]];
    }
  }

  /** A failed health check leaves both lists as they are: on a container that only has adds
      whose checks have not succeeded, they are as at the start. */
  lemma UncheckedChangesNothing(start: State, actions: seq<Action>, c: Container, key: Key)
    requires Initial(start) && Run(start, actions).Some?
    requires forall h | 0 <= h < |Spawned(actions)| && Spawned(actions)[h].container == c :: !Goes(actions, h)
    ensures var e := Endpoint(c, start.mountebankPort);
            e in ListOf(Run(start, actions).value, key) <==> e in ListOf(start, key)
  {
    RunIff(start, actions);
    HeldIff(start, actions, c, key);
    var s := Run(start, actions).value;
    forall h | 0 <= h < |s.handlers| && s.handlers[h].container == c ensures s.handlers[h].pc == AddCheck {
      assert StandsAt(actions, s, h);
      assert !Goes(actions, h);
      StepsSucceed(actions, h);
    }
    OnlyChecked(start, actions, c, key);
  }

  // A list has only been touched for a container by a handler that is past its health check.
  predicate Unchecked(s: State, c: Container) {
    forall h | 0 <= h < |s.handlers| && s.handlers[h].container == c :: s.handlers[h].pc == AddCheck
  }

  lemma UncheckedBefore(s: State, a: Action, c: Container)
    requires Enabled(s, a) && Unchecked(Apply(s, a), c)
    ensures Unchecked(s, c)
    ensures Performs(s, a, c) ==> s.handlers[a.h].pc == AddCheck
  {
    var s' := Apply(s, a);
    forall h | 0 <= h < |s.handlers| && s.handlers[h].container == c ensures s.handlers[h].pc == AddCheck {
      assert s'.handlers[h].container == c;
    }
  }

  // A list has only been touched for a container by a handler that is past its health check.
  lemma {:induction false} OnlyChecked(start: State, actions: seq<Action>, c: Container, key: Key)
    requires Run(start, actions).Some? && Unchecked(Run(start, actions).value, c)
    ensures LastOn(start, actions, c, key).Untouched?
  {
    if actions != [] {
      var before, a := actions[..|actions| - 1], actions[|actions| - 1];
      UncheckedBefore(Run(start, before).value, a, c);
      OnlyChecked(start, before, c, key);
    }
  }

  /** When the last handler of a container whose health check succeeded has performed its script
      to the end, both lists hold the container if it was an add, and neither if it was a drop. */
  lemma LastHandlerDecides(start: State, actions: seq<Action>, h: nat)
    requires Initial(start) && Run(start, actions).Some? && Serialised(start, actions)
    requires h < |Spawned(actions)| && Complete(actions, h)
    requires forall k | h < k < |Spawned(actions)| && Spawned(actions)[k].container == Spawned(actions)[h].container ::
               !Goes(actions, k)
    ensures var spawn := Spawned(actions)[h];
            Member(Run(start, actions).value, spawn.container) == Membership(spawn.adds, spawn.adds)
  {
    RunIff(start, actions);
    var s := Run(start, actions).value;
    assert StandsAt(actions, s, h);
    forall k | h < k < |s.handlers| && s.handlers[k].container == s.handlers[h].container
      ensures s.handlers[k].pc == AddCheck
    {
      assert StandsAt(actions, s, k);
      assert !Goes(actions, k);
      StepsSucceed(actions, k);
    }
    LastEndedDecides(start, actions, h);
  }
}
