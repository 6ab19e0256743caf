/**
 A deployment as scripts: what each of its actions does and how it ends, read off the actions
 alone. The step system of Deployer performs exactly these.
 */
module DeploymentScripts {
  import opened RedisLists
  import opened Wrappers
  import opened MountebankPool
  import opened Deployer

  // The steps that the deployment to instance `i` has taken: the DELETE and the POST of the
  // imposter, the LREM and the RPUSH of its endpoint.
  function StepsOf(actions: seq<Deployer.Action>, i: nat): nat {
    if actions == [] then 0
    else
      var a := actions[|actions| - 1];
      StepsOf(actions[..|actions| - 1], i) + (if a.Advance? && a.i == i then 1 else 0)
  }

  const SCRIPT_LENGTH: nat := 4

  // The deployment to instance `i` has failed, or come to its end.
  predicate Ended(actions: seq<Deployer.Action>, i: nat) {
    Advance(i, false) in actions || StepsOf(actions, i) == SCRIPT_LENGTH
  }

  predicate Settled(actions: seq<Deployer.Action>) {
    Settle(true) in actions || Settle(false) in actions
  }

  // The DEL comes first; once it has succeeded the deployments to the instances go on side by
  // side, until all have ended.
  predicate CanFollow(instances: nat, actions: seq<Deployer.Action>, a: Deployer.Action) {
    match a
    case Foreign(_) => true
    case Clear(_) => Clear(true) !in actions && Clear(false) !in actions
    case Advance(i, _) => Clear(true) in actions && !Settled(actions) && i < instances && !Ended(actions, i)
    case Settle(_) =>
      Clear(true) in actions && !Settled(actions) && forall i: nat | i < instances :: Ended(actions, i)
  }

  predicate Possible(instances: nat, actions: seq<Deployer.Action>) {
    actions == [] ||
    var before := actions[..|actions| - 1];
    Possible(instances, before) && CanFollow(instances, before, actions[|actions| - 1])
  }

  // The command of an action on the frontend: a LREM is third in a script, an RPUSH fourth.
  function ScriptCommand(port: string, instances: seq<Container>, actions: seq<Deployer.Action>, a: Deployer.Action):
    seq<Command>
  {
    match a
    case Foreign(command) => [command]
    case Clear(ok) => if ok then [Del] else []
    case Settle(_) => []
    case Advance(i, ok) =>
      if !ok || i >= |instances| then []
      else if StepsOf(actions, i) == 2 then [Remove(Endpoint(instances[i], port))]
      else if StepsOf(actions, i) == 3 then [Append(Endpoint(instances[i], port))]
      else []
  }

  function ScriptCommands(port: string, instances: seq<Container>, actions: seq<Deployer.Action>): seq<Command> {
    if actions == [] then []
    else
      var before := actions[..|actions| - 1];
      ScriptCommands(port, instances, before) + ScriptCommand(port, instances, before, actions[|actions| - 1])
  }

  // No deployment to an instance has failed.
  predicate AllSucceeded(actions: seq<Deployer.Action>) {
    forall k | 0 <= k < |actions| && actions[k].Advance? :: actions[k].ok
  }

  // --------------------------------------------------- the step system follows them

  predicate TaskStands(t: Task, n: nat, failed: bool) {
    && n <= SCRIPT_LENGTH && (failed ==> n > 0)
    && t == if failed then Rejected
            else match n
                 case 0 => ToClear
                 case 1 => ToPost
                 case 2 => ToLrem
                 case 3 => ToRpush
                 case _ => Deployed
  }

  predicate TaskAt(actions: seq<Deployer.Action>, s: Deployment, i: nat) {
    i < |s.tasks| && TaskStands(s.tasks[i], StepsOf(actions, i), Advance(i, false) in actions)
  }

  predicate PhaseStands(actions: seq<Deployer.Action>, phase: Phase) {
    match phase
    case Clearing => Clear(true) !in actions && Clear(false) !in actions && !Settled(actions)
    case Aborted => Clear(true) !in actions && Clear(false) in actions && !Settled(actions)
    case Deploying => Clear(true) in actions && !Settled(actions)
    case Published => Clear(true) in actions && Settled(actions)
    case Failed => Clear(true) in actions && Settled(actions)
  }

  predicate Follows(actions: seq<Deployer.Action>, s: Deployment) {
    && |s.tasks| == |s.instances| && PhaseStands(actions, s.phase)
    && forall i | 0 <= i < |s.tasks| :: TaskAt(actions, s, i)
  }

  lemma EndedIff(actions: seq<Deployer.Action>, s: Deployment, i: nat)
    requires TaskAt(actions, s, i)
    ensures Finished(s.tasks[i]) <==> Ended(actions, i)
  {
  }

  lemma EnabledIff(actions: seq<Deployer.Action>, s: Deployment, a: Deployer.Action)
    requires Follows(actions, s)
    ensures CanAct(s, a) <==> CanFollow(|s.instances|, actions, a)
  {
    forall i | 0 <= i < |s.tasks| ensures Finished(s.tasks[i]) <==> Ended(actions, i) {
      EndedIff(actions, s, i);
    }
  }

  lemma OneMore(actions: seq<Deployer.Action>, a: Deployer.Action, i: nat)
    ensures StepsOf(actions + [a], i) == StepsOf(actions, i) + (if a.Advance? && a.i == i then 1 else 0)
  {
    assert (actions + [a])[..|actions|] == actions;
  }

  lemma TaskFollows(actions: seq<Deployer.Action>, s: Deployment, a: Deployer.Action, i: nat)
    requires Follows(actions, s) && CanAct(s, a) && i < |s.tasks|
    ensures TaskAt(actions + [a], Act(s, a), i)
  {
    OneMore(actions, a, i);
    assert TaskAt(actions, s, i);
  }

  lemma PhaseFollows(actions: seq<Deployer.Action>, s: Deployment, a: Deployer.Action)
    requires Follows(actions, s) && CanAct(s, a)
    ensures PhaseStands(actions + [a], Act(s, a).phase)
  {
  }

  lemma ActFollows(actions: seq<Deployer.Action>, s: Deployment, a: Deployer.Action)
    requires Follows(actions, s) && CanAct(s, a)
    ensures Follows(actions + [a], Act(s, a)) && Act(s, a).instances == s.instances && Act(s, a).port == s.port
  {
    PhaseFollows(actions, s, a);
    forall i | 0 <= i < |s.tasks| ensures TaskAt(actions + [a], Act(s, a), i) {
      TaskFollows(actions, s, a, i);
    }
  }

  /** A sequence of actions is a run of a deployment exactly when the DEL comes first, every
      instance gets its script, none goes on after a failure, and it settles when all have ended. */
  lemma {:induction false} PlayIff(port: string, instances: seq<Container>, before: seq<string>,
                                   actions: seq<Deployer.Action>)
    ensures Play(Begin(port, instances, before), actions).Some? <==> Possible(|instances|, actions)
    ensures Play(Begin(port, instances, before), actions).Some? ==>
              var s := Play(Begin(port, instances, before), actions).value;
              Follows(actions, s) && s.instances == instances && s.port == port
  {
    if actions != [] {
      var rest, a := actions[..|actions| - 1], actions[|actions| - 1];
      PlayIff(port, instances, before, rest);
      assert rest + [a] == actions;
      if Play(Begin(port, instances, before), rest).Some? {
        var s := Play(Begin(port, instances, before), rest).value;
        EnabledIff(rest, s, a);
        if CanAct(s, a) { ActFollows(rest, s, a); }
      }
    }
  }

  lemma CommandFollows(actions: seq<Deployer.Action>, s: Deployment, a: Deployer.Action)
    requires Follows(actions, s) && CanAct(s, a)
    ensures var cs := ScriptCommand(s.port, s.instances, actions, a);
            |cs| <= 1 && Act(s, a).list == if cs == [] then s.list else Perform(s.list, cs[0])
  {
    if a.Advance? { assert TaskAt(actions, s, a.i); }
  }

  /** In every run the frontend is what the DEL, the scripts and the other writers make of it. */
  lemma {:induction false} ListFollowsScripts(port: string, instances: seq<Container>, before: seq<string>,
                                              actions: seq<Deployer.Action>)
    requires Play(Begin(port, instances, before), actions).Some?
    ensures Play(Begin(port, instances, before), actions).value.list ==
            Replay(before, ScriptCommands(port, instances, actions))
  {
    if actions != [] {
      var rest, a := actions[..|actions| - 1], actions[|actions| - 1];
      ListFollowsScripts(port, instances, before, rest);
      PlayIff(port, instances, before, rest);
      CommandFollows(rest, Play(Begin(port, instances, before), rest).value, a);
      ReplayMore(before, ScriptCommands(port, instances, rest), ScriptCommand(port, instances, rest, a));
    }
  }

  // ---------------------------------------------------------------------- the publish

  lemma {:induction false} AdvancesWithin(instances: nat, actions: seq<Deployer.Action>, k: nat)
    requires Possible(instances, actions) && k < |actions| && actions[k].Advance?
    ensures actions[k].i < instances
  {
    if k < |actions| - 1 { AdvancesWithin(instances, actions[..|actions| - 1], k); }
  }

  lemma NoneRejectedIff(actions: seq<Deployer.Action>, s: Deployment)
    requires Follows(actions, s) && Possible(|s.instances|, actions)
    ensures (forall i | 0 <= i < |s.tasks| :: s.tasks[i] != Rejected) <==> AllSucceeded(actions)
  {
    if forall i | 0 <= i < |s.tasks| :: s.tasks[i] != Rejected {
      forall k | 0 <= k < |actions| && actions[k].Advance? ensures actions[k].ok {
        AdvancesWithin(|s.instances|, actions, k);
        assert TaskAt(actions, s, actions[k].i);
        assert actions[k] in actions;
      }
    } else {
      var i :| 0 <= i < |s.tasks| && s.tasks[i] == Rejected;
      assert TaskAt(actions, s, i);
    }
  }

  /** A deployment whose tasks have all ended is published exactly when none of them failed and
      the PUBLISH was accepted. */
  lemma PublishedWhen(port: string, instances: seq<Container>, before: seq<string>,
                      actions: seq<Deployer.Action>, ok: bool)
    requires Play(Begin(port, instances, before), actions + [Settle(ok)]).Some?
    ensures var phase := Play(Begin(port, instances, before), actions + [Settle(ok)]).value.phase;
            && (phase == Published || phase == Failed)
            && (phase == Published <==> ok && AllSucceeded(actions))
  {
    assert (actions + [Settle(ok)])[..|actions|] == actions;
    PlayIff(port, instances, before, actions);
    NoneRejectedIff(actions, Play(Begin(port, instances, before), actions).value);
  }
}
