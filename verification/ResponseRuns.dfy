/**
 What becomes of a request to the response cache, read off the actions of a run alone: when it
 is a hit, what it is answered, and after what delay.
 */
module ResponseRuns {
  import opened Wrappers
  import opened Decimal
  import opened ResponseCache

  function Now(actions: seq<Action>): int {
    if actions == [] then 0
    else
      var a := actions[|actions| - 1];
      Now(actions[..|actions| - 1]) + (if a.Tick? then a.d else 0)
  }

  // Whether caching is on, and the delay of the cluster: as last configured.
  function Caching(actions: seq<Action>): bool {
    actions != [] &&
    var a := actions[|actions| - 1];
    if a.Configure? then a.enabled else Caching(actions[..|actions| - 1])
  }

  function ClusterDelay(actions: seq<Action>): int {
    if actions == [] then -1
    else
      var a := actions[|actions| - 1];
      if a.Configure? then a.delay else ClusterDelay(actions[..|actions| - 1])
  }

  // The server was started and has not been shut down since.
  predicate Serving(actions: seq<Action>) {
    actions != [] &&
    var a := actions[|actions| - 1];
    if a.StartServer? then true else !a.Shutdown? && Serving(actions[..|actions| - 1])
  }

  // The lifetimes of the caches, one for each start of the server.
  function Servers(actions: seq<Action>): seq<int> {
    if actions == [] then []
    else
      var a := actions[|actions| - 1];
      Servers(actions[..|actions| - 1]) + (if a.StartServer? then [a.ttl] else [])
  }

  // A request: the server it has come to, and the delay of the cluster at that moment.
  datatype Arrival = Arrival(server: int, delay: int)

  function Arrivals(actions: seq<Action>): seq<Arrival> {
    if actions == [] then []
    else
      var before, a := actions[..|actions| - 1], actions[|actions| - 1];
      Arrivals(before) + (if a.Arrive? then [Arrival(|Servers(before)| - 1, ClusterDelay(before))] else [])
  }

  // The hash under which request `r` was looked up; "" if the cache was off or the body was
  // not readable; None before.
  function HashOf(actions: seq<Action>, r: nat): Option<Hash> {
    if actions == [] then None
    else
      var before, a := actions[..|actions| - 1], actions[|actions| - 1];
      if a.LookUp? && a.r == r then Some(if Caching(before) && a.hash.Some? then a.hash.value else "")
      else HashOf(before, r)
  }

  // What the backend answered to request `r`.
  function AnswerOf(actions: seq<Action>, r: nat): Option<Response> {
    if actions == [] then None
    else
      var a := actions[|actions| - 1];
      if a.Complete? && a.r == r then Some(a.response) else AnswerOf(actions[..|actions| - 1], r)
  }

  // A store: when, the answer of the backend, and its delay.
  datatype Stored = Stored(at: int, answer: Response, delay: int)

  // What a Store of request `r` under this hash in the cache of this server would store.
  function StoreOf(actions: seq<Action>, r: nat, server: int, hash: Hash): Option<Stored> {
    if Caching(actions) && r < |Arrivals(actions)| && Arrivals(actions)[r].server == server
       && HashOf(actions, r) == Some(hash) && AnswerOf(actions, r).Some?
    then
      var answer := AnswerOf(actions, r).value;
      Some(Stored(Now(actions), answer, DelayOf(answer.header, Arrivals(actions)[r].delay)))
    else None
  }

  // The last readable Store under a hash in the cache of a server, with caching on.
  function LastStore(actions: seq<Action>, server: int, hash: Hash): Option<Stored> {
    if actions == [] then None
    else
      var before, a := actions[..|actions| - 1], actions[|actions| - 1];
      if a.Store? && a.readable && StoreOf(before, a.r, server, hash).Some?
      then StoreOf(before, a.r, server, hash)
      else LastStore(before, server, hash)
  }

  // It was no longer ago than the lifetime of the cache, if that is limited.
  predicate Fresh(actions: seq<Action>, server: int, hash: Hash) {
    && 0 <= server < |Servers(actions)| && LastStore(actions, server, hash).Some?
    && var ttl := Servers(actions)[server];
       ttl <= 0 || Now(actions) <= LastStore(actions, server, hash).value.at + ttl
  }

  // -------------------------------------------------------- the step system follows

  predicate RequestFollows(actions: seq<Action>, s: State, r: nat) {
    && r < |s.requests| && r < |Arrivals(actions)|
    && var q, hash, answer := s.requests[r], HashOf(actions, r), AnswerOf(actions, r);
       && Arrival(q.incarnation, q.delay) == Arrivals(actions)[r] && q.incarnation < |s.incarnations|
       && match q.pc
          case Arrived => hash == None && answer == None
          case Forwarded(h) => hash == Some(h) && answer == None
          case Completed(h, response, delay) =>
            && hash == Some(h) && answer.Some? && delay == DelayOf(answer.value.header, q.delay)
            && response == Marked(answer.value, delay)
          case Replied(_, _, _) => hash.Some?
  }

  ghost predicate CacheFollows(actions: seq<Action>, s: State, i: nat, h: Hash)
    requires i < |s.incarnations|
  {
    var cache, last := s.incarnations[i].cache, LastStore(actions, i, h);
    && (h in cache <==> last.Some?)
    && (last.Some? ==> cache[h] == EntryOf(last.value))
  }

  function EntryOf(stored: Stored): Entry {
    Entry(Marked(stored.answer, stored.delay), stored.delay, stored.at)
  }

  ghost predicate Follows(actions: seq<Action>, s: State) {
    && s.now == Now(actions) && s.enabled == Caching(actions) && s.delay == ClusterDelay(actions)
    && s.serving == Serving(actions) && (s.serving ==> s.incarnations != [])
    && |s.incarnations| == |Servers(actions)| && |s.requests| == |Arrivals(actions)|
    && (forall i | 0 <= i < |s.incarnations| :: s.incarnations[i].ttl == Servers(actions)[i])
    && (forall i: nat, h: Hash | i < |s.incarnations| :: CacheFollows(actions, s, i, h))
    && (forall i: nat, h: Hash | i >= |s.incarnations| :: LastStore(actions, i, h) == None)
    && (forall r: nat | r < |s.requests| :: RequestFollows(actions, s, r))
    && (forall r: nat | r >= |s.requests| :: HashOf(actions, r) == None && AnswerOf(actions, r) == None)
  }

  lemma OneMore(actions: seq<Action>, a: Action)
    ensures var longer := actions + [a];
            && Now(longer) == Now(actions) + (if a.Tick? then a.d else 0)
            && Caching(longer) == (if a.Configure? then a.enabled else Caching(actions))
            && ClusterDelay(longer) == (if a.Configure? then a.delay else ClusterDelay(actions))
            && Serving(longer) == (a.StartServer? || (!a.Shutdown? && Serving(actions)))
            && Servers(longer) == Servers(actions) + (if a.StartServer? then [a.ttl] else [])
            && Arrivals(longer) == Arrivals(actions) +
                 (if a.Arrive? then [Arrival(|Servers(actions)| - 1, ClusterDelay(actions))] else [])
  {
    assert (actions + [a])[..|actions|] == actions;
  }

  lemma OneMoreRequest(actions: seq<Action>, a: Action, r: nat)
    ensures var longer := actions + [a];
            && HashOf(longer, r) ==
               (if a.LookUp? && a.r == r then Some(if Caching(actions) && a.hash.Some? then a.hash.value else "")
                else HashOf(actions, r))
            && AnswerOf(longer, r) ==
               if a.Complete? && a.r == r then Some(a.response) else AnswerOf(actions, r)
  {
    assert (actions + [a])[..|actions|] == actions;
  }

  lemma OneMoreStore(actions: seq<Action>, a: Action, i: int, h: Hash)
    ensures LastStore(actions + [a], i, h) ==
            if a.Store? && a.readable && StoreOf(actions, a.r, i, h).Some? then StoreOf(actions, a.r, i, h)
            else LastStore(actions, i, h)
  {
    assert (actions + [a])[..|actions|] == actions;
  }

  // The request that an action moves on.
  predicate Moves(a: Action, r: nat) {
    (a.LookUp? || a.Complete? || a.Store?) && a.r == r
  }

  lemma MovedFollows(actions: seq<Action>, s: State, a: Action, r: nat)
    requires RequestFollows(actions, s, r) && Enabled(s, a) && Moves(a, r) && s.enabled == Caching(actions)
    ensures RequestFollows(actions + [a], Apply(s, a), r)
  {
    OneMore(actions, a);
    OneMoreRequest(actions, a, r);
  }

  lemma StayingFollows(actions: seq<Action>, s: State, a: Action, r: nat)
    requires RequestFollows(actions, s, r) && Enabled(s, a) && !Moves(a, r)
    ensures RequestFollows(actions + [a], Apply(s, a), r)
  {
    OneMore(actions, a);
    OneMoreRequest(actions, a, r);
    assert Apply(s, a).requests[r] == s.requests[r];
  }

  lemma RequestsFollow(actions: seq<Action>, s: State, a: Action, r: nat)
    requires Follows(actions, s) && Enabled(s, a) && r < |Apply(s, a).requests|
    ensures RequestFollows(actions + [a], Apply(s, a), r)
  {
    if r >= |s.requests| {
      OneMore(actions, a);
      OneMoreRequest(actions, a, r);
    } else if Moves(a, r) {
      assert RequestFollows(actions, s, r);
      MovedFollows(actions, s, a, r);
    } else {
      assert RequestFollows(actions, s, r);
      StayingFollows(actions, s, a, r);
    }
  }

  lemma StoreFollows(actions: seq<Action>, s: State, r: nat, readable: bool, i: nat, h: Hash)
    requires Follows(actions, s) && Enabled(s, Store(r, readable)) && i < |s.incarnations|
    ensures CacheFollows(actions + [Store(r, readable)], Apply(s, Store(r, readable)), i, h)
  {
    OneMoreStore(actions, Store(r, readable), i, h);
    assert RequestFollows(actions, s, r) && CacheFollows(actions, s, i, h);
  }

  lemma CachesFollow(actions: seq<Action>, s: State, a: Action, i: nat, h: Hash)
    requires Follows(actions, s) && Enabled(s, a) && i < |Apply(s, a).incarnations|
    ensures CacheFollows(actions + [a], Apply(s, a), i, h)
  {
    if a.Store? {
      StoreFollows(actions, s, a.r, a.readable, i, h);
    } else {
      OneMoreStore(actions, a, i, h);
      if i < |s.incarnations| {
        assert CacheFollows(actions, s, i, h) && Apply(s, a).incarnations[i] == s.incarnations[i];
      }
    }
  }

  lemma NoneYet(actions: seq<Action>, s: State, a: Action, i: nat, h: Hash)
    requires Follows(actions, s) && Enabled(s, a) && i >= |Apply(s, a).incarnations|
    ensures LastStore(actions + [a], i, h) == None
  {
    OneMoreStore(actions, a, i, h);
    assert |s.incarnations| <= |Apply(s, a).incarnations|;
    if a.Store? { assert RequestFollows(actions, s, a.r); }
  }

  lemma SettingsFollow(actions: seq<Action>, s: State, a: Action)
    requires Follows(actions, s) && Enabled(s, a)
    ensures var s' := Apply(s, a);
            && s'.now == Now(actions + [a]) && s'.enabled == Caching(actions + [a])
            && s'.delay == ClusterDelay(actions + [a])
            && s'.serving == Serving(actions + [a]) && (s'.serving ==> s'.incarnations != [])
            && |s'.incarnations| == |Servers(actions + [a])| && |s'.requests| == |Arrivals(actions + [a])|
            && forall i | 0 <= i < |s'.incarnations| :: s'.incarnations[i].ttl == Servers(actions + [a])[i]
  {
    OneMore(actions, a);
  }

  lemma ActionFollows(actions: seq<Action>, s: State, a: Action)
    requires Follows(actions, s) && Enabled(s, a)
    ensures Follows(actions + [a], Apply(s, a))
  {
    var s' := Apply(s, a);
    SettingsFollow(actions, s, a);
    forall i: nat, h: Hash | i < |s'.incarnations| ensures CacheFollows(actions + [a], s', i, h) {
      CachesFollow(actions, s, a, i, h);
    }
    forall i: nat, h: Hash | i >= |s'.incarnations| ensures LastStore(actions + [a], i, h) == None {
      NoneYet(actions, s, a, i, h);
    }
    forall r: nat | r < |s'.requests| ensures RequestFollows(actions + [a], s', r) {
      RequestsFollow(actions, s, a, r);
    }
    forall r: nat | r >= |s'.requests|
      ensures HashOf(actions + [a], r) == None && AnswerOf(actions + [a], r) == None
    {
      OneMoreRequest(actions, a, r);
    }
  }

  lemma {:induction false} RunFollows(actions: seq<Action>)
    requires Run(actions).Some?
    ensures Follows(actions, Run(actions).value)
  {
    if actions != [] {
      var before, a := actions[..|actions| - 1], actions[|actions| - 1];
      RunFollows(before);
      assert before + [a] == actions;
      ActionFollows(before, Run(before).value, a);
    }
  }

  // --------------------------------------------------------------------- the laws

  // The state of a request after a run.
  function PcOf(actions: seq<Action>, r: nat): Option<Pc> {
    match Run(actions)
    case None => None
    case Some(s) => if r < |s.requests| then Some(s.requests[r].pc) else None
  }

  /** A request is a hit exactly when caching is on and the last readable Store under its hash in
      the cache of its own server, made with caching on, is no older than the lifetime; the reply
      replays the exchange of that Store. Otherwise the request goes to a backend. */
  lemma HitIff(actions: seq<Action>, r: nat, hash: Option<Hash>)
    requires Run(actions + [LookUp(r, hash)]).Some?
    ensures r < |Arrivals(actions)|
    ensures var server, pc := Arrivals(actions)[r].server, PcOf(actions + [LookUp(r, hash)], r);
            if Caching(actions) && hash.Some? && Fresh(actions, server, hash.value)
            then
              var last := LastStore(actions, server, hash.value).value;
              && pc.Some? && Replays(Exchange(server, hash.value, last.answer, last.delay, last.at), pc.value)
              && (last.delay <= 0 ==> pc.value.delay == Arrivals(actions)[r].delay)
            else pc == Some(Forwarded(if Caching(actions) && hash.Some? then hash.value else ""))
  {
    assert (actions + [LookUp(r, hash)])[..|actions|] == actions;
    RunFollows(actions);
    var s := Run(actions).value;
    assert RequestFollows(actions, s, r);
    if hash.Some? {
      var i := s.requests[r].incarnation;
      assert CacheFollows(actions, s, i, hash.value);
      if Fresh(actions, i, hash.value) {
        var last := LastStore(actions, i, hash.value).value;
        ReplayReplays(Exchange(i, hash.value, last.answer, last.delay, last.at), i, hash.value,
                      EntryOf(last), s.requests[r].delay);
      }
    }
  }

  /** A request that is no hit is replied to with what the backend answered to it, marked with
      its delay. */
  lemma MissPassesOn(actions: seq<Action>, r: nat, readable: bool)
    requires Run(actions + [Store(r, readable)]).Some?
    ensures r < |Arrivals(actions)| && AnswerOf(actions, r).Some?
    ensures var answer := AnswerOf(actions, r).value;
            var delay := DelayOf(answer.header, Arrivals(actions)[r].delay);
            var pc := PcOf(actions + [Store(r, readable)], r);
            && pc.Some? && pc.value.Replied? && !pc.value.hit && pc.value.delay == delay
            && pc.value.response.status == answer.status && pc.value.response.body == answer.body
            && pc.value.response.trailer == answer.trailer
            && pc.value.response.header == answer.header["X-Dlb-Delay" := [PrintInt(delay)]]
  {
    assert (actions + [Store(r, readable)])[..|actions|] == actions;
    RunFollows(actions);
    assert RequestFollows(actions, Run(actions).value, r);
  }

  /** A number that the backend gives first in X-Sv-Delay is the delay of the response; without
      such a header, or with one that is no number, it is that of the cluster. */
  lemma DelayIs(header: Header, delay: int)
    ensures "X-Sv-Delay" !in header || header["X-Sv-Delay"] == [] ==> DelayOf(header, delay) == delay
    ensures "X-Sv-Delay" in header && header["X-Sv-Delay"] != [] ==>
              var v := header["X-Sv-Delay"][0];
              && (IsNumeral(v) && Value(v) <= MAX_INT64 ==> DelayOf(header, delay) == Value(v))
              && (Atoi(v) == None ==> DelayOf(header, delay) == delay)
  {
    if "X-Sv-Delay" in header && header["X-Sv-Delay"] != [] {
      var v := header["X-Sv-Delay"][0];
      if IsNumeral(v) { assert IsDigit(v[0]); }
    }
  }

  /** What can happen next: a server is started when none is serving, and requests arrive while
      one is; a request is looked up once, then answered by a backend if it was no
      hit, then replied to. */
  lemma NextIff(actions: seq<Action>, a: Action)
    requires Run(actions).Some?
    ensures a.Tick? || a.Configure? ==> Run(actions + [a]).Some?
    ensures a.StartServer? ==> (Run(actions + [a]).Some? <==> !Serving(actions))
    ensures a.Arrive? || a == Shutdown(false) ==> (Run(actions + [a]).Some? <==> Serving(actions))
    ensures a.LookUp? && a.hash != Some("") ==>
              (Run(actions + [a]).Some? <==> a.r < |Arrivals(actions)| && HashOf(actions, a.r) == None)
    ensures a.Complete? ==>
              (Run(actions + [a]).Some? <==> PcOf(actions, a.r).Some? && PcOf(actions, a.r).value.Forwarded?)
    ensures a.Store? ==>
              (Run(actions + [a]).Some? <==> PcOf(actions, a.r).Some? && PcOf(actions, a.r).value.Completed?)
  {
    assert (actions + [a])[..|actions|] == actions;
    RunFollows(actions);
    var s := Run(actions).value;
    if (a.LookUp? || a.Complete? || a.Store?) && a.r < |s.requests| {
      assert RequestFollows(actions, s, a.r);
    }
  }

  // ------------------------------------------------------------- served after an update

  // A request that has not looked in the cache yet, and a hash it would find there.
  predicate YetToHit(actions: seq<Action>, r: nat, h: Hash) {
    && r < |Arrivals(actions)| && HashOf(actions, r) == None && h != ""
    && Fresh(actions, Arrivals(actions)[r].server, h)
  }

  lemma OverdueIff(actions: seq<Action>, r: nat, h: Hash)
    requires Run(actions).Some?
    ensures Overdue(Run(actions).value, r, h) <==> YetToHit(actions, r, h)
  {
    RunFollows(actions);
    var s := Run(actions).value;
    if r < |s.requests| {
      assert RequestFollows(actions, s, r);
      if s.requests[r].incarnation >= 0 { assert CacheFollows(actions, s, s.requests[r].incarnation, h); }
    }
  }

  /** Entries from before an update can be served after it exactly when, at the restart, some
      request has yet to look in the cache of its server, and would hit there. */
  lemma OldServedWhen(before: seq<Action>, ttl: int)
    requires Run(before).Some? && Run(before + [StartServer(ttl)]).Some?
    ensures (exists later, r, hash :: ServedLater(before, ttl, later, r, hash)) <==>
            (exists r, h :: YetToHit(before, r, h))
  {
    OldServedIff(before, ttl);
    if r: nat, h :| Overdue(Run(before).value, r, h) { OverdueIff(before, r, h); }
    if r: nat, h :| YetToHit(before, r, h) { OverdueIff(before, r, h); }
  }
}
