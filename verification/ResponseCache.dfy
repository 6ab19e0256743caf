/**
 The response cache of an HTTP cluster: requests and their backend exchanges, shutdowns and
 restarts of the server, and the passing of time, interleaved. Every StartServer makes a
 cache of its own, which the handlers it created keep using; whether caching is on is read
 from the cluster each time.
 */
module ResponseCache {
  import opened Wrappers
  import opened Decimal

  type Hash = string
  type Header = map<string, seq<string>>

  datatype Response = Response(status: int, header: Header, body: string, trailer: Header)

  // A CachedResponse and when it was stored.
  datatype Entry = Entry(response: Response, delay: int, stored: int)

  // One StartServer: the default lifetime of its cache, not positive for unlimited, its
  // entries, and the number of exchanges completed before it.
  datatype Incarnation = Incarnation(ttl: int, cache: map<Hash, Entry>, born: nat)

  // A completed backend exchange: what the backend answered and the delay that came of it.
  datatype Exchange = Exchange(incarnation: nat, hash: Hash, response: Response, delay: int, completed: int)

  // `hash` is "" when the cache was off or the request body could not be read.
  datatype Pc =
    | Arrived
    | Forwarded(hash: Hash)
    | Completed(hash: Hash, response: Response, delay: int)
    | Replied(response: Response, delay: int, hit: bool)

  // `delay` is that of the cluster when the request arrived.
  datatype Request = Request(incarnation: nat, delay: int, pc: Pc)

  // `serving`: the listener of the last incarnation is open.
  datatype State = State(
    now: int,
    enabled: bool,
    delay: int,
    serving: bool,
    incarnations: seq<Incarnation>,
    log: seq<Exchange>,
    requests: seq<Request>)

  const START := State(0, false, -1, false, [], [], [])

  datatype Action =
    | Tick(d: nat)
    | Configure(enabled: bool, delay: int)           // Refresh sets CacheEnabled and Delay
    | StartServer(ttl: int)
    | Shutdown(ok: bool)                             // closes the listener; ok: it waited for all requests
    | Arrive
    | LookUp(r: nat, hash: Option<Hash>)             // None: the body cannot be read
    | Complete(r: nat, response: Response)           // the backend has answered
    | Store(r: nat, readable: bool)                  // after the delay; the body may not be readable

  predicate Live(s: State, e: Entry, ttl: int) {
    ttl > 0 ==> s.now <= e.stored + ttl
  }

  predicate InOrder(s: State, r: nat) {
    r < |s.requests| && s.requests[r].incarnation < |s.incarnations|
  }

  // Every request of an incarnation has been answered.
  predicate Drained(s: State, i: int) {
    forall r | 0 <= r < |s.requests| && s.requests[r].incarnation == i :: s.requests[r].pc.Replied?
  }

  predicate Enabled(s: State, a: Action) {
    match a
    case StartServer(_) => !s.serving
    case Shutdown(ok) => s.serving && (ok ==> Drained(s, |s.incarnations| - 1))
    case Arrive => s.serving && s.incarnations != []
    case LookUp(r, hash) => InOrder(s, r) && s.requests[r].pc.Arrived? && hash != Some("")
    case Complete(r, _) => InOrder(s, r) && s.requests[r].pc.Forwarded?
    case Store(r, _) => InOrder(s, r) && s.requests[r].pc.Completed?
    case _ => true
  }

  function Move(s: State, r: nat, pc: Pc): State
    requires r < |s.requests|
  {
    s.(requests := s.requests[r := s.requests[r].(pc := pc)])
  }

  // The entry a request with this hash is answered from, if any.
  function Find(s: State, r: nat, hash: Option<Hash>): Option<Entry>
    requires InOrder(s, r)
  {
    var i := s.incarnations[s.requests[r].incarnation];
    if s.enabled && hash.Some? && hash.value in i.cache && Live(s, i.cache[hash.value], i.ttl)
    then Some(i.cache[hash.value]) else None
  }

  // The delay a backend asks for, or else that of the cluster.
  function DelayOf(header: Header, delay: int): int {
    if "X-Sv-Delay" in header && header["X-Sv-Delay"] != [] && Atoi(header["X-Sv-Delay"][0]).Some?
    then Atoi(header["X-Sv-Delay"][0]).value else delay
  }

  // A response as it is passed on and cached: the delay is noted in its header.
  function Marked(response: Response, delay: int): Response {
    response.(header := response.header["X-Dlb-Delay" := [PrintInt(delay)]])
  }

  // http.Header.Add, for all values of `h`.
  function AddAll(w: Header, h: Header): Header {
    map n | n in w.Keys + h.Keys && (n in w || h[n] != []) ::
      (if n in w then w[n] else []) + (if n in h then h[n] else [])
  }

  // http.Header.Set of each value in turn keeps the last one.
  function LastValues(h: Header): Header {
    map n | n in h && h[n] != [] :: [h[n][|h[n]| - 1]]
  }

  // What a hit writes to the client.
  function Replay(e: Entry, delay: int): Pc {
    var r := e.response;
    Replied(Response(r.status, AddAll(map["X-Dlb-Cache" := ["HIT"]], r.header), r.body, LastValues(r.trailer)),
            if e.delay > 0 then e.delay else delay, true)
  }

  function Apply(s: State, a: Action): State
    requires Enabled(s, a)
  {
    match a
    case Tick(d) => s.(now := s.now + d)
    case Configure(enabled, delay) => s.(enabled := enabled, delay := delay)
    case StartServer(ttl) => s.(serving := true, incarnations := s.incarnations + [Incarnation(ttl, map[], |s.log|)])
    case Shutdown(_) => s.(serving := false)
    case Arrive => s.(requests := s.requests + [Request(|s.incarnations| - 1, s.delay, Arrived)])
    case LookUp(r, hash) =>
      var found := Find(s, r, hash);
      if found.Some? then Move(s, r, Replay(found.value, s.requests[r].delay))
      else Move(s, r, Forwarded(if s.enabled && hash.Some? then hash.value else ""))
    case Complete(r, response) =>
      var q := s.requests[r];
      var delay := DelayOf(response.header, q.delay);
      Move(s, r, Completed(q.pc.hash, Marked(response, delay), delay)).(
        log := s.log + [Exchange(q.incarnation, q.pc.hash, response, delay, s.now)])
    case Store(r, readable) =>
      var q := s.requests[r];
      var s' := Move(s, r, Replied(q.pc.response, q.pc.delay, false));
      if s.enabled && readable then
        var i := s.incarnations[q.incarnation];
        s'.(incarnations := s.incarnations[q.incarnation :=
          i.(cache := i.cache[q.pc.hash := Entry(q.pc.response, q.pc.delay, s.now)])])
      else s'
  }

  function Run(actions: seq<Action>): Option<State> {
    if actions == [] then Some(START)
    else
      var n := |actions| - 1;
      match Run(actions[..n])
      case None => None
      case Some(s) => if Enabled(s, actions[n]) then Some(Apply(s, actions[n])) else None
  }

  // ----------------------------------------------------------------------- invariant

  // Some exchange of incarnation `i`, completed since it was started, had this hash, gave
  // this response and delay, and was completed by then.
  ghost predicate Happened(s: State, i: nat, hash: Hash, e: Entry)
    requires i < |s.incarnations|
  {
    exists k :: s.incarnations[i].born <= k < |s.log| && IsExchange(s.log[k], i, hash, e)
  }

  // The entry replays this exchange.
  predicate IsExchange(x: Exchange, i: nat, hash: Hash, e: Entry) {
    && x.incarnation == i && x.hash == hash && x.completed <= e.stored
    && e.response == Marked(x.response, x.delay) && e.delay == x.delay
  }

  ghost predicate Inv(s: State) {
    && (forall i | 0 <= i < |s.incarnations| ::
          && s.incarnations[i].born <= |s.log|
          && forall h | h in s.incarnations[i].cache ::
               s.incarnations[i].cache[h].stored <= s.now && Happened(s, i, h, s.incarnations[i].cache[h]))
    && (forall r | 0 <= r < |s.requests| ::
          && s.requests[r].incarnation < |s.incarnations|
          && (s.requests[r].pc.Completed? ==> Answered(s, s.requests[r])))
  }

  ghost predicate Answered(s: State, q: Request)
    requires q.pc.Completed? && q.incarnation < |s.incarnations|
  {
    Happened(s, q.incarnation, q.pc.hash, Entry(q.pc.response, q.pc.delay, s.now))
  }

  // Time passing, exchanges completing, caches filling: what happened stays happened.
  lemma StillHappened(s: State, s': State, i: nat, hash: Hash, e: Entry, e': Entry)
    requires i < |s.incarnations| <= |s'.incarnations| && s'.incarnations[i].born == s.incarnations[i].born
    requires s.log <= s'.log && e' == e.(stored := e'.stored) && e.stored <= e'.stored
    requires Happened(s, i, hash, e)
    ensures Happened(s', i, hash, e')
  {
    var k :| s.incarnations[i].born <= k < |s.log| && IsExchange(s.log[k], i, hash, e);
    assert IsExchange(s'.log[k], i, hash, e');
  }

  lemma ActionKeeps(s: State, a: Action)
    requires Inv(s) && Enabled(s, a)
    ensures Inv(Apply(s, a))
  {
    var s' := Apply(s, a);
    forall i | 0 <= i < |s'.incarnations|
      ensures s'.incarnations[i].born <= |s'.log|
      ensures forall h | h in s'.incarnations[i].cache ::
                s'.incarnations[i].cache[h].stored <= s'.now && Happened(s', i, h, s'.incarnations[i].cache[h])
    {
      forall h | h in s'.incarnations[i].cache
        ensures s'.incarnations[i].cache[h].stored <= s'.now && Happened(s', i, h, s'.incarnations[i].cache[h])
      {
        EntryKeeps(s, a, i, h);
      }
    }
    forall r | 0 <= r < |s'.requests|
      ensures s'.requests[r].incarnation < |s'.incarnations|
      ensures s'.requests[r].pc.Completed? ==> Answered(s', s'.requests[r])
    {
      if s'.requests[r].pc.Completed? {
        RequestKeeps(s, a, r);
      }
    }
  }

  // A step adds at most an exchange, never takes a server back, and time goes on.
  lemma Advances(s: State, a: Action)
    requires Inv(s) && Enabled(s, a)
    ensures var s' := Apply(s, a);
            && s.log <= s'.log && s.now <= s'.now && |s.incarnations| <= |s'.incarnations|
            && forall i | 0 <= i < |s.incarnations| :: s'.incarnations[i].born == s.incarnations[i].born
  {
  }

  // An entry of a cache was there before, or is what a request has just stored.
  lemma EntryFrom(s: State, a: Action, i: nat, h: Hash)
    requires Inv(s) && Enabled(s, a) && i < |Apply(s, a).incarnations| && h in Apply(s, a).incarnations[i].cache
    ensures i < |s.incarnations|
    ensures var e := Apply(s, a).incarnations[i].cache[h];
            || (h in s.incarnations[i].cache && s.incarnations[i].cache[h] == e)
            || (a.Store? && var q := s.requests[a.r];
                i == q.incarnation && h == q.pc.hash && e == Entry(q.pc.response, q.pc.delay, s.now))
  {
  }

  lemma EntryKeeps(s: State, a: Action, i: nat, h: Hash)
    requires Inv(s) && Enabled(s, a) && i < |Apply(s, a).incarnations| && h in Apply(s, a).incarnations[i].cache
    ensures var s' := Apply(s, a);
            s'.incarnations[i].cache[h].stored <= s'.now && Happened(s', i, h, s'.incarnations[i].cache[h])
  {
    var e := Apply(s, a).incarnations[i].cache[h];
    Advances(s, a);
    EntryFrom(s, a, i, h);
    if !(h in s.incarnations[i].cache && s.incarnations[i].cache[h] == e) {
      assert Answered(s, s.requests[a.r]);
    }
    StillHappened(s, Apply(s, a), i, h, e, e);
  }

  // A request with a completed exchange had it before, or it has just completed.
  lemma CompletedFrom(s: State, a: Action, r: nat)
    requires Inv(s) && Enabled(s, a) && r < |Apply(s, a).requests| && Apply(s, a).requests[r].pc.Completed?
    ensures r < |s.requests| && Apply(s, a).requests[r].incarnation == s.requests[r].incarnation < |s.incarnations|
    ensures Apply(s, a).requests[r] == s.requests[r] || (a.Complete? && a.r == r)
  {
  }

  lemma CompletesAnswered(s: State, r: nat, response: Response)
    requires Inv(s) && Enabled(s, Complete(r, response))
    ensures var s' := Apply(s, Complete(r, response)); s'.requests[r].pc.Completed? && Answered(s', s'.requests[r])
  {
    var s' := Apply(s, Complete(r, response));
    var q := s'.requests[r];
    assert IsExchange(s'.log[|s.log|], q.incarnation, q.pc.hash, Entry(q.pc.response, q.pc.delay, s'.now));
  }

  lemma RequestKeeps(s: State, a: Action, r: nat)
    requires Inv(s) && Enabled(s, a) && r < |Apply(s, a).requests| && Apply(s, a).requests[r].pc.Completed?
    ensures var s' := Apply(s, a); s'.requests[r].incarnation < |s'.incarnations| && Answered(s', s'.requests[r])
  {
    Advances(s, a);
    CompletedFrom(s, a, r);
    var q := Apply(s, a).requests[r];
    if q == s.requests[r] {
      assert Answered(s, q);
      var e := Entry(q.pc.response, q.pc.delay, s.now);
      StillHappened(s, Apply(s, a), q.incarnation, q.pc.hash, e, e.(stored := Apply(s, a).now));
    } else {
      CompletesAnswered(s, r, a.response);
    }
  }

  lemma {:induction false} RunKeeps(actions: seq<Action>)
    requires Run(actions).Some?
    ensures Inv(Run(actions).value)
  {
    if actions != [] {
      var n := |actions| - 1;
      RunKeeps(actions[..n]);
      ActionKeeps(Run(actions[..n]).value, actions[n]);
    }
  }

  // ----------------------------------------------------------------------- the hits

  predicate Hits(s: State, r: nat, hash: Option<Hash>) {
    Enabled(s, LookUp(r, hash)) && Find(s, r, hash).Some?
  }

  // What a header map holds for a name: no values if it lacks it.
  function Values(h: Header, name: string): seq<string> {
    if name in h then h[name] else []
  }

  // The values a reply to this exchange carries for a name.
  function Replayed(x: Exchange, name: string): seq<string> {
    if name == "X-Dlb-Delay" then [PrintInt(x.delay)]
    else if name == "X-Dlb-Cache" then ["HIT"] + Values(x.response.header, name)
    else Values(x.response.header, name)
  }

  // A reply replays an exchange: the same status and body, the headers of the backend with the
  // two that the proxy adds, and the delay if the exchange had one. After the body the handler
  // sets the last value of every trailer, whatever net/http then makes of it.
  ghost predicate Replays(x: Exchange, q: Pc) {
    && q.Replied? && q.hit
    && q.response.status == x.response.status && q.response.body == x.response.body
    && (forall n: string :: Values(q.response.header, n) == Replayed(x, n))
    && (forall n: string :: Values(q.response.trailer, n) ==
          var t := Values(x.response.trailer, n); if t == [] then [] else [t[|t| - 1]])
    && (x.delay > 0 ==> q.delay == x.delay)
  }

  lemma AddedValues(w: Header, h: Header, n: string)
    ensures Values(AddAll(w, h), n) == Values(w, n) + Values(h, n)
  {
  }

  lemma ReplayReplays(x: Exchange, i: nat, hash: Hash, e: Entry, delay: int)
    requires IsExchange(x, i, hash, e)
    ensures Replays(x, Replay(e, delay))
  {
    var q := Replay(e, delay);
    forall n: string ensures Values(q.response.header, n) == Replayed(x, n) {
      AddedValues(map["X-Dlb-Cache" := ["HIT"]], e.response.header, n);
      assert n != "X-Dlb-Delay" ==> Values(e.response.header, n) == Values(x.response.header, n);
    }
  }

  /** Every cache hit replays a backend exchange completed under the same, non-empty hash by the
      same incarnation of the server, since it was started; and the entry is within its lifetime
      when that is limited. */
  lemma HitReplays(actions: seq<Action>, r: nat, hash: Option<Hash>) returns (k: nat)
    requires Run(actions).Some? && Hits(Run(actions).value, r, hash)
    ensures var s := Run(actions).value;
            var i, e := s.requests[r].incarnation, Find(s, r, hash).value;
            && hash.Some? && hash.value != ""
            && e.stored <= s.now && (s.incarnations[i].ttl > 0 ==> s.now - e.stored <= s.incarnations[i].ttl)
            && s.incarnations[i].born <= k < |s.log|
            && s.log[k].incarnation == i && s.log[k].hash == hash.value && s.log[k].completed <= e.stored
            && Replays(s.log[k], Apply(s, LookUp(r, hash)).requests[r].pc)
  {
    RunKeeps(actions);
    var s := Run(actions).value;
    var i, e := s.requests[r].incarnation, Find(s, r, hash).value;
    assert Happened(s, i, hash.value, e);
    k :| s.incarnations[i].born <= k < |s.log| && IsExchange(s.log[k], i, hash.value, e);
    ReplayReplays(s.log[k], i, hash.value, e, s.requests[r].delay);
  }

  // --------------------------------------------------------------- before and after

  // How a state relates to one before the restart that led to it.
  predicate Follows(s: State, t: State) {
    ServersFollow(s, t) && RequestsFollow(s, t)
  }

  predicate ServersFollow(s: State, t: State) {
    && |s.incarnations| < |t.incarnations| && s.log <= t.log && s.now <= t.now
    && (forall i | 0 <= i < |s.incarnations| :: t.incarnations[i].ttl == s.incarnations[i].ttl)
    && (forall i | |s.incarnations| <= i < |t.incarnations| :: t.incarnations[i].born >= |s.log|)
  }

  predicate RequestsFollow(s: State, t: State) {
    && |s.requests| <= |t.requests| && |s.incarnations| < |t.incarnations|
    && (forall r | 0 <= r < |s.requests| ::
          && t.requests[r].incarnation == s.requests[r].incarnation
          && (t.requests[r].pc.Arrived? ==> s.requests[r].pc.Arrived?))
    && (forall r | |s.requests| <= r < |t.requests| :: t.requests[r].incarnation >= |s.incarnations|)
  }

  lemma ServersStepFollows(s: State, t: State, a: Action)
    requires ServersFollow(s, t) && Enabled(t, a)
    ensures ServersFollow(s, Apply(t, a))
  {
  }

  // A request stays with its incarnation, and a new one is of the last.
  lemma RequestStays(t: State, a: Action, r: nat)
    requires Enabled(t, a) && r < |Apply(t, a).requests|
    ensures |t.requests| <= |Apply(t, a).requests| && |t.incarnations| <= |Apply(t, a).incarnations|
    ensures var q := Apply(t, a).requests[r];
            if r < |t.requests|
            then q.incarnation == t.requests[r].incarnation && (q.pc.Arrived? ==> t.requests[r].pc.Arrived?)
            else q.incarnation == |t.incarnations| - 1
  {
  }

  lemma RequestsStepFollows(s: State, t: State, a: Action)
    requires RequestsFollow(s, t) && Enabled(t, a)
    ensures RequestsFollow(s, Apply(t, a))
  {
    forall r | 0 <= r < |Apply(t, a).requests|
      ensures if r < |s.requests| then Apply(t, a).requests[r].incarnation == s.requests[r].incarnation
                                       && (Apply(t, a).requests[r].pc.Arrived? ==> s.requests[r].pc.Arrived?)
              else Apply(t, a).requests[r].incarnation >= |s.incarnations|
    {
      RequestStays(t, a, r);
    }
  }

  function After(before: seq<Action>, ttl: int, later: seq<Action>): Option<State> {
    Run(before + [StartServer(ttl)] + later)
  }

  lemma {:induction false} AfterFollows(before: seq<Action>, ttl: int, later: seq<Action>)
    requires After(before, ttl, later).Some?
    ensures Run(before).Some? && Follows(Run(before).value, After(before, ttl, later).value)
  {
    var all := before + [StartServer(ttl)] + later;
    if later == [] {
      assert all[..|all| - 1] == before;
    } else {
      var n := |later| - 1;
      assert all[..|all| - 1] == before + [StartServer(ttl)] + later[..n] && all[|all| - 1] == later[n];
      AfterFollows(before, ttl, later[..n]);
      ServersStepFollows(Run(before).value, After(before, ttl, later[..n]).value, later[n]);
      RequestsStepFollows(Run(before).value, After(before, ttl, later[..n]).value, later[n]);
    }
  }

  /** A request that arrived after an update is never answered with an exchange from before it. */
  lemma HitAfterUpdate(before: seq<Action>, ttl: int, later: seq<Action>, r: nat, hash: Option<Hash>) returns (k: nat)
    requires Run(before).Some? && After(before, ttl, later).Some? && Hits(After(before, ttl, later).value, r, hash)
    requires r >= |Run(before).value.requests|
    ensures var t := After(before, ttl, later).value;
            && |Run(before).value.log| <= k < |t.log|
            && hash == Some(t.log[k].hash) && Replays(t.log[k], Apply(t, LookUp(r, hash)).requests[r].pc)
  {
    AfterFollows(before, ttl, later);
    k := HitReplays(before + [StartServer(ttl)] + later, r, hash);
  }

  // A hit on an entry that was in a cache when the server was restarted.
  predicate ServesOld(s: State, t: State, r: nat, hash: Option<Hash>) {
    && Hits(t, r, hash)
    && var i := t.requests[r].incarnation;
       i < |s.incarnations| && hash.value in s.incarnations[i].cache
       && s.incarnations[i].cache[hash.value] == Find(t, r, hash).value
  }

  ghost predicate ServedLater(before: seq<Action>, ttl: int, later: seq<Action>, r: nat, hash: Option<Hash>) {
    && Run(before).Some? && After(before, ttl, later).Some?
    && ServesOld(Run(before).value, After(before, ttl, later).value, r, hash)
  }

  // A request of an older incarnation that has not looked in the cache yet, and what it
  // could find there.
  predicate Overdue(s: State, r: nat, h: Hash) {
    && InOrder(s, r) && s.requests[r].pc.Arrived? && h != ""
    && var i := s.incarnations[s.requests[r].incarnation];
       h in i.cache && Live(s, i.cache[h], i.ttl)
  }

  /** Entries from before an update can be served after it exactly when, at the restart, a request
      of an older incarnation has yet to look in a cache that holds a live entry. */
  lemma OldServedIff(before: seq<Action>, ttl: int)
    requires Run(before).Some? && Run(before + [StartServer(ttl)]).Some?
    ensures (exists later, r, hash :: ServedLater(before, ttl, later, r, hash)) <==>
            (exists r, h :: Overdue(Run(before).value, r, h))
  {
    assert before + [StartServer(ttl)] + [] == before + [StartServer(ttl)];
    AfterFollows(before, ttl, []);
    var s := Run(before).value;
    if later, r, hash :| ServedLater(before, ttl, later, r, hash) {
      OnlyOverdue(before, ttl, later, r, hash);
    }
    if r: nat, h :| Overdue(s, r, h) {
      ServeOverdue(before, ttl, r, h);
    }
  }

  lemma OnlyOverdue(before: seq<Action>, ttl: int, later: seq<Action>, r: nat, hash: Option<Hash>)
    requires ServedLater(before, ttl, later, r, hash)
    ensures hash.Some? && Overdue(Run(before).value, r, hash.value)
  {
    AfterFollows(before, ttl, later);
    RunKeeps(before);
    var s, t := Run(before).value, After(before, ttl, later).value;
    assert r < |s.requests|;
  }

  lemma ServeOverdue(before: seq<Action>, ttl: int, r: nat, h: Hash)
    requires Run(before + [StartServer(ttl)]).Some?
    requires Run(before).Some? && Overdue(Run(before).value, r, h)
    ensures ServedLater(before, ttl, [Configure(true, 0)], r, Some(h))
  {
    var start := before + [StartServer(ttl)];
    var all := start + [Configure(true, 0)];
    assert start[..|before|] == before && all[..|start|] == start;
  }

  // ------------------------------------------------------------- clean shutdowns

  predicate CleanShutdowns(actions: seq<Action>) {
    forall i | 0 <= i < |actions| :: actions[i] != Shutdown(false)
  }

  // Only requests of the incarnation that is serving are unanswered.
  lemma {:induction false} CleanDrains(actions: seq<Action>, r: nat)
    requires Run(actions).Some? && CleanShutdowns(actions)
    requires var s := Run(actions).value; r < |s.requests| && !s.requests[r].pc.Replied?
    ensures var s := Run(actions).value; s.serving && s.requests[r].incarnation == |s.incarnations| - 1
  {
    if actions != [] {
      var n := |actions| - 1;
      var s, a := Run(actions[..n]).value, actions[n];
      if r < |s.requests| {
        assert !s.requests[r].pc.Replied?;
        CleanDrains(actions[..n], r);
      }
    }
  }

  /** When no Shutdown reports an error, nothing stored before an update is served after it: every
      hit after the restart, of any request, replays an exchange completed since. */
  lemma CleanUpdate(before: seq<Action>, ttl: int, later: seq<Action>, r: nat, hash: Option<Hash>) returns (k: nat)
    requires Run(before).Some? && After(before, ttl, later).Some? && CleanShutdowns(before)
    requires Hits(After(before, ttl, later).value, r, hash)
    ensures var t := After(before, ttl, later).value;
            && |Run(before).value.log| <= k < |t.log|
            && hash == Some(t.log[k].hash) && Replays(t.log[k], Apply(t, LookUp(r, hash)).requests[r].pc)
  {
    AfterFollows(before, ttl, later);
    StartedWhenStopped(before, ttl, later);
    var s := Run(before).value;
    if r < |s.requests| {
      CleanDrains(before, r);
      assert false;
    }
    k := HitAfterUpdate(before, ttl, later, r, hash);
  }

  lemma {:induction false} StartedWhenStopped(before: seq<Action>, ttl: int, later: seq<Action>)
    requires After(before, ttl, later).Some?
    ensures Run(before).Some? && !Run(before).value.serving
  {
    var all := before + [StartServer(ttl)] + later;
    if later == [] {
      assert all[..|all| - 1] == before;
    } else {
      assert all[..|all| - 1] == before + [StartServer(ttl)] + later[..|later| - 1];
      StartedWhenStopped(before, ttl, later[..|later| - 1]);
    }
  }

  lemma Then(actions: seq<Action>, s: State, a: Action) returns (longer: seq<Action>, s': State)
    requires Run(actions) == Some(s) && Enabled(s, a)
    ensures longer == actions + [a] && s' == Apply(s, a) && Run(longer) == Some(s')
  {
    longer, s' := actions + [a], Apply(s, a);
    assert longer[..|actions|] == actions;
  }

  lemma ForwardOne(h: Hash) returns (actions: seq<Action>, s: State)
    requires h != ""
    ensures Run(actions) == Some(s)
    ensures s == State(0, true, 0, true, [Incarnation(0, map[], 0)], [], [Request(0, 0, Forwarded(h))])
  {
    actions, s := [], START;
    actions, s := Then(actions, s, Configure(true, 0));
    actions, s := Then(actions, s, StartServer(0));
    actions, s := Then(actions, s, Arrive);
    actions, s := Then(actions, s, LookUp(0, Some(h)));
  }

  // One exchange is completed and cached.
  lemma CacheOne(h: Hash, answer: Response) returns (actions: seq<Action>, s: State)
    requires h != ""
    ensures Run(actions) == Some(s)
    ensures s.serving && |s.requests| == 1 && |s.incarnations| == 1
    ensures s.incarnations[0].ttl == 0 && h in s.incarnations[0].cache
  {
    actions, s := ForwardOne(h);
    actions, s := Then(actions, s, Complete(0, answer));
    actions, s := Then(actions, s, Store(0, true));
  }

  /** A timed-out shutdown lets it happen: a request that is still waiting when the server is
      restarted is answered with what the old server cached. */
  lemma TimeoutServesOld(h: Hash, answer: Response, ttl: int) returns (before: seq<Action>)
    requires h != ""
    ensures Run(before).Some? && !Run(before).value.serving
    ensures ServedLater(before, ttl, [Configure(true, 0)], 1, Some(h))
  {
    var s;
    before, s := CacheOne(h, answer);
    before, s := Then(before, s, Arrive);
    before, s := Then(before, s, Shutdown(false));
    var restarted, t := Then(before, s, StartServer(ttl));
    assert s.requests[1] == Request(0, s.delay, Arrived);
    ServeOverdue(before, ttl, 1, h);
  }
}
