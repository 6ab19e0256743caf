/**
 The cache entries of one nginx worker: a queue of entries with a state and a use count,
 and the request handler that looks an entry up, retires an expired one and asks Redis.
 Shared memory is not locked, so nothing is claimed for several workers.
 */
module NginxCache {
  import opened Wrappers

  // CACHE_STATE_ACTIVE, _READYTOCLEAN, _CLEANINPROG and _DEAD, in the order of a life.
  datatype Life = Active | ReadyToClean | CleanInProgress | Dead

  function Rank(a: Life): nat {
    match a
    case Active => 0
    case ReadyToClean => 1
    case CleanInProgress => 2
    case Dead => 3
  }

  datatype Reply = Array(elements: seq<string>) | NotAnArray

  predicate Usable(reply: Reply) {
    reply.Array? && reply.elements != []
  }

  class Entry {
    const key: string
    const timestamp: int
    const reply: Reply
    var active: Life
    var inUse: int

    constructor (key: string, timestamp: int, reply: Reply)
      ensures this.key == key && this.timestamp == timestamp && this.reply == reply
      ensures active == Active && inUse == 0
    {
      this.key, this.timestamp, this.reply := key, timestamp, reply;
      active, inUse := Active, 0;
    }
  }

  predicate NoRepeats(q: seq<Entry>) {
    forall i, j :: 0 <= i < j < |q| ==> q[i] != q[j]
  }

  // ngx_queue_remove
  function Without(q: seq<Entry>, e: Entry): (r: seq<Entry>)
    ensures e !in r
    ensures forall x | x in q :: x != e ==> x in r
    ensures forall x | x in r :: x in q
  {
    if q == [] then [] else if q[0] == e then Without(q[1..], e) else [q[0]] + Without(q[1..], e)
  }

  lemma {:induction false} WithoutNoRepeats(q: seq<Entry>, e: Entry)
    requires NoRepeats(q)
    ensures NoRepeats(Without(q, e))
  {
    if q != [] {
      WithoutNoRepeats(q[1..], e);
      assert q == [q[0]] + q[1..] && q[0] !in q[1..];
    }
  }

  /** Asks Redis until it answers with a list that is not empty, four times at most; `answers`
      holds what each attempt would get, None for a command error. */
  method QueryRedis(answers: seq<Option<Reply>>) returns (reply: Option<Reply>, attempts: nat)
    requires |answers| >= 4
    ensures 1 <= attempts <= 4
    ensures forall k | 0 <= k < attempts - 1 :: answers[k].None? || !Usable(answers[k].value)
    ensures match reply
            case Some(r) => Usable(r) && answers[attempts - 1] == reply
            case None => attempts == 4 && (answers[3].None? || !Usable(answers[3].value))
  {
    attempts := 0;
    while true
      invariant attempts <= 3
      invariant forall k | 0 <= k < attempts :: answers[k].None? || !Usable(answers[k].value)
      decreases 4 - attempts
    {
      reply := answers[attempts];
      attempts := attempts + 1;
      if reply.None? || !Usable(reply.value) {
        if attempts > 3 {
          return None, attempts;
        }
      } else {
        return;
      }
    }
  }

  // The first usable one of the first four answers of Redis, or nothing without a connection.
  ghost predicate AnsweredBy(backends: Option<seq<string>>, connectOk: bool, answers: seq<Option<Reply>>)
    requires |answers| >= 4
  {
    match backends
    case None => !connectOk || forall k | 0 <= k < 4 :: answers[k].None? || !Usable(answers[k].value)
    case Some(list) =>
      connectOk && list != [] &&
      exists k :: 0 <= k < 4 && answers[k] == Some(Array(list))
                  && forall j | 0 <= j < k :: answers[j].None? || !Usable(answers[j].value)
  }

  function Elements(reply: Option<Reply>): Option<seq<string>>
    requires reply.Some? ==> reply.value.Array?
  {
    if reply.Some? then Some(reply.value.elements) else None
  }

  /** Connects to Redis and queries it. */
  method AskRedis(connectOk: bool, answers: seq<Option<Reply>>) returns (reply: Option<Reply>)
    requires |answers| >= 4
    ensures reply.Some? ==> reply.value.Array?
    ensures AnsweredBy(Elements(reply), connectOk, answers)
  {
    if !connectOk {
      return None;
    }
    var attempts;
    reply, attempts := QueryRedis(answers);
    if reply.Some? {
      assert answers[attempts - 1] == Some(Array(reply.value.elements));
    }
  }

  class Worker {
    var queue: seq<Entry>
    var freeing: seq<Entry>    // entries whose memory a request pool will free
    ghost var added: set<Entry>
    ghost var cleaned: set<Entry>

    // The queue holds exactly the entries added and not yet cleaned; the cleaned ones are
    // dead, and only they are queued for freeing, each once.
    ghost predicate Valid()
      reads this, added
    {
      && NoRepeats(queue) && NoRepeats(freeing) && cleaned <= added
      && (forall e | e in added :: e in queue <==> e !in cleaned)
      && (forall e | e in queue :: e in added)
      && (forall e | e in freeing :: e in cleaned)
      && (forall e | e in added :: e.active == Dead <==> e in cleaned)
      && (forall e | e in added :: e.active != CleanInProgress)
    }

    // No request is using an entry.
    ghost predicate Idle()
      reads this, added
    {
      forall e | e in added :: e.inUse == 0
    }

    constructor ()
      ensures Valid() && Idle() && queue == [] && freeing == [] && added == {}
    {
      queue, freeing, added, cleaned := [], [], {}, {};
    }

    static predicate Matches(e: Entry, key: string)
      reads e
    {
      e.active == Active && e.key == key && Usable(e.reply)
    }

    /** The first active entry of the key, if there is one. */
    method Find(key: string) returns (found: Entry?)
      ensures found != null ==> exists i :: 0 <= i < |queue| && queue[i] == found && Matches(found, key)
                                           && forall j | 0 <= j < i :: !Matches(queue[j], key)
      ensures found == null ==> forall j | 0 <= j < |queue| :: !Matches(queue[j], key)
    {
      for i := 0 to |queue|
        invariant forall j | 0 <= j < i :: !Matches(queue[j], key)
      {
        if Matches(queue[i], key) {
          return queue[i];
        }
      }
      return null;
    }

    /** A new entry at the head of the queue, or NULL if memory for it or its key is short. */
    method Add(key: string, reply: Reply, now: int, entryOk: bool, keyOk: bool) returns (e: Entry?)
      requires Valid()
      modifies this
      ensures Valid() && freeing == old(freeing) && cleaned == old(cleaned)
      ensures e != null <==> entryOk && keyOk
      ensures e == null ==> queue == old(queue) && added == old(added)
      ensures e != null ==> fresh(e) && e.key == key && e.reply == reply && e.timestamp == now
                            && e.active == Active && e.inUse == 0
                            && queue == [e] + old(queue) && added == old(added) + {e}
    {
      if !entryOk {
        return null;
      }
      if !keyOk {
        return null;
      }
      e := new Entry(key, now, reply);
      assert forall i :: 0 <= i < |queue| ==> queue[i] in added;
      queue := [e] + queue;
      added := added + {e};
    }

    /** Takes a retired entry nobody uses out of the queue and queues it for freeing, if the
        pool has room for the cleanup record; any other entry is left alone. */
    method Cleanup(e: Entry, recordOk: bool)
      requires Valid() && e in added
      modifies this, e
      ensures Valid() && added == old(added)
      ensures e.inUse == old(e.inUse)
      ensures var retire := old(e.inUse) <= 0 && old(e.active) == ReadyToClean;
              && cleaned == old(cleaned) + (if retire then {e} else {})
              && e.active == (if retire then Dead else old(e.active))
              && queue == (if retire then Without(old(queue), e) else old(queue))
              && freeing == old(freeing) + (if retire && recordOk then [e] else [])
    {
      if e.inUse > 0 {
        return;
      }
      if e.active != ReadyToClean {
        return;
      }
      assert e !in cleaned && forall i :: 0 <= i < |freeing| ==> freeing[i] in cleaned;
      WithoutNoRepeats(queue, e);
      e.active := CleanInProgress;
      queue := Without(queue, e);
      e.active := Dead;
      cleaned := cleaned + {e};
      if recordOk {
        freeing := freeing + [e];
      }
    }

    /** Retires an expired entry that no request is using. */
    method Retire(e: Entry, recordOk: bool)
      requires Valid() && Idle() && e in added && e.active == Active
      modifies this, e
      ensures Valid() && Idle() && added == old(added)
      ensures cleaned == old(cleaned) + {e} && e.active == Dead
      ensures queue == Without(old(queue), e)
      ensures freeing == old(freeing) + (if recordOk then [e] else [])
    {
      e.active := ReadyToClean;
      Cleanup(e, recordOk);
    }

    // The entry a lookup of the key finds: the first active one in the queue.
    ghost predicate Found(key: string, e: Entry)
      reads this, queue
    {
      exists i ::
        0 <= i < |queue| && queue[i] == e && Matches(e, key) && forall j | 0 <= j < i :: !Matches(queue[j], key)
    }

    ghost predicate Unchanged(oldCleaned: set<Entry>, oldFreeing: seq<Entry>, oldQueue: seq<Entry>)
      reads this
    {
      cleaned == oldCleaned && freeing == oldFreeing && queue == oldQueue
    }

    // The cache is on, and a lookup of the key finds this entry.
    ghost predicate Cached(key: string, ttl: int, e: Entry)
      reads this, queue
    {
      ttl > 0 && Found(key, e)
    }

    /** One request: the backend list of an entry younger than the lifetime, without asking Redis,
        or else of Redis, after an expired entry has been retired. Every use count is back at zero
        when the request returns, on every path. New entries are not stored: the code has that
        switched off. */
    method Handle(key: string, now: int, ttl: int, connectOk: bool, answers: seq<Option<Reply>>, recordOk: bool)
      returns (backends: Option<seq<string>>)
      requires Valid() && Idle() && |answers| >= 4
      modifies this, added
      ensures Valid() && Idle() && added == old(added)
      ensures forall e | e in added :: Rank(e.active) >= old(Rank(e.active))
      // A young entry is the answer, and nothing changes.
      ensures forall e | e in old(queue) && old(Cached(key, ttl, e)) && now - e.timestamp < ttl ::
                backends == Some(e.reply.elements) && Unchanged(old(cleaned), old(freeing), old(queue))
      // An expired one is retired, whatever Redis then answers.
      ensures forall e | e in old(queue) && old(Cached(key, ttl, e)) && now - e.timestamp >= ttl ::
                && AnsweredBy(backends, connectOk, answers)
                && cleaned == old(cleaned) + {e} && queue == Without(old(queue), e)
                && freeing == old(freeing) + (if recordOk then [e] else [])
      // Without an entry Redis is asked, and nothing changes.
      ensures (forall e | e in old(queue) :: !old(Cached(key, ttl, e))) ==>
                AnsweredBy(backends, connectOk, answers) && Unchanged(old(cleaned), old(freeing), old(queue))
    {
      var entry: Entry? := null;
      if ttl > 0 {
        entry := Find(key);
      }
      var reply;
      if entry != null && now - entry.timestamp < ttl {
        entry.inUse := entry.inUse + 1;
        reply := entry.reply;
      } else {
        if entry != null {
          Retire(entry, recordOk);
        }
        var answer := AskRedis(connectOk, answers);
        if answer.None? {
          return None;
        }
        reply := answer.value;
        if ttl != -1 {
          if entry != null {
            entry.inUse := entry.inUse + 1;
          }
        }
      }
      backends := Some(reply.elements);
      if entry != null {
        entry.inUse := entry.inUse - 1;
      }
    }
  }
}
