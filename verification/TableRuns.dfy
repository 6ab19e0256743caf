/**
 Whole runs of the table: its state as a value, the effect of one call, and what holds
 after every sequence of calls on a fresh table, through any expansions, removals and
 failed allocations.
 */
module TableRuns {
  import opened Fnv
  import opened Wrappers
  import opened ProbeTable
  import opened ProbeRemoval

  const INITIAL_CAPACITY: nat := 16

  // `moved` counts the entries carried over by all expansions so far.
  datatype Table = Table(slots: Slots, length: nat, moved: nat)

  // ------------------------------------------------------------------ the invariant

  predicate IsCapacity(c: nat) {
    exists n :: 4 <= n <= 63 && c == Pow2(n)
  }

  // What every run keeps, removals included.
  predicate Sound(t: Table) {
    && IsCapacity(|t.slots|)
    && Load(t.slots) <= t.length
    && 2 * t.length <= |t.slots|
    && (|t.slots| == INITIAL_CAPACITY || |t.slots| <= 4 * t.length)
    && 2 * t.moved + INITIAL_CAPACITY <= |t.slots|
  }

  function Fresh(): Table {
    Table(Blank(INITIAL_CAPACITY), 0, 0)
  }

  lemma FreshSound()
    ensures Sound(Fresh()) && WellFormed(Fresh().slots)
    ensures forall k :: Lookup(Fresh().slots, k) == None
  {
    assert Pow2(4) == INITIAL_CAPACITY;
    LoadBlank(INITIAL_CAPACITY);
    assert Fresh().slots[0].Empty?;
  }

  /** A sound table always has an empty slot, so every probe comes to rest; its capacity
      fits 64 bits, so neither `length` nor a probe index ever wraps. */
  lemma SoundTable(t: Table)
    requires Sound(t)
    ensures HasEmpty(t.slots)
    ensures INITIAL_CAPACITY <= |t.slots| <= 0x8000_0000_0000_0000
    ensures |t.slots| % 2 == 0
    ensures t.moved <= 2 * t.length
  {
    CapacityRange(|t.slots|);
    SpareSlot(t.slots);
  }

  lemma CapacityRange(c: nat)
    requires IsCapacity(c)
    ensures INITIAL_CAPACITY <= c <= 0x8000_0000_0000_0000 && c % 2 == 0
  {
    var n :| 4 <= n <= 63 && c == Pow2(n);
    PowersOfTwo(n);
    var half := Pow2(n - 1);
    assert c == 2 * half;
  }

  /** At every capacity a table can have, masking the hash gives the home slot. */
  lemma MaskIsHome(key: Key, capacity: nat)
    requires IsCapacity(capacity)
    ensures capacity > 0 && And(Hash(key), capacity - 1) == Home(key, capacity)
  {
    var n :| 4 <= n <= 63 && capacity == Pow2(n);
    MaskIsMod(Hash(key), n);
  }

  lemma Pow2Monotone(m: nat, n: nat)
    requires m <= n
    ensures Pow2(m) <= Pow2(n)
  {
    if m < n {
      Pow2Monotone(m, n - 1);
    }
  }

  lemma PowersOfTwo(n: nat)
    requires 4 <= n
    ensures INITIAL_CAPACITY <= Pow2(n)
    ensures n <= 63 ==> Pow2(n) <= 0x8000_0000_0000_0000
    ensures n == 63 ==> 2 * Pow2(n) == TWO_64
  {
    Pow2At64();
    assert Pow2(64) == 2 * Pow2(63);
    assert Pow2(4) == 16;
    Pow2Monotone(4, n);
    if n <= 63 { Pow2Monotone(n, 63); }
  }

  // ------------------------------------------------------------------------ one call

  // Doubling the capacity wraps to zero at 2^63, and calloc may fail.
  predicate CanExpand(t: Table, callocOk: bool) {
    |t.slots| * 2 % TWO_64 >= |t.slots| && callocOk
  }

  function Expanded(t: Table): Table
    requires |t.slots| > 0
  {
    Table(Rehash(t.slots, |t.slots|, 2 * |t.slots|), t.length, t.moved + Load(t.slots))
  }

  predicate NeedsRoom(t: Table) {
    t.length >= |t.slots| / 2
  }

  // The table in which ht_set inserts: expanded if it was full, None if that failed.
  function WithRoom(t: Table, callocOk: bool): Option<Table>
    requires |t.slots| > 0
  {
    if !NeedsRoom(t) then Some(t) else if CanExpand(t, callocOk) then Some(Expanded(t)) else None
  }

  // The insertion itself: an overwrite, a counted new entry, or nothing if the key of a new
  // entry cannot be copied.
  function Insert(u: Table, key: Key, value: Pointer, strdupOk: bool): (Table, Option<Key>)
    requires HasEmpty(u.slots)
  {
    if Present(u.slots, key) then (u.(slots := SetEntry(u.slots, key, value)), Some(key))
    else if strdupOk then (u.(slots := SetEntry(u.slots, key, value), length := u.length + 1), Some(key))
    else (u, None)
  }

  // ht_set, with the key it returns; the flags say whether its allocations succeed.
  function Set(t: Table, key: Key, value: Option<Pointer>, callocOk: bool, strdupOk: bool): (Table, Option<Key>)
    requires Sound(t)
  {
    SoundTable(t);
    match (value, WithRoom(t, callocOk))
    case (Some(v), Some(u)) => Insert(u, key, v, strdupOk)
    case _ => (t, None)
  }

  /** Expansion keeps a full table sound; only a full table is expanded. */
  lemma ExpandedSound(t: Table, callocOk: bool)
    requires Sound(t) && NeedsRoom(t) && CanExpand(t, callocOk)
    ensures Sound(Expanded(t)) && !NeedsRoom(Expanded(t))
  {
    var n :| 4 <= n <= 63 && |t.slots| == Pow2(n);
    PowersOfTwo(n);
    SoundTable(t);
    assert 2 * |t.slots| == Pow2(n + 1);
  }

  lemma WithRoomSound(t: Table, callocOk: bool)
    requires Sound(t)
    ensures |t.slots| > 0
    ensures WithRoom(t, callocOk).Some? ==>
              var u := WithRoom(t, callocOk).value; Sound(u) && HasEmpty(u.slots) && !NeedsRoom(u)
  {
    SoundTable(t);
    if NeedsRoom(t) && CanExpand(t, callocOk) {
      ExpandedSound(t, callocOk);
      SoundTable(Expanded(t));
    }
  }

  lemma InsertSound(u: Table, key: Key, value: Pointer, strdupOk: bool)
    requires Sound(u) && HasEmpty(u.slots) && !NeedsRoom(u)
    ensures Sound(Insert(u, key, value, strdupOk).0)
  {
    SetEntrySize(u.slots, key, value);
  }

  lemma SetSound(t: Table, key: Key, value: Option<Pointer>, callocOk: bool, strdupOk: bool)
    requires Sound(t)
    ensures Sound(Set(t, key, value, callocOk, strdupOk).0)
  {
    WithRoomSound(t, callocOk);
    if value.Some? && WithRoom(t, callocOk).Some? {
      InsertSound(WithRoom(t, callocOk).value, key, value.value, strdupOk);
    }
  }

  // ht_remove; note that it leaves `length` alone.
  function Removed(t: Table, key: Key): Table
    requires |t.slots| > 0
  {
    t.(slots := Remove(t.slots, key))
  }

  lemma RemovedSound(t: Table, key: Key)
    requires Sound(t)
    ensures |t.slots| > 0 && Sound(Removed(t, key))
  {
    SoundTable(t);
    RemoveSize(t.slots, key);
  }

  /** On a well-formed table, ht_set that returns a key is a map update, counted if the key is
      new, and one that returns NULL changes no answer. It returns NULL exactly when
      the value is NULL, a needed expansion fails, or a new key cannot be copied. */
  lemma SetUpdates(t: Table, key: Key, value: Option<Pointer>, callocOk: bool, strdupOk: bool)
    requires Sound(t) && WellFormed(t.slots)
    ensures var (t', r) := Set(t, key, value, callocOk, strdupOk);
            && Sound(t') && WellFormed(t'.slots) && Load(t'.slots) - Load(t.slots) == t'.length - t.length
            && (r.None? <==> value.None? || (NeedsRoom(t) && !CanExpand(t, callocOk))
                             || (Lookup(t.slots, key).None? && !strdupOk))
            && (r.Some? ==> r.value == key)
            && (forall k :: Lookup(t'.slots, k) == if r.Some? && k == key then value else Lookup(t.slots, k))
            && t'.length == t.length + (if r.Some? && Lookup(t.slots, key).None? then 1 else 0)
  {
    WithRoomSound(t, callocOk);
    if value.Some? && WithRoom(t, callocOk).Some? {
      WithRoomSame(t, callocOk);
      InsertUpdates(WithRoom(t, callocOk).value, key, value.value, strdupOk);
    }
  }

  lemma WithRoomSame(t: Table, callocOk: bool)
    requires Sound(t) && WellFormed(t.slots) && WithRoom(t, callocOk).Some?
    ensures var u := WithRoom(t, callocOk).value;
            && WellFormed(u.slots) && Load(u.slots) == Load(t.slots) && u.length == t.length
            && forall k :: Lookup(u.slots, k) == Lookup(t.slots, k)
  {
    if NeedsRoom(t) {
      RehashSameAnswers(t.slots, 2 * |t.slots|);
      RehashOverwritesNothing(t.slots, 2 * |t.slots|);
    }
  }

  lemma InsertUpdates(u: Table, key: Key, value: Pointer, strdupOk: bool)
    requires Sound(u) && WellFormed(u.slots) && !NeedsRoom(u)
    ensures var (u', r) := Insert(u, key, value, strdupOk);
            && Sound(u') && WellFormed(u'.slots) && Load(u'.slots) - Load(u.slots) == u'.length - u.length
            && (r.None? <==> Lookup(u.slots, key).None? && !strdupOk)
            && (r.Some? ==> r.value == key)
            && (forall k :: Lookup(u'.slots, k) == if r.Some? && k == key then Some(value) else Lookup(u.slots, k))
            && u'.length == u.length + (if r.Some? && Lookup(u.slots, key).None? then 1 else 0)
  {
    InsertSound(u, key, value, strdupOk);
    SetEntrySize(u.slots, key, value);
    if Present(u.slots, key) || strdupOk {
      SoundTable(Insert(u, key, value, strdupOk).0);
      SetEntryLookup(u.slots, key, value);
    }
  }

  /** An expansion repairs every chain a removal broke: whatever the table, afterwards it is
      well formed, and a key has the value of the last slot that held it. */
  lemma ExpansionRepairs(t: Table, callocOk: bool)
    requires Sound(t) && NeedsRoom(t) && CanExpand(t, callocOk)
    ensures WellFormed(Expanded(t).slots)
    ensures forall k :: Lookup(Expanded(t).slots, k) == LastStored(t.slots, |t.slots|, k)
    ensures Load(Expanded(t).slots) == |KeysOf(t.slots, |t.slots|)|
  {
    SoundTable(t);
    RehashLookup(t.slots, |t.slots|, 2 * |t.slots|);
    RehashSize(t.slots, |t.slots|, 2 * |t.slots|);
  }

  // ---------------------------------------------------------------------- whole runs

  datatype Call =
    | SetCall(key: Key, value: Option<Pointer>, callocOk: bool, strdupOk: bool)
    | GetCall(key: Key)
    | LengthCall
    | RemoveCall(key: Key)

  datatype Reply = Stored(key: Option<Key>) | Got(value: Option<Pointer>) | Count(n: nat) | Gone(ok: bool)

  function Answer(t: Table, c: Call): (Table, Reply)
    requires Sound(t)
  {
    SoundTable(t);
    match c
    case SetCall(k, v, callocOk, strdupOk) =>
      var (t', r) := Set(t, k, v, callocOk, strdupOk);
      (t', Stored(r))
    case GetCall(k) => (t, Got(Lookup(t.slots, k)))
    case LengthCall => (t, Count(t.length))
    case RemoveCall(k) => (Removed(t, k), Gone(Victim(t.slots, k).Some?))
  }

  /** Every call keeps the invariant, on any sound table, broken chains included. */
  lemma AnswerSound(t: Table, c: Call)
    requires Sound(t)
    ensures Sound(Answer(t, c).0)
  {
    SoundTable(t);
    match c
    case SetCall(k, v, callocOk, strdupOk) => SetSound(t, k, v, callocOk, strdupOk);
    case RemoveCall(k) => RemovedSound(t, k);
    case _ =>
  }

  // The table after a run of calls on a fresh one. That the result is sound is the claim
  // that in every reachable state, under every mix of calls, the invariant holds.
  function Run(calls: seq<Call>): (t: Table)
    ensures Sound(t)
  {
    if calls == [] then
      FreshSound();
      Fresh()
    else
      var n := |calls| - 1;
      AnswerSound(Run(calls[..n]), calls[n]);
      Answer(Run(calls[..n]), calls[n]).0
  }

  function LastReply(calls: seq<Call>): Reply
    requires calls != []
  {
    Answer(Run(calls[..|calls| - 1]), calls[|calls| - 1]).1
  }

  /** In every reachable state an empty slot remains, the capacity is at most
      max(16, 4 * length), and all expansions together moved at most 2 * length entries. */
  lemma RunBounds(calls: seq<Call>)
    ensures var t := Run(calls);
            && HasEmpty(t.slots)
            && Load(t.slots) <= t.length <= |t.slots| / 2
            && (|t.slots| <= 16 || |t.slots| <= 4 * t.length)
            && t.moved <= 2 * t.length
  {
    SoundTable(Run(calls));
  }

  // The entries that the expansions of a run have carried over.
  function Carried(calls: seq<Call>): nat {
    if calls == [] then 0
    else
      var before := calls[..|calls| - 1];
      Carried(before) + (if |Run(calls).slots| != |Run(before).slots| then Load(Run(before).slots) else 0)
  }

  /** `moved` counts the entries carried over by all expansions. */
  lemma {:induction false} MovedIsCarried(calls: seq<Call>)
    ensures Run(calls).moved == Carried(calls)
  {
    if calls != [] {
      var before := calls[..|calls| - 1];
      MovedIsCarried(before);
      CallMoves(Run(before), calls[|calls| - 1]);
    }
  }

  lemma CallMoves(t: Table, c: Call)
    requires Sound(t)
    ensures var t' := Answer(t, c).0;
            t'.moved == t.moved + (if |t'.slots| != |t.slots| then Load(t.slots) else 0)
  {
    SoundTable(t);
    if c.SetCall? { SetMoves(t, c.key, c.value, c.callocOk, c.strdupOk); }
  }

  lemma SetMoves(t: Table, key: Key, value: Option<Pointer>, callocOk: bool, strdupOk: bool)
    requires Sound(t)
    ensures var t' := Set(t, key, value, callocOk, strdupOk).0;
            t'.moved == t.moved + (if |t'.slots| != |t.slots| then Load(t.slots) else 0)
  {
    WithRoomSound(t, callocOk);
    if value.Some? && WithRoom(t, callocOk).Some? {
      var u := WithRoom(t, callocOk).value;
      assert |Insert(u, key, value.value, strdupOk).0.slots| == |u.slots|;
    }
  }

  // The plain map after a call, given the map before it and the reply.
  function NextMap(m: map<Key, Pointer>, c: Call, r: Reply): map<Key, Pointer> {
    match (c, r)
    case (SetCall(k, Some(v), _, _), Stored(Some(_))) => m[k := v]
    case (RemoveCall(k), Gone(true)) => m - {k}
    case _ => m
  }

  // Each key with the value of its last successful ht_set, unless a successful ht_remove
  // came after it.
  function LastSet(calls: seq<Call>): map<Key, Pointer> {
    if calls == [] then map[]
    else NextMap(LastSet(calls[..|calls| - 1]), calls[|calls| - 1], LastReply(calls))
  }

  // The number of removals that reported success.
  function Removals(calls: seq<Call>): nat {
    if calls == [] then 0
    else Removals(calls[..|calls| - 1]) + (if LastReply(calls) == Gone(true) then 1 else 0)
  }

  // Every key was removed only when it was absent, or stored at or after its home with no
  // other probe path over its slot.
  predicate CleanRemovals(calls: seq<Call>) {
    calls == [] ||
    var n := |calls| - 1;
    var es := Run(calls[..n]).slots;
    && CleanRemovals(calls[..n])
    && (calls[n].RemoveCall? ==> HasEmpty(es) && CleanRemoval(es, calls[n].key))
  }

  // What a plain map replies to a call. The length alone differs: it also counts the `gone`
  // keys that were removed.
  predicate MapReplies(m: map<Key, Pointer>, gone: nat, c: Call, r: Reply) {
    match (c, r)
    case (SetCall(k, v, callocOk, strdupOk), Stored(r)) =>
      && (r.Some? ==> r.value == k && v.Some?)
      && (r.None? ==> v.None? || !callocOk || |m| + gone >= 0x4000_0000_0000_0000 || (k !in m && !strdupOk))
    case (GetCall(k), Got(v)) => v == Get(m, k)
    case (LengthCall, Count(c)) => c == |m| + gone
    case (RemoveCall(k), Gone(ok)) => ok <==> k in m
    case _ => false
  }

  ghost predicate Represents(t: Table, m: map<Key, Pointer>, gone: nat)
    requires Sound(t)
  {
    && WellFormed(t.slots) && Load(t.slots) == |m| && t.length == |m| + gone
    && forall k :: Lookup(t.slots, k) == Get(m, k)
  }

  /** In every run whose removals are clean the table is a map: every call replies as the map
      of last successful sets does, a set fails only for a NULL value, a failed allocation or
      a length of 2^62, and ht_length is too high by exactly the number of removals. */
  lemma {:induction false} RunIsMap(calls: seq<Call>)
    requires CleanRemovals(calls)
    ensures Represents(Run(calls), LastSet(calls), Removals(calls))
    ensures calls != [] ==>
              var before := calls[..|calls| - 1];
              MapReplies(LastSet(before), Removals(before), calls[|calls| - 1], LastReply(calls))
  {
    if calls == [] {
      FreshSound();
      LoadBlank(INITIAL_CAPACITY);
    } else {
      var n := |calls| - 1;
      RunIsMap(calls[..n]);
      StepIsMap(Run(calls[..n]), LastSet(calls[..n]), Removals(calls[..n]), calls[n]);
    }
  }

  // A call meets the map after it and the reply the map gives.
  ghost predicate MeetsMap(t: Table, m: map<Key, Pointer>, gone: nat, c: Call)
    requires Sound(t)
  {
    var (t', r) := Answer(t, c);
    && Sound(t')
    && Represents(t', NextMap(m, c, r), gone + (if r == Gone(true) then 1 else 0))
    && MapReplies(m, gone, c, r)
  }

  lemma SetMeetsMap(t: Table, m: map<Key, Pointer>, gone: nat, c: Call)
    requires Sound(t) && Represents(t, m, gone) && c.SetCall?
    ensures MeetsMap(t, m, gone, c)
  {
    SetIsMapUpdate(t, m, gone, c.key, c.value, c.callocOk, c.strdupOk);
    var (t', r) := Set(t, c.key, c.value, c.callocOk, c.strdupOk);
    assert Answer(t, c) == (t', Stored(r));
    assert NextMap(m, c, Stored(r)) == if r.Some? then m[c.key := c.value.value] else m;
  }

  lemma StepIsMap(t: Table, m: map<Key, Pointer>, gone: nat, c: Call)
    requires Sound(t) && Represents(t, m, gone)
    requires c.RemoveCall? ==> HasEmpty(t.slots) && CleanRemoval(t.slots, c.key)
    ensures MeetsMap(t, m, gone, c)
  {
    match c
    case SetCall(_, _, _, _) => SetMeetsMap(t, m, gone, c);
    case RemoveCall(k) =>
      RemoveIsMapRemove(t, m, gone, k);
      assert Answer(t, c).0 == Removed(t, k);
    case GetCall(k) =>
      SoundTable(t);
      assert Lookup(t.slots, k) == Get(m, k);
    case LengthCall =>
  }

  ghost predicate AnswersLike(t: Table, m: map<Key, Pointer>) {
    HasEmpty(t.slots) && forall k :: Lookup(t.slots, k) == Get(m, k)
  }

  // What a caller can see of a map: every reply was that of the map of last successful sets,
  // and after every call a get of any key would have been answered from that map.
  ghost predicate BehavesAsMap(calls: seq<Call>) {
    calls == [] ||
    var before := calls[..|calls| - 1];
    && BehavesAsMap(before)
    && MapReplies(LastSet(before), Removals(before), calls[|calls| - 1], LastReply(calls))
    && AnswersLike(Run(calls), LastSet(calls))
  }

  // A removal after which the answers are still those of the map was clean.
  lemma VisibleRemoval(t: Table, m: map<Key, Pointer>, gone: nat, k: Key)
    requires Sound(t) && Represents(t, m, gone)
    requires var (t', r) := Answer(t, RemoveCall(k));
             MapReplies(m, gone, RemoveCall(k), r) && AnswersLike(t', NextMap(m, RemoveCall(k), r))
    ensures HasEmpty(t.slots) && CleanRemoval(t.slots, k)
  {
    SoundTable(t);
    assert Lookup(t.slots, k) == Get(m, k);
    RemoveCorrectIff(t.slots, k);
  }

  /** A run behaves as a map exactly when its removals are clean. */
  lemma {:induction false} RunIsMapIff(calls: seq<Call>)
    ensures BehavesAsMap(calls) <==> CleanRemovals(calls)
  {
    if calls != [] {
      var n := |calls| - 1;
      RunIsMapIff(calls[..n]);
      if CleanRemovals(calls) {
        RunIsMap(calls);
        SoundTable(Run(calls));
      } else if BehavesAsMap(calls) && calls[n].RemoveCall? {
        RunIsMap(calls[..n]);
        VisibleRemoval(Run(calls[..n]), LastSet(calls[..n]), Removals(calls[..n]), calls[n].key);
      }
    }
  }

  /** Without removals ht_length is the number of distinct keys set. */
  lemma RunWithoutRemovals(calls: seq<Call>)
    requires forall i | 0 <= i < |calls| :: !calls[i].RemoveCall?
    ensures CleanRemovals(calls) && Removals(calls) == 0
    ensures Run(calls).length == |LastSet(calls)|
  {
    if calls != [] {
      RunWithoutRemovals(calls[..|calls| - 1]);
    }
    RunIsMap(calls);
  }

  lemma SetIsMapUpdate(t: Table, m: map<Key, Pointer>, gone: nat,
                       k: Key, v: Option<Pointer>, callocOk: bool, strdupOk: bool)
    requires Sound(t) && Represents(t, m, gone)
    ensures var (t', r) := Set(t, k, v, callocOk, strdupOk);
            && Sound(t')
            && (r.Some? ==> r.value == k && v.Some?)
            && Represents(t', if r.Some? then m[k := v.value] else m, gone)
            && (r.None? ==> v.None? || !callocOk || |m| + gone >= 0x4000_0000_0000_0000 || (k !in m && !strdupOk))
  {
    SetUpdates(t, k, v, callocOk, strdupOk);
    FullOnlyAtLimit(t, callocOk);
    assert Lookup(t.slots, k) == Get(m, k);
    if v.Some? { UpdateSize(m, k, v.value); }
  }

  lemma UpdateSize(m: map<Key, Pointer>, k: Key, v: Pointer)
    ensures |m[k := v]| == |m| + (if k in m then 0 else 1)
  {
    assert m[k := v].Keys == m.Keys + {k};
    AddKey(m.Keys, k);
    assert |m[k := v]| == |m[k := v].Keys| && |m| == |m.Keys|;
  }

  lemma RemoveIsMapRemove(t: Table, m: map<Key, Pointer>, gone: nat, k: Key)
    requires Sound(t) && Represents(t, m, gone) && HasEmpty(t.slots) && CleanRemoval(t.slots, k)
    ensures Sound(Removed(t, k)) && (Victim(t.slots, k).Some? <==> k in m)
    ensures if k in m then Represents(Removed(t, k), m - {k}, gone + 1) else Removed(t, k) == t
  {
    AnswerSound(t, RemoveCall(k));
    VictimIff(t.slots, k);
    RemoveSize(t.slots, k);
    assert Lookup(t.slots, k) == Get(m, k);
    if k in m {
      ClearForgetsIff(t.slots, StopSlot(t.slots, k));
      assert (m - {k}).Keys == m.Keys - {k};
    }
  }

  lemma FullOnlyAtLimit(t: Table, callocOk: bool)
    requires Sound(t)
    ensures NeedsRoom(t) && !CanExpand(t, callocOk) ==> !callocOk || t.length == 0x4000_0000_0000_0000
  {
    var n :| 4 <= n <= 63 && |t.slots| == Pow2(n);
    PowersOfTwo(n);
    if n < 63 {
      assert Pow2(n + 1) == 2 * Pow2(n);
      PowersOfTwo(n + 1);
    }
  }
}
