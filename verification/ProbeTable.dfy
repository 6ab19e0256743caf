/**
 The slots of the open-addressing table as a value: what a probe finds, what an
 insertion, a rehash and a removal make of the slots, and what each of them does to
 the answer of every later probe.
 */
module ProbeTable {
  import opened Fnv
  import opened Wrappers

  // A non-NULL `void*`.
  type Pointer = x: nat | x > 0 witness 1

  datatype Entry = Empty | Full(key: Key, value: Pointer)
  type Slots = seq<Entry>

  // ---------------------------------------------------------------- cyclic probing

  // The slot where the probe for a key starts.
  function Home(key: Key, capacity: nat): (i: nat)
    requires capacity > 0
    ensures i < capacity
  {
    Hash(key) % capacity
  }

  // The slot `d` steps after `h`, with wrap-around.
  function Slot(h: nat, d: nat, capacity: nat): (i: nat)
    requires h < capacity && d < capacity
    ensures i < capacity
  {
    if h + d < capacity then h + d else h + d - capacity
  }

  // The slot after `i`, with wrap-around.
  function Next(i: nat, capacity: nat): (j: nat)
    requires i < capacity
    ensures j < capacity
  {
    if i + 1 < capacity then i + 1 else 0
  }

  // The number of steps from `h` forward to `i`.
  function Distance(h: nat, i: nat, capacity: nat): (d: nat)
    requires h < capacity && i < capacity
    ensures d < capacity && Slot(h, d, capacity) == i
  {
    if h <= i then i - h else i + capacity - h
  }

  predicate Stops(es: Slots, key: Key, i: nat)
    requires i < |es|
  {
    es[i].Empty? || es[i].key == key
  }

  predicate HasEmpty(es: Slots) {
    exists i :: 0 <= i < |es| && es[i].Empty?
  }

  // How far from `h` the probe for a key that has already gone `d` steps comes to rest;
  // |es| when it goes all the way round.
  function FirstStop(es: Slots, key: Key, h: nat, d: nat): (r: nat)
    requires h < |es| && d <= |es|
    ensures d <= r <= |es|
    ensures forall e :: d <= e < r ==> !Stops(es, key, Slot(h, e, |es|))
    ensures r < |es| ==> Stops(es, key, Slot(h, r, |es|))
    decreases |es| - d
  {
    if d == |es| || Stops(es, key, Slot(h, d, |es|)) then d else FirstStop(es, key, h, d + 1)
  }

  // The slot where the probe for a key comes to rest.
  function StopSlot(es: Slots, key: Key): (i: nat)
    requires HasEmpty(es)
    ensures i < |es| && Stops(es, key, i)
  {
    var h := Home(key, |es|);
    var d := FirstStop(es, key, h, 0);
    assert d < |es| by {
      var e :| 0 <= e < |es| && es[e].Empty?;
      assert Stops(es, key, Slot(h, Distance(h, e, |es|), |es|));
    }
    Slot(h, d, |es|)
  }

  // What ht_get answers.
  function Lookup(es: Slots, key: Key): Option<Pointer>
    requires HasEmpty(es)
  {
    var e := es[StopSlot(es, key)];
    if e.Full? then Some(e.value) else None
  }

  /** A slot that stops the probe and that no earlier stop precedes is where it rests. */
  lemma StopIs(es: Slots, key: Key, i: nat)
    requires HasEmpty(es) && i < |es| && Stops(es, key, i)
    requires forall j | 0 <= j < |es| && Stops(es, key, j) ::
               Distance(Home(key, |es|), i, |es|) <= Distance(Home(key, |es|), j, |es|)
    ensures StopSlot(es, key) == i
  {
    var h := Home(key, |es|);
    var d, r := Distance(h, i, |es|), FirstStop(es, key, h, 0);
    assert Slot(h, d, |es|) == i;
    assert Distance(h, StopSlot(es, key), |es|) == r;
  }

  /** Nothing that would stop the probe lies before the slot where it rests. */
  lemma StopFirst(es: Slots, key: Key, j: nat)
    requires HasEmpty(es) && j < |es| && Stops(es, key, j)
    ensures Distance(Home(key, |es|), StopSlot(es, key), |es|) <= Distance(Home(key, |es|), j, |es|)
  {
    var h := Home(key, |es|);
    assert Slot(h, Distance(h, j, |es|), |es|) == j;
    assert Distance(h, StopSlot(es, key), |es|) == FirstStop(es, key, h, 0);
  }

  // ------------------------------------------------------------- well-formed slots

  // Every stored key is where its own probe rests.
  predicate WellFormed(es: Slots) {
    HasEmpty(es) && forall i | 0 <= i < |es| && es[i].Full? :: StopSlot(es, es[i].key) == i
  }

  predicate DistinctKeys(es: Slots) {
    forall i, j | 0 <= i < |es| && 0 <= j < |es| && es[i].Full? && es[j].Full? && es[i].key == es[j].key :: i == j
  }

  // The probe for `key` that ends at `i` passes over slot `s`.
  predicate Crosses(key: Key, i: nat, s: nat, capacity: nat)
    requires i < capacity && s < capacity
  {
    Distance(Home(key, capacity), s, capacity) < Distance(Home(key, capacity), i, capacity)
  }

  // No stored key has an empty slot between its home and the place it is stored at.
  predicate Chained(es: Slots) {
    forall i, s | 0 <= i < |es| && 0 <= s < |es| && es[i].Full? && Crosses(es[i].key, i, s, |es|) :: es[s].Full?
  }

  /** The two classic invariants of linear probing say the same as WellFormed. */
  lemma WellFormedIffChained(es: Slots)
    requires HasEmpty(es)
    ensures WellFormed(es) <==> DistinctKeys(es) && Chained(es)
  {
    if DistinctKeys(es) && Chained(es) {
      forall i | 0 <= i < |es| && es[i].Full? ensures StopSlot(es, es[i].key) == i {
        forall j | 0 <= j < |es| && Stops(es, es[i].key, j)
          ensures Distance(Home(es[i].key, |es|), i, |es|) <= Distance(Home(es[i].key, |es|), j, |es|)
        {
          assert !(Crosses(es[i].key, i, j, |es|) && es[j].Empty?);
        }
        StopIs(es, es[i].key, i);
      }
    }
    if WellFormed(es) {
      forall i, s | 0 <= i < |es| && 0 <= s < |es| && es[i].Full? && Crosses(es[i].key, i, s, |es|)
        ensures es[s].Full?
      {
        if es[s].Empty? { StopFirst(es, es[i].key, s); }
      }
    }
  }

  /** In well-formed slots a probe finds exactly what is stored. */
  lemma LookupIffStored(es: Slots, key: Key, value: Pointer)
    requires WellFormed(es)
    ensures Lookup(es, key) == Some(value) <==> Full(key, value) in es
  {
    if Full(key, value) in es {
      var i :| 0 <= i < |es| && es[i] == Full(key, value);
      assert StopSlot(es, es[i].key) == i;
    }
  }

  /** A probe for a key that is stored nowhere finds nothing, in any slots. */
  lemma LookupAbsent(es: Slots, key: Key)
    requires HasEmpty(es)
    requires forall i | 0 <= i < |es| && es[i].Full? :: es[i].key != key
    ensures Lookup(es, key) == None
  {
  }

  // ---------------------------------------------------------------------- occupancy

  function One(e: Entry): nat {
    if e.Full? then 1 else 0
  }

  // The number of occupied slots among the first `n`.
  function LoadTo(es: Slots, n: nat): nat
    requires n <= |es|
  {
    if n == 0 then 0 else LoadTo(es, n - 1) + One(es[n - 1])
  }

  // The number of occupied slots.
  function Load(es: Slots): nat {
    LoadTo(es, |es|)
  }

  lemma {:induction false} LoadToUpdate(es: Slots, i: nat, e: Entry, n: nat)
    requires i < |es| && n <= |es|
    ensures LoadTo(es[i := e], n) == LoadTo(es, n) + (if i < n then One(e) - One(es[i]) else 0)
  {
    if n > 0 {
      LoadToUpdate(es, i, e, n - 1);
    }
  }

  lemma LoadUpdate(es: Slots, i: nat, e: Entry)
    requires i < |es|
    ensures Load(es[i := e]) == Load(es) - One(es[i]) + One(e)
  {
    LoadToUpdate(es, i, e, |es|);
  }

  lemma {:induction false} LoadToSpare(es: Slots, n: nat)
    requires n <= |es|
    ensures LoadTo(es, n) <= n
    ensures LoadTo(es, n) < n <==> exists i :: 0 <= i < n && es[i].Empty?
  {
    if n > 0 {
      LoadToSpare(es, n - 1);
    }
  }

  /** Fewer occupied slots than slots leaves an empty one, at which every probe ends. */
  lemma SpareSlot(es: Slots)
    ensures Load(es) <= |es|
    ensures Load(es) < |es| <==> HasEmpty(es)
  {
    LoadToSpare(es, |es|);
  }

  lemma {:induction false} LoadToBlank(capacity: nat, n: nat)
    requires n <= capacity
    ensures LoadTo(Blank(capacity), n) == 0
  {
    if n > 0 {
      LoadToBlank(capacity, n - 1);
    }
  }

  lemma LoadBlank(capacity: nat)
    ensures Load(Blank(capacity)) == 0
  {
    LoadToBlank(capacity, capacity);
  }

  // ---------------------------------------------------------------------- insertion

  // What ht_set_entry makes of the slots when it writes.
  function SetEntry(es: Slots, key: Key, value: Pointer): Slots
    requires HasEmpty(es)
  {
    es[StopSlot(es, key) := Full(key, value)]
  }

  // The insertion overwrites an entry of the same key instead of filling an empty slot.
  predicate Present(es: Slots, key: Key)
    requires HasEmpty(es)
  {
    es[StopSlot(es, key)].Full?
  }

  lemma SetEntrySize(es: Slots, key: Key, value: Pointer)
    requires HasEmpty(es)
    ensures Load(SetEntry(es, key, value)) == Load(es) + (if Present(es, key) then 0 else 1)
  {
    LoadUpdate(es, StopSlot(es, key), Full(key, value));
  }

  /** Insertion keeps well-formed slots well formed and changes the answer for its key alone. */
  lemma SetEntryLookup(es: Slots, key: Key, value: Pointer)
    requires WellFormed(es) && HasEmpty(SetEntry(es, key, value))
    ensures var es' := SetEntry(es, key, value);
            && WellFormed(es')
            && forall k :: Lookup(es', k) == if k == key then Some(value) else Lookup(es, k)
  {
    var s, es' := StopSlot(es, key), SetEntry(es, key, value);
    forall i | 0 <= i < |es'| && es'[i].Full? ensures StopSlot(es', es'[i].key) == i {
      SetEntryStop(es, key, value, i);
    }
    forall k ensures Lookup(es', k) == if k == key then Some(value) else Lookup(es, k) {
      if k == key {
        assert StopSlot(es', es'[s].key) == s;
      } else if Lookup(es, k).Some? {
        var i := StopSlot(es, k);
        assert es'[i] == es[i];
        assert StopSlot(es', es'[i].key) == i;
      } else {
        forall i | 0 <= i < |es'| && es'[i].Full? ensures es'[i].key != k {
          if i != s && es[i].key == k { assert StopSlot(es, es[i].key) == i; }
        }
        LookupAbsent(es', k);
      }
    }
  }

  lemma SetEntryStop(es: Slots, key: Key, value: Pointer, i: nat)
    requires WellFormed(es) && HasEmpty(SetEntry(es, key, value))
    requires i < |es| && SetEntry(es, key, value)[i].Full?
    ensures StopSlot(SetEntry(es, key, value), SetEntry(es, key, value)[i].key) == i
  {
    var s, es' := StopSlot(es, key), SetEntry(es, key, value);
    var k := es'[i].key;
    assert StopSlot(es, k) == i;
    forall j | 0 <= j < |es'| && Stops(es', k, j)
      ensures Distance(Home(k, |es|), i, |es|) <= Distance(Home(k, |es|), j, |es|)
    {
      if j != i {
        assert Stops(es, k, j);
        StopFirst(es, k, j);
      }
    }
    StopIs(es', k, i);
  }

  // ------------------------------------------------------------------------- rehash

  function Blank(capacity: nat): (es: Slots)
    ensures |es| == capacity && forall i :: 0 <= i < capacity ==> es[i].Empty?
  {
    seq(capacity, _ => Empty)
  }

  // The new slots after the first `n` old slots have been moved over.
  function Rehash(es: Slots, n: nat, capacity: nat): (r: Slots)
    requires n <= |es| < capacity
    ensures |r| == capacity && HasEmpty(r) && Load(r) <= LoadTo(es, n) <= n
  {
    if n == 0 then
      LoadBlank(capacity);
      SpareSlot(Blank(capacity));
      Blank(capacity)
    else
      var r, e := Rehash(es, n - 1, capacity), es[n - 1];
      LoadToSpare(es, n);
      if e.Empty? then r
      else
        SetEntrySize(r, e.key, e.value);
        SpareSlot(SetEntry(r, e.key, e.value));
        SetEntry(r, e.key, e.value)
  }

  lemma RehashOne(es: Slots, i: nat, capacity: nat)
    requires i < |es| < capacity
    ensures var r := Rehash(es, i, capacity);
            Rehash(es, i + 1, capacity) == if es[i].Full? then SetEntry(r, es[i].key, es[i].value) else r
  {
  }

  // The value in the last of the first `n` slots that hold the key.
  function LastStored(es: Slots, n: nat, key: Key): Option<Pointer>
    requires n <= |es|
  {
    if n == 0 then None
    else if es[n - 1].Full? && es[n - 1].key == key then Some(es[n - 1].value)
    else LastStored(es, n - 1, key)
  }

  // The keys in the first `n` slots.
  function KeysOf(es: Slots, n: nat): set<Key>
    requires n <= |es|
  {
    if n == 0 then {} else KeysOf(es, n - 1) + (if es[n - 1].Full? then {es[n - 1].key} else {})
  }

  lemma RehashNext(es: Slots, n: nat, capacity: nat)
    requires 0 < n <= |es| < capacity && WellFormed(Rehash(es, n - 1, capacity))
    ensures var r, r' := Rehash(es, n - 1, capacity), Rehash(es, n, capacity);
            && WellFormed(r')
            && forall k :: Lookup(r', k) ==
                           if es[n - 1].Full? && k == es[n - 1].key then Some(es[n - 1].value) else Lookup(r, k)
  {
    if es[n - 1].Full? {
      var r, k, v := Rehash(es, n - 1, capacity), es[n - 1].key, es[n - 1].value;
      assert Rehash(es, n, capacity) == SetEntry(r, k, v);
      SetEntryLookup(r, k, v);
    }
  }

  /** Rehashing any slots, however broken their chains, yields well-formed ones, in which a
      key has the value of the last old slot that held it. */
  lemma {:induction false} RehashLookup(es: Slots, n: nat, capacity: nat)
    requires n <= |es| < capacity
    ensures var r := Rehash(es, n, capacity);
            && WellFormed(r)
            && forall k :: Lookup(r, k) == LastStored(es, n, k)
  {
    if n > 0 {
      RehashLookup(es, n - 1, capacity);
      RehashNext(es, n, capacity);
    }
  }

  lemma {:induction false} LastStoredSome(es: Slots, n: nat, key: Key)
    requires n <= |es|
    ensures LastStored(es, n, key).Some? <==> key in KeysOf(es, n)
  {
    if n > 0 {
      LastStoredSome(es, n - 1, key);
    }
  }

  lemma {:induction false} LastStoredWhere(es: Slots, n: nat, key: Key)
    requires n <= |es|
    ensures LastStored(es, n, key).Some? <==> exists i :: 0 <= i < n && es[i].Full? && es[i].key == key
    ensures LastStored(es, n, key).Some? ==> Full(key, LastStored(es, n, key).value) in es
  {
    if n > 0 {
      LastStoredWhere(es, n - 1, key);
    }
  }

  lemma AddKey(keys: set<Key>, key: Key)
    ensures |keys + {key}| == |keys| + (if key in keys then 0 else 1)
  {
    if key in keys { assert keys + {key} == keys; }
  }

  /** Well-formed slots answer the same after a rehash. */
  lemma RehashSameAnswers(es: Slots, capacity: nat)
    requires WellFormed(es) && |es| < capacity
    ensures var r := Rehash(es, |es|, capacity);
            WellFormed(r) && forall k :: Lookup(r, k) == Lookup(es, k)
  {
    RehashLookup(es, |es|, capacity);
    forall k ensures LastStored(es, |es|, k) == Lookup(es, k) {
      LastStoredWhere(es, |es|, k);
      match LastStored(es, |es|, k) {
        case Some(v) => LookupIffStored(es, k, v);
        case None => LookupAbsent(es, k);
      }
    }
  }

  // While moving entries over, a key is found again exactly if an earlier slot held it.
  lemma RehashPresent(es: Slots, n: nat, capacity: nat, key: Key)
    requires n <= |es| < capacity
    ensures Present(Rehash(es, n, capacity), key) <==> key in KeysOf(es, n)
  {
    assert Lookup(Rehash(es, n, capacity), key) == LastStored(es, n, key) by {
      RehashLookup(es, n, capacity);
    }
    LastStoredSome(es, n, key);
  }

  lemma MoveSize(r: Slots, r': Slots, keys: set<Key>, keys': set<Key>, e: Entry)
    requires HasEmpty(r) && Load(r) == |keys|
    requires r' == if e.Full? then SetEntry(r, e.key, e.value) else r
    requires keys' == keys + (if e.Full? then {e.key} else {})
    requires e.Full? ==> (Present(r, e.key) <==> e.key in keys)
    ensures Load(r') == |keys'|
  {
    if e.Full? {
      SetEntrySize(r, e.key, e.value);
      AddKey(keys, e.key);
    } else {
      assert keys' == keys;
    }
  }

  lemma RehashSizeStep(es: Slots, n: nat, capacity: nat)
    requires n < |es| < capacity
    requires Load(Rehash(es, n, capacity)) == |KeysOf(es, n)|
    ensures Load(Rehash(es, n + 1, capacity)) == |KeysOf(es, n + 1)|
  {
    var e, r := es[n], Rehash(es, n, capacity);
    if e.Full? {
      RehashPresent(es, n, capacity, e.key);
    }
    RehashOne(es, n, capacity);
    MoveSize(r, Rehash(es, n + 1, capacity), KeysOf(es, n), KeysOf(es, n + 1), e);
  }

  /** A rehash keeps one entry per distinct key of the old slots. */
  lemma {:induction false} RehashSize(es: Slots, n: nat, capacity: nat)
    requires n <= |es| < capacity
    ensures Load(Rehash(es, n, capacity)) == |KeysOf(es, n)|
  {
    if n == 0 {
      LoadBlank(capacity);
    } else {
      RehashSize(es, n - 1, capacity);
      RehashSizeStep(es, n - 1, capacity);
    }
  }

  /** With distinct keys there is one key per occupied slot. */
  lemma {:induction false} DistinctKeysSize(es: Slots, n: nat)
    requires n <= |es| && DistinctKeys(es)
    ensures |KeysOf(es, n)| == LoadTo(es, n)
  {
    if n > 0 {
      DistinctKeysSize(es, n - 1);
      if es[n - 1].Full? {
        LastStoredSome(es, n - 1, es[n - 1].key);
        LastStoredWhere(es, n - 1, es[n - 1].key);
        AddKey(KeysOf(es, n - 1), es[n - 1].key);
      }
    }
  }

  /** A rehash of well-formed slots overwrites nothing. */
  lemma RehashOverwritesNothing(es: Slots, capacity: nat)
    requires WellFormed(es) && |es| < capacity
    ensures Load(Rehash(es, |es|, capacity)) == Load(es)
  {
    WellFormedIffChained(es);
    DistinctKeysSize(es, |es|);
    RehashSize(es, |es|, capacity);
  }
}
