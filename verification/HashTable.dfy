/**
 The table as the code runs it: an array of entries, a capacity and a length that the
 calls update in place, each proved against the value-level effect of that call.
 */
module HashTable {
  import opened Fnv
  import opened Wrappers
  import opened ProbeTable
  import opened ProbeRemoval
  import opened TableRuns
  import opened Iteration

  // Where a probe that has not yet come to rest stands.
  ghost predicate ProbeAt(es: Slots, key: Key, index: nat, d: nat)
    requires |es| > 0
  {
    var h := Home(key, |es|);
    && d <= FirstStop(es, key, h, 0) && d < |es|
    && index == Slot(h, d, |es|)
  }

  /** The probe is within the slots, and it either rests where it stands or may go on. */
  lemma ProbeStep(es: Slots, key: Key, index: nat, d: nat)
    requires HasEmpty(es) && ProbeAt(es, key, index, d)
    ensures index < |es|
    ensures Stops(es, key, index) ==> index == StopSlot(es, key)
    ensures !Stops(es, key, index) ==> ProbeAt(es, key, Next(index, |es|), d + 1)
    ensures FirstStop(es, key, Home(key, |es|), 0) < |es|
  {
    var h := Home(key, |es|);
    var r := FirstStop(es, key, h, 0);
    assert Distance(h, StopSlot(es, key), |es|) <= |es| - 1;
    assert Stops(es, key, Slot(h, Distance(h, StopSlot(es, key), |es|), |es|));
    if d == r { StopIs(es, key, index) by {
      forall j | 0 <= j < |es| && Stops(es, key, j)
        ensures Distance(h, index, |es|) <= Distance(h, j, |es|)
      {
        assert Slot(h, Distance(h, j, |es|), |es|) == j;
      }
    } }
  }

  /** The internal insertion of ht_set_entry, on a table or on the blank slots of an
      expansion. With `copy` the key of a new entry is duplicated and counted; without it
      the key moves over as it is. */
  method InsertEntry(entries: array<Entry>, capacity: nat, key: Key, value: Pointer,
                     copy: bool, length: nat, strdupOk: bool)
    returns (stored: Option<Key>, newLength: nat)
    requires entries.Length == capacity && IsCapacity(capacity) && HasEmpty(entries[..])
    modifies entries
    ensures var es := old(entries[..]);
            if Present(es, key) || !copy || strdupOk then
              && stored == Some(key)
              && entries[..] == SetEntry(es, key, value)
              && newLength == length + (if copy && !Present(es, key) then 1 else 0)
            else
              stored == None && entries[..] == es && newLength == length
  {
    newLength := length;
    var hash := HashKey(key);
    MaskIsHome(key, capacity);
    var index: nat := And(hash, capacity - 1);
    ghost var es := entries[..];
    ghost var d: nat := 0;
    while index < capacity && entries[index].Full?
      invariant index < capacity && entries[..] == es && ProbeAt(es, key, index, d)
      decreases capacity - d
    {
      ProbeStep(es, key, index, d);
      if entries[index].key == key {
        entries[index] := Full(entries[index].key, value);
        assert entries[..] == es[index := Full(key, value)];
        return Some(entries[index].key), newLength;
      }
      index := index + 1;
      if index >= capacity {
        index := 0;
      }
      d := d + 1;
    }
    ProbeStep(es, key, index, d);
    if copy {
      if !strdupOk {
        return None, newLength;
      }
      newLength := newLength + 1;
    }
    entries[index] := Full(key, value);
    assert entries[..] == es[index := Full(key, value)];
    return Some(key), newLength;
  }

  /** The loop of ht_expand: every occupied slot of the old array is inserted into the new one. */
  method MoveEntries(entries: array<Entry>, capacity: nat, newEntries: array<Entry>, newCapacity: nat)
    requires entries.Length == capacity < newCapacity == newEntries.Length
    requires entries != newEntries && IsCapacity(newCapacity) && newEntries[..] == Blank(newCapacity)
    modifies newEntries
    ensures newEntries[..] == Rehash(entries[..], capacity, newCapacity)
  {
    ghost var es := entries[..];
    for i := 0 to capacity
      invariant newEntries[..] == Rehash(es, i, newCapacity)
    {
      var entry := entries[i];
      RehashOne(es, i, newCapacity);
      if entry.Full? {
        var _, _ := InsertEntry(newEntries, newCapacity, entry.key, entry.value, false, 0, true);
      }
    }
  }

  class Table {
    var entries: array<Entry>
    var capacity: nat
    var length: nat
    ghost var moved: nat

    ghost function State(): TableRuns.Table
      reads this, entries
    {
      TableRuns.Table(entries[..], length, moved)
    }

    ghost predicate Valid()
      reads this, entries
    {
      entries.Length == capacity && Sound(State())
    }

    constructor (slots: array<Entry>)
      requires slots.Length == INITIAL_CAPACITY && slots[..] == Blank(INITIAL_CAPACITY)
      ensures Valid() && State() == Fresh() && entries == slots
    {
      entries, capacity, length, moved := slots, INITIAL_CAPACITY, 0, 0;
      new;
      FreshSound();
    }

    method Get(key: Key) returns (value: Option<Pointer>)
      requires Valid()
      ensures HasEmpty(entries[..]) && value == Lookup(entries[..], key)
    {
      SoundTable(State());
      var hash := HashKey(key);
      MaskIsHome(key, capacity);
      var index: nat := And(hash, capacity - 1);
      ghost var es := entries[..];
      ghost var d: nat := 0;
      while entries[index].Full?
        invariant index < capacity && ProbeAt(es, key, index, d)
        decreases capacity - d
      {
        ProbeStep(es, key, index, d);
        if entries[index].key == key {
          return Some(entries[index].value);
        }
        index := index + 1;
        if index >= capacity {
          index := 0;
        }
        d := d + 1;
      }
      ProbeStep(es, key, index, d);
      return None;
    }

    method Expand(callocOk: bool) returns (ok: bool)
      requires Valid()
      modifies this
      ensures ok == CanExpand(old(State()), callocOk)
      ensures State() == if ok then Expanded(old(State())) else old(State())
      ensures entries.Length == capacity
      ensures fresh(entries) || entries == old(entries)
    {
      ghost var es := entries[..];
      SoundTable(State());
      var newCapacity := capacity * 2 % TWO_64;
      if newCapacity < capacity {
        return false;
      }
      if !callocOk {
        return false;
      }
      DoubledCapacity(capacity);
      var newEntries := new Entry[newCapacity](_ => Empty);
      assert newEntries[..] == Blank(newCapacity);
      MoveEntries(entries, capacity, newEntries, newCapacity);
      moved := moved + Load(es);
      entries := newEntries;
      capacity := newCapacity;
      return true;
    }

    method Set(key: Key, value: Option<Pointer>, callocOk: bool, strdupOk: bool) returns (stored: Option<Key>)
      requires Valid()
      modifies this, entries
      ensures Valid() && (State(), stored) == TableRuns.Set(old(State()), key, value, callocOk, strdupOk)
      ensures fresh(entries) || entries == old(entries)
    {
      ghost var before := State();
      WithRoomSound(before, callocOk);
      if value.None? {
        return None;
      }
      if length >= capacity / 2 {
        var expanded := Expand(callocOk);
        if !expanded {
          return None;
        }
      }
      ghost var u := State();
      assert WithRoom(before, callocOk) == Some(u);
      InsertSound(u, key, value.value, strdupOk);
      stored, length := InsertEntry(entries, capacity, key, value.value, true, length, strdupOk);
      assert (State(), stored) == Insert(u, key, value.value, strdupOk);
    }

    method Length() returns (n: nat)
      ensures n == length
    {
      return length;
    }

    method Remove(key: Key) returns (ok: bool)
      requires Valid()
      modifies entries
      ensures Valid() && State() == Removed(old(State()), key)
      ensures ok <==> Victim(old(entries[..]), key).Some?
    {
      ghost var es := entries[..];
      RemovedSound(State(), key);
      var hash := HashKey(key);
      MaskIsHome(key, capacity);
      var index: nat := And(hash, capacity - 1);
      while index < capacity && entries[index].Full?
        invariant index <= capacity && entries[..] == es
        invariant Scan(es, key, index) == Scan(es, key, Home(key, capacity))
        decreases capacity - index
      {
        if entries[index].key == key {
          entries[index] := Empty;
          assert entries[..] == es[index := Empty];
          return true;
        }
        index := index + 1;
      }
      return false;
    }
  }

  lemma DoubledCapacity(capacity: nat)
    requires IsCapacity(capacity) && capacity * 2 % TWO_64 >= capacity
    ensures capacity * 2 % TWO_64 == capacity * 2 && IsCapacity(capacity * 2)
  {
    var n :| 4 <= n <= 63 && capacity == Pow2(n);
    PowersOfTwo(n);
    assert capacity * 2 == Pow2(n + 1);
  }

  /** ht_create, or NULL if either allocation fails. */
  method Create(mallocOk: bool, callocOk: bool) returns (t: Table?)
    ensures t != null <==> mallocOk && callocOk
    ensures t != null ==> fresh(t) && fresh(t.entries) && t.Valid() && t.State() == Fresh()
  {
    if !mallocOk || !callocOk {
      return null;
    }
    var slots := new Entry[INITIAL_CAPACITY](_ => Empty);
    assert slots[..] == Blank(INITIAL_CAPACITY);
    t := new Table(slots);
  }

  // ------------------------------------------------------------------------ iterator

  const ANY_PAIR: (Key, Pointer) := ([], 1)

  class Iterator {
    var key: Option<Key>
    var value: Option<Pointer>
    var table: Table
    var index: nat

    constructor (table: Table)
      ensures this.table == table && index == 0
    {
      this.table, index, key, value := table, 0, None, None;
    }

    method Next() returns (more: bool)
      requires table.entries.Length == table.capacity && index <= table.capacity
      modifies this
      ensures table == old(table) && old(index) <= index <= table.capacity
      ensures more ==> key.Some? && value.Some?
      ensures Yields(old(Pending(table.entries[..], index)), Pending(table.entries[..], index), more,
                     if more then (key.value, value.value) else ANY_PAIR)
    {
      ghost var es := table.entries[..];
      while index < table.capacity
        invariant table == old(table) && old(index) <= index <= table.capacity
        invariant Pending(es, index) == Pending(es, old(index))
      {
        var i := index;
        index := index + 1;
        if table.entries[i].Full? {
          var entry := table.entries[i];
          key, value := Some(entry.key), Some(entry.value);
          return true;
        }
      }
      return false;
    }
  }

  /** The loop that ht.h describes: moving an iterator until there are no more items gives every
      pair of the table, in the order of the slots, and then the answer is false. */
  method Items(table: Table) returns (items: seq<(Key, Pointer)>)
    requires table.Valid()
    ensures items == Pending(table.entries[..], 0)
  {
    var it := new Iterator(table);
    ghost var es := table.entries[..];
    items := [];
    var more := it.Next();
    while more
      invariant fresh(it) && it.table == table && it.index <= |es| == table.capacity
      invariant more ==> it.key.Some? && it.value.Some?
      invariant Pending(es, 0) ==
                items + (if more then [(it.key.value, it.value.value)] else []) + Pending(es, it.index)
      invariant !more ==> Pending(es, it.index) == []
      decreases |Pending(es, it.index)| + (if more then 1 else 0)
    {
      items := items + [(it.key.value, it.value.value)];
      more := it.Next();
    }
  }
}
