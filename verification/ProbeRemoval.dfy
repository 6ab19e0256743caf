/**
 Removal writes no tombstone, does not wrap round and repairs no chain. This module says
 what it makes of the slots and exactly when that is a correct delete.
 */
module ProbeRemoval {
  import opened Fnv
  import opened Wrappers
  import opened ProbeTable

  // Where the scan of ht_remove, which never wraps, comes to rest; |es| when it runs off
  // the end.
  function Scan(es: Slots, key: Key, i: nat): (r: nat)
    requires i <= |es|
    ensures i <= r <= |es|
    ensures r < |es| ==> Stops(es, key, r)
    ensures forall j :: i <= j < r ==> !Stops(es, key, j)
    decreases |es| - i
  {
    if i == |es| || Stops(es, key, i) then i else Scan(es, key, i + 1)
  }

  // The slot that ht_remove clears, if any.
  function Victim(es: Slots, key: Key): (v: Option<nat>)
    requires |es| > 0
    ensures v.Some? ==> v.value < |es| && es[v.value].Full? && es[v.value].key == key
  {
    var i := Scan(es, key, Home(key, |es|));
    if i < |es| && es[i].Full? then Some(i) else None
  }

  function Remove(es: Slots, key: Key): Slots
    requires |es| > 0
  {
    match Victim(es, key)
    case Some(i) => es[i := Empty]
    case None => es
  }

  /** The victim is the key's own slot, and there is one exactly when the key is stored at or
      after its home: a key that wrapped round is not found. */
  lemma VictimIff(es: Slots, key: Key)
    requires WellFormed(es)
    ensures Victim(es, key) ==
            if Lookup(es, key).Some? && Home(key, |es|) <= StopSlot(es, key) then Some(StopSlot(es, key)) else None
  {
    var h, s, i := Home(key, |es|), StopSlot(es, key), Scan(es, key, Home(key, |es|));
    if i < |es| {
      StopFirst(es, key, i);
    }
    if h <= s {
      assert Stops(es, key, s) && !(s < i);
    }
  }

  // No key stored elsewhere has a probe path over slot `s`.
  predicate Uncrossed(es: Slots, s: nat)
    requires s < |es|
  {
    forall i | 0 <= i < |es| && i != s && es[i].Full? :: !Crosses(es[i].key, i, s, |es|)
  }

  ghost predicate Forgets(es: Slots, es': Slots, key: Key)
    requires HasEmpty(es) && HasEmpty(es')
  {
    forall k: Key :: Lookup(es', k) == if k == key then None else Lookup(es, k)
  }

  /** Clearing the slot of a stored key deletes that key and nothing else exactly when no
      other stored key's probe path crosses the slot, and just then the slots stay well formed. */
  lemma ClearForgetsIff(es: Slots, s: nat)
    requires WellFormed(es) && s < |es| && es[s].Full?
    ensures HasEmpty(es[s := Empty])
    ensures Forgets(es, es[s := Empty], es[s].key) <==> Uncrossed(es, s)
    ensures WellFormed(es[s := Empty]) <==> Uncrossed(es, s)
  {
    var es' := es[s := Empty];
    assert es'[s].Empty?;
    if Uncrossed(es, s) {
      ClearUncrossed(es, s);
    } else {
      var i :| 0 <= i < |es| && i != s && es[i].Full? && Crosses(es[i].key, i, s, |es|);
      ClearCrossed(es, s, i);
    }
  }

  lemma ClearUncrossed(es: Slots, s: nat)
    requires WellFormed(es) && s < |es| && es[s].Full? && Uncrossed(es, s)
    requires HasEmpty(es[s := Empty])
    ensures WellFormed(es[s := Empty]) && Forgets(es, es[s := Empty], es[s].key)
  {
    var es' := es[s := Empty];
    forall i | 0 <= i < |es'| && es'[i].Full? ensures StopSlot(es', es'[i].key) == i {
      var k := es[i].key;
      forall j | 0 <= j < |es'| && Stops(es', k, j)
        ensures Distance(Home(k, |es|), i, |es|) <= Distance(Home(k, |es|), j, |es|)
      {
        if j != s {
          assert Stops(es, k, j);
          StopFirst(es, k, j);
          assert StopSlot(es, es[i].key) == i;
        }
      }
      StopIs(es', k, i);
    }
    forall k: Key ensures Lookup(es', k) == if k == es[s].key then None else Lookup(es, k) {
      SameEntries(es, es', s, k);
    }
  }

  lemma SameEntries(es: Slots, es': Slots, s: nat, k: Key)
    requires WellFormed(es) && WellFormed(es')
    requires s < |es| && es[s].Full? && es' == es[s := Empty]
    ensures Lookup(es', k) == if k == es[s].key then None else Lookup(es, k)
  {
    if k != es[s].key && Lookup(es, k).Some? {
      assert es'[StopSlot(es, k)] == es[StopSlot(es, k)];
      assert StopSlot(es', es'[StopSlot(es, k)].key) == StopSlot(es, k);
    } else {
      forall i | 0 <= i < |es'| && es'[i].Full? ensures es'[i].key != k {
        assert StopSlot(es, es[i].key) == i && StopSlot(es, es[s].key) == s;
      }
      LookupAbsent(es', k);
    }
  }

  /** A stored key whose probe path crossed the cleared slot is lost to every later probe. */
  lemma ClearCrossed(es: Slots, s: nat, i: nat)
    requires WellFormed(es) && s < |es| && es[s].Full? && HasEmpty(es[s := Empty])
    requires i < |es| && i != s && es[i].Full? && Crosses(es[i].key, i, s, |es|)
    ensures es[i].key != es[s].key
    ensures Lookup(es, es[i].key) == Some(es[i].value) && Lookup(es[s := Empty], es[i].key) == None
    ensures !WellFormed(es[s := Empty])
  {
    var k, es' := es[i].key, es[s := Empty];
    assert StopSlot(es, k) == i && StopSlot(es, es[s].key) == s;
    forall j | 0 <= j < |es'| && Stops(es', k, j)
      ensures Distance(Home(k, |es|), s, |es|) <= Distance(Home(k, |es|), j, |es|)
    {
      if j != s {
        assert Stops(es, k, j);
        StopFirst(es, k, j);
      }
    }
    StopIs(es', k, s);
    assert es'[i].Full? && es'[i].key == k;
  }

  lemma DistanceNext(h: nat, i: nat, s: nat, capacity: nat)
    requires h < capacity && i < capacity && s < capacity && i != Next(s, capacity)
    ensures Distance(h, s, capacity) < Distance(h, i, capacity) ==>
            Distance(h, Next(s, capacity), capacity) < Distance(h, i, capacity)
  {
  }

  /** An empty cyclic successor is enough: then nothing crosses the slot. */
  lemma EmptySuccessor(es: Slots, s: nat)
    requires WellFormed(es) && s < |es|
    requires es[Next(s, |es|)].Empty?
    ensures Uncrossed(es, s)
  {
    assert Chained(es) by { WellFormedIffChained(es); }
    forall i | 0 <= i < |es| && i != s && es[i].Full? ensures !Crosses(es[i].key, i, s, |es|) {
      DistanceNext(Home(es[i].key, |es|), i, s, |es|);
      assert !Crosses(es[i].key, i, Next(s, |es|), |es|);
    }
  }

  // What a caller of a delete expects: it reports whether the key was there, and takes
  // that key and nothing else away.
  ghost predicate CorrectDelete(es: Slots, key: Key)
    requires WellFormed(es)
  {
    && (Victim(es, key).Some? <==> Lookup(es, key).Some?)
    && HasEmpty(Remove(es, key)) && Forgets(es, Remove(es, key), key)
  }

  // The key is absent, or stored at or after its home with no other probe path over its slot.
  predicate CleanRemoval(es: Slots, key: Key)
    requires HasEmpty(es)
  {
    var s := StopSlot(es, key);
    es[s].Empty? || (Home(key, |es|) <= s && Uncrossed(es, s))
  }

  /** ht_remove is a correct delete exactly when the removal is clean. */
  lemma RemoveCorrectIff(es: Slots, key: Key)
    requires WellFormed(es)
    ensures CorrectDelete(es, key) <==> CleanRemoval(es, key)
    ensures Victim(es, key).None? ==> Remove(es, key) == es
  {
    VictimIff(es, key);
    if Lookup(es, key).Some? {
      ClearForgetsIff(es, StopSlot(es, key));
    }
  }

  /** Removal never fills a slot, from any slots at all. */
  lemma RemoveSize(es: Slots, key: Key)
    requires HasEmpty(es)
    ensures HasEmpty(Remove(es, key)) && |Remove(es, key)| == |es|
    ensures Load(Remove(es, key)) == Load(es) - (if Victim(es, key).Some? then 1 else 0)
  {
    var v := Victim(es, key);
    if v.Some? {
      LoadUpdate(es, v.value, Empty);
      assert Remove(es, key)[v.value].Empty?;
    }
  }
}
