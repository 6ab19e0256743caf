/**
 Two concrete families of runs in which ht_remove is not a correct delete, and the keys
 that witness them.
 */
module RemovalRuns {
  import opened Fnv
  import opened Wrappers
  import opened ProbeTable
  import opened ProbeRemoval
  import opened TableRuns

  function SetOk(key: Key, value: Pointer): Call {
    SetCall(key, Some(value), true, true)
  }

  function TwoSets(a: Key, v: Pointer, b: Key, w: Pointer): seq<Call> {
    [SetOk(a, v), SetOk(b, w)]
  }

  lemma Unroll(calls: seq<Call>, c: Call)
    ensures Run(calls + [c]) == Answer(Run(calls), c).0
    ensures LastReply(calls + [c]) == Answer(Run(calls), c).1
  {
    assert (calls + [c])[..|calls|] == calls;
  }

  // Where two keys with the same home end up in a fresh table.
  lemma TwoSetsSlots(a: Key, v: Pointer, b: Key, w: Pointer)
    requires a != b && Home(a, 16) == Home(b, 16)
    ensures var h := Home(a, 16);
            Run(TwoSets(a, v, b, w)) ==
            Table(Blank(16)[h := Full(a, v)][Next(h, 16) := Full(b, w)], 2, 0)
  {
    var h, none := Home(a, 16), Blank(16);
    var one := none[h := Full(a, v)];
    assert none[0].Empty? && one[Next(h, 16)].Empty?;
    StopIs(none, a, h);
    StopIs(one, b, Next(h, 16));
    Unroll([], SetOk(a, v));
    Unroll([SetOk(a, v)], SetOk(b, w));
    assert [] + [SetOk(a, v)] == [SetOk(a, v)];
    assert [SetOk(a, v)] + [SetOk(b, w)] == TwoSets(a, v, b, w);
  }

  lemma BothAreThere(a: Key, v: Pointer, b: Key, w: Pointer)
    requires a != b && Home(a, 16) == Home(b, 16)
    ensures var es := Run(TwoSets(a, v, b, w)).slots;
            && |es| == 16 && HasEmpty(es) && Lookup(es, b) == Some(w) && Victim(es, a) == Some(Home(a, 16))
  {
    var h := Home(a, 16);
    TwoSetsSlots(a, v, b, w);
    var es := Run(TwoSets(a, v, b, w)).slots;
    assert es[h] == Full(a, v) && es[Next(h, 16)] == Full(b, w);
    SoundTable(Run(TwoSets(a, v, b, w)));
    StopIs(es, b, Next(h, 16));
    assert Scan(es, a, h) == h;
  }

  /** Removing the first of two keys that share a home loses the second as well. */
  lemma RemoveLosesOther(a: Key, v: Pointer, b: Key, w: Pointer)
    requires a != b && Home(a, 16) == Home(b, 16)
    ensures var calls := TwoSets(a, v, b, w);
            && LastReply(calls + [GetCall(b)]) == Got(Some(w))
            && LastReply(calls + [RemoveCall(a)]) == Gone(true)
            && LastReply(calls + [RemoveCall(a)] + [GetCall(b)]) == Got(None)
  {
    var calls := TwoSets(a, v, b, w);
    BothAreThere(a, v, b, w);
    Unroll(calls, GetCall(b));
    Unroll(calls, RemoveCall(a));
    RemovedThenGet(calls, a, b);
  }

  lemma RemovedThenGet(calls: seq<Call>, a: Key, b: Key)
    requires a != b
    requires var es := Run(calls).slots;
             && |es| == 16 && Home(a, 16) == Home(b, 16)
             && Victim(es, a) == Some(Home(a, 16))
    ensures LastReply(calls + [RemoveCall(a)] + [GetCall(b)]) == Got(None)
  {
    Unroll(calls, RemoveCall(a));
    var t' := Run(calls + [RemoveCall(a)]);
    SoundTable(t');
    StopIs(t'.slots, b, Home(b, 16));
    Unroll(calls + [RemoveCall(a)], GetCall(b));
  }

  /** A key that wrapped past the end of the slots is there, yet ht_remove does not find it. */
  lemma RemoveMissesWrapped(a: Key, v: Pointer, b: Key, w: Pointer)
    requires a != b && Home(a, 16) == Home(b, 16) == 15
    ensures var calls := TwoSets(a, v, b, w);
            && LastReply(calls + [GetCall(b)]) == Got(Some(w))
            && LastReply(calls + [RemoveCall(b)]) == Gone(false)
  {
    var calls := TwoSets(a, v, b, w);
    TwoSetsSlots(a, v, b, w);
    var es := Run(calls).slots;
    SoundTable(Run(calls));
    StopIs(es, b, 0);
    Unroll(calls, GetCall(b));
    Unroll(calls, RemoveCall(b));
    assert Scan(es, b, 16) == 16;
  }

  function Doubled(t: int, times: nat): int {
    if times == 0 then t else 2 * Doubled(t, times - 1)
  }

  lemma FourTimes(t: int)
    ensures Doubled(t, 4) == 16 * t
  {
    assert Doubled(t, 1) == 2 * t;
    assert Doubled(t, 2) == 4 * t;
    assert Doubled(t, 3) == 8 * t;
  }

  lemma SameParity(a: nat, b: nat, c: nat, e: int)
    requires b == c + 2 * e
    ensures b / 2 == c / 2 + e && (a + b) % 2 == (a + c) % 2
  {
  }

  /** The low bits of an exclusive or depend on the low bits alone: operands that differ by a
      multiple of a power of two give results that do. */
  lemma {:induction false} XorNear(a: nat, b: nat, c: nat, d: int, times: nat) returns (t: int)
    requires b == c + Doubled(d, times)
    ensures Xor(a, b) == Xor(a, c) + Doubled(t, times)
  {
    if times == 0 {
      t := Xor(a, b) - Xor(a, c);
    } else {
      SameParity(a, b, c, Doubled(d, times - 1));
      XorHalves(a, b);
      XorHalves(a, c);
      t := XorNear(a / 2, b / 2, c / 2, d, times - 1);
    }
  }

  lemma ProductLow(q: int, r: nat, y: nat, k: nat)
    requires (16 * q + r) * FNV_PRIME == TWO_64 * k + y
    ensures y % 16 == 3 * r % 16
  {
    SameResidue(y, q * FNV_PRIME + r * 68719476763 - k * 0x1000_0000_0000_0000, 3 * r);
  }

  lemma SameResidue(y: nat, t: int, z: nat)
    requires y == 16 * t + z
    ensures y % 16 == z % 16
  {
  }

  lemma OneByteHash(c: Octet)
    ensures Hash([c]) == Mix(FNV_OFFSET, c)
  {
    var key: Key := [c];
    assert key[1..] == [] && HashFrom(Mix(FNV_OFFSET, c), []) == Mix(FNV_OFFSET, c);
  }

  /** In a table of 16 slots the home of a one-byte key depends on its low four bits alone. */
  lemma OneByteHome(v: nat, n: nat)
    requires n < 16 && 1 <= 16 * v + n < 256
    ensures Home([16 * v + n], 16) == 3 * Xor(FNV_OFFSET, n) % 16
  {
    var c: Octet := 16 * v + n;
    FourTimes(v);
    var t := XorNear(FNV_OFFSET, c, n, v, 4);
    FourTimes(t);
    OneByteHash(c);
    MixLow(FNV_OFFSET, c, t, Xor(FNV_OFFSET, n));
  }

  lemma MixLow(h: Word, c: Octet, q: int, r: nat)
    requires Xor(h, c) == 16 * q + r
    ensures Mix(h, c) % 16 == 3 * r % 16
  {
    var x := Xor(h, c);
    ProductLow(q, r, Mix(h, c), x * FNV_PRIME / TWO_64);
  }

  lemma OneByteClash(v: nat, w: nat, n: nat)
    requires n < 16 && v != w && 1 <= 16 * v + n < 256 && 1 <= 16 * w + n < 256
    ensures [16 * v + n] != [16 * w + n] && Home([16 * v + n], 16) == Home([16 * w + n], 16)
  {
    assert [16 * v + n][0] != [16 * w + n][0];
    OneByteHome(v, n);
    OneByteHome(w, n);
  }

  lemma TripleOfFive(x: nat)
    requires x % 16 == 5
    ensures 3 * x % 16 == 15
  {
    SameResidue(3 * x, 3 * (x / 16), 15);
  }

  lemma LastSlot(v: nat, none: nat)
    requires none == 0 && 1 <= 16 * v + none < 256
    ensures Home([16 * v + none], 16) == 15
  {
    OneByteHome(v, none);
    XorZero(FNV_OFFSET);
    TripleOfFive(FNV_OFFSET);
  }

  /** Such runs exist: setting "a" and "q" and removing "a" loses "q"; after setting "`" and
      "p", "p" is there but cannot be removed. */
  lemma RemoveIsNotDelete(v: Pointer, w: Pointer)
    ensures exists calls: seq<Call>, a: Key, b: Key ::
              && a != b && LastReply(calls + [GetCall(b)]) == Got(Some(w))
              && LastReply(calls + [RemoveCall(a)] + [GetCall(b)]) == Got(None)
    ensures exists calls: seq<Call>, b: Key ::
              && LastReply(calls + [GetCall(b)]) == Got(Some(w))
              && LastReply(calls + [RemoveCall(b)]) == Gone(false)
  {
    var six, seven, one, zero := 6, 7, 1, 0;
    var a: Octet, q: Octet := 16 * six + one, 16 * seven + one;
    var g: Octet, p: Octet := 16 * six + zero, 16 * seven + zero;
    OneByteClash(six, seven, one);
    RemoveLosesOther([a], v, [q], w);
    OneByteClash(six, seven, zero);
    LastSlot(six, zero);
    RemoveMissesWrapped([g], v, [p], w);
  }

  // ----------------------------------------------------------- counted after removal

  /** ht_length counts a key that has been removed: it says one where nothing can be found. */
  lemma LengthTooHigh(a: Key, v: Pointer)
    ensures var calls := [SetOk(a, v), RemoveCall(a)];
            && LastReply(calls) == Gone(true) && LastReply(calls + [LengthCall]) == Count(1)
            && forall k: Key :: LastReply(calls + [GetCall(k)]) == Got(None)
  {
    var calls, h, none := [SetOk(a, v), RemoveCall(a)], Home(a, 16), Blank(16);
    OneSetSlots(a, v);
    Unroll([SetOk(a, v)], RemoveCall(a));
    assert [SetOk(a, v)] + [RemoveCall(a)] == calls;
    assert Scan(none[h := Full(a, v)], a, h) == h;
    assert none[h := Full(a, v)][h := Empty] == none;
    Unroll(calls, LengthCall);
    forall k: Key ensures LastReply(calls + [GetCall(k)]) == Got(None) {
      Unroll(calls, GetCall(k));
      SoundTable(Run(calls));
      LookupAbsent(none, k);
    }
  }

  lemma OneSetSlots(a: Key, v: Pointer)
    ensures Run([SetOk(a, v)]) == Table(Blank(16)[Home(a, 16) := Full(a, v)], 1, 0)
  {
    assert Blank(16)[0].Empty?;
    StopIs(Blank(16), a, Home(a, 16));
    Unroll([], SetOk(a, v));
    assert [] + [SetOk(a, v)] == [SetOk(a, v)];
  }

  // ------------------------------------------------------------ an old value returns

  // Sets `b` behind `a`, frees the slot of `a`, and sets `b` again, into that slot.
  function SetTwice(a: Key, v: Pointer, b: Key, o: Pointer, w: Pointer): seq<Call> {
    TwoSets(a, v, b, o) + [RemoveCall(a)] + [SetOk(b, w)]
  }

  // The slots with both values of `b`.
  function BothValues(h: nat, b: Key, o: Pointer, w: Pointer): (es: Slots)
    requires h <= 13
    ensures |es| == 16 && HasEmpty(es) && es[h] == Full(b, w) && es[h + 1] == Full(b, o)
    ensures forall i | 0 <= i < 16 && i != h && i != h + 1 :: es[i].Empty?
  {
    var es := Blank(16)[h := Full(b, w)][h + 1 := Full(b, o)];
    assert es[h + 2].Empty?;
    es
  }

  lemma SlotFreed(a: Key, v: Pointer, b: Key, o: Pointer)
    requires a != b && Home(a, 16) == Home(b, 16) <= 13
    ensures var h := Home(a, 16);
            Run(TwoSets(a, v, b, o) + [RemoveCall(a)]) == Table(Blank(16)[h + 1 := Full(b, o)], 2, 0)
  {
    var calls, h := TwoSets(a, v, b, o), Home(a, 16);
    TwoSetsSlots(a, v, b, o);
    var es := Run(calls).slots;
    assert Scan(es, a, h) == h;
    Unroll(calls, RemoveCall(a));
    assert es[h := Empty] == Blank(16)[h + 1 := Full(b, o)];
  }

  lemma SetTwiceSlots(a: Key, v: Pointer, b: Key, o: Pointer, w: Pointer)
    requires a != b && Home(a, 16) == Home(b, 16) <= 13
    ensures Run(SetTwice(a, v, b, o, w)) == Table(BothValues(Home(a, 16), b, o, w), 3, 0)
    ensures Get(LastSet(SetTwice(a, v, b, o, w)), b) == Some(w)
  {
    var calls, h := TwoSets(a, v, b, o) + [RemoveCall(a)], Home(a, 16);
    SlotFreed(a, v, b, o);
    var es := Blank(16)[h + 1 := Full(b, o)];
    assert es[h].Empty?;
    StopIs(es, b, h);
    Unroll(calls, SetOk(b, w));
    assert es[h := Full(b, w)] == BothValues(h, b, o, w);
    LastSetNext(calls, SetOk(b, w));
  }

  lemma LastSetNext(calls: seq<Call>, c: Call)
    ensures LastSet(calls + [c]) == NextMap(LastSet(calls), c, LastReply(calls + [c]))
  {
    assert (calls + [c])[..|calls|] == calls;
  }

  lemma SetBehind(t: Table, a: Key, v: Pointer, b: Key, o: Pointer, w: Pointer)
    requires a != b && Home(a, 16) == Home(b, 16) <= 13
    requires t.slots == BothValues(Home(a, 16), b, o, w) && Sound(t) && t.length < 8
    ensures var h := Home(a, 16);
            Set(t, a, Some(v), true, true).0 == Table(t.slots[h + 2 := Full(a, v)], t.length + 1, t.moved)
  {
    StopIs(t.slots, a, Home(a, 16) + 2);
  }

  lemma RemoveBehind(t: Table, a: Key, v: Pointer, b: Key, o: Pointer, w: Pointer)
    requires a != b && Home(a, 16) == Home(b, 16) <= 13
    requires t.slots == BothValues(Home(a, 16), b, o, w)[Home(a, 16) + 2 := Full(a, v)]
    ensures Removed(t, a) == t.(slots := BothValues(Home(a, 16), b, o, w))
  {
    var h := Home(a, 16);
    assert Scan(t.slots, a, h + 2) == h + 2;
    assert Scan(t.slots, a, h + 1) == h + 2;
    assert Scan(t.slots, a, h) == h + 2;
    assert t.slots[h + 2 := Empty] == BothValues(h, b, o, w);
  }

  lemma SetSlots(calls: seq<Call>, a: Key, v: Pointer, b: Key, o: Pointer, w: Pointer)
    requires a != b && Home(a, 16) == Home(b, 16) <= 13
    requires var t := Run(calls); t.slots == BothValues(Home(a, 16), b, o, w) && t.length < 8
    ensures var t, h := Run(calls), Home(a, 16);
            Run(calls + [SetOk(a, v)]) == Table(t.slots[h + 2 := Full(a, v)], t.length + 1, t.moved)
  {
    SetBehind(Run(calls), a, v, b, o, w);
    Unroll(calls, SetOk(a, v));
  }

  // `a` is set and removed: the slots are as before, and one more key is counted.
  lemma ChurnOnce(calls: seq<Call>, a: Key, v: Pointer, b: Key, o: Pointer, w: Pointer) returns (longer: seq<Call>)
    requires a != b && Home(a, 16) == Home(b, 16) <= 13
    requires var t := Run(calls); t.slots == BothValues(Home(a, 16), b, o, w) && t.length < 8
    ensures Run(longer) == Run(calls).(length := Run(calls).length + 1)
    ensures Get(LastSet(longer), b) == Get(LastSet(calls), b)
  {
    longer := calls + [SetOk(a, v)] + [RemoveCall(a)];
    SetSlots(calls, a, v, b, o, w);
    RemoveBehind(Run(calls + [SetOk(a, v)]), a, v, b, o, w);
    Unroll(calls + [SetOk(a, v)], RemoveCall(a));
    OtherKey(calls, SetOk(a, v), b);
    OtherKey(calls + [SetOk(a, v)], RemoveCall(a), b);
  }

  lemma ChurnTwice(calls: seq<Call>, a: Key, v: Pointer, b: Key, o: Pointer, w: Pointer) returns (longer: seq<Call>)
    requires a != b && Home(a, 16) == Home(b, 16) <= 13
    requires var t := Run(calls); t.slots == BothValues(Home(a, 16), b, o, w) && t.length < 7
    ensures Run(longer) == Run(calls).(length := Run(calls).length + 2)
    ensures Get(LastSet(longer), b) == Get(LastSet(calls), b)
  {
    longer := ChurnOnce(calls, a, v, b, o, w);
    longer := ChurnOnce(longer, a, v, b, o, w);
  }

  // Calls on `a` leave the last set of `b` alone.
  lemma OtherKey(calls: seq<Call>, c: Call, b: Key)
    requires (c.SetCall? || c.RemoveCall?) && c.key != b
    ensures Get(LastSet(calls + [c]), b) == Get(LastSet(calls), b)
  {
    LastSetNext(calls, c);
  }

  lemma {:induction false} LastStoredIs(es: Slots, n: nat, i: nat, key: Key, value: Pointer)
    requires i < n <= |es| && es[i] == Full(key, value)
    requires forall j | i < j < n :: es[j].Empty?
    ensures LastStored(es, n, key) == Some(value)
  {
    if n > i + 1 { LastStoredIs(es, n - 1, i, key, value); }
  }

  // The expansion of a full table that holds both values keeps the older one.
  lemma ExpansionPicksOld(t: Table, a: Key, v: Pointer, b: Key, o: Pointer, w: Pointer)
    requires a != b && Home(b, 16) <= 13 && Sound(t) && t.length == 8
    requires t.slots == BothValues(Home(b, 16), b, o, w)
    ensures var t' := Set(t, a, Some(v), true, true).0;
            Sound(t') && HasEmpty(t'.slots) && Lookup(t'.slots, b) == Some(o)
  {
    ExpansionRepairs(t, true);
    LastStoredIs(t.slots, 16, Home(b, 16) + 1, b, o);
    WithRoomSound(t, true);
    InsertUpdates(Expanded(t), a, v, true);
    SoundTable(Set(t, a, Some(v), true, true).0);
  }

  // Both values of `b` are in the slots, the table is full, and `b` was last set to `w`.
  lemma FullOfRemoved(a: Key, v: Pointer, b: Key, o: Pointer, w: Pointer) returns (calls: seq<Call>)
    requires a != b && Home(a, 16) == Home(b, 16) <= 13
    ensures Run(calls) == Table(BothValues(Home(b, 16), b, o, w), 8, 0) && Get(LastSet(calls), b) == Some(w)
  {
    calls := SetTwice(a, v, b, o, w);
    SetTwiceSlots(a, v, b, o, w);
    calls := ChurnTwice(calls, a, v, b, o, w);
    calls := ChurnTwice(calls, a, v, b, o, w);
    calls := ChurnOnce(calls, a, v, b, o, w);
  }

  /** Removals can bring an old value back: `b` was last set to `w`, and answers that, until one
      more key is set; that expands the table, and `b` answers the older `o`. */
  lemma OldValueReturns(a: Key, v: Pointer, b: Key, o: Pointer, w: Pointer) returns (calls: seq<Call>)
    requires a != b && Home(a, 16) == Home(b, 16) <= 13
    ensures Get(LastSet(calls + [SetOk(a, v)]), b) == Some(w)
    ensures LastReply(calls + [GetCall(b)]) == Got(Some(w))
    ensures LastReply(calls + [SetOk(a, v)] + [GetCall(b)]) == Got(Some(o))
  {
    calls := FullOfRemoved(a, v, b, o, w);
    OtherKey(calls, SetOk(a, v), b);
    StopIs(Run(calls).slots, b, Home(b, 16));
    Unroll(calls, GetCall(b));
    ExpansionPicksOld(Run(calls), a, v, b, o, w);
    Unroll(calls, SetOk(a, v));
    Unroll(calls + [SetOk(a, v)], GetCall(b));
  }

  lemma XorOne(a: nat, one: nat)
    requires one == 1 && a % 2 == 1
    ensures Xor(a, one) == a - 1
  {
    XorHalves(a, one);
    XorZero(a / 2);
  }

  lemma LowOfOne(x: nat, one: nat)
    requires one == 1 && x % 16 == 5
    ensures 3 * Xor(x, one) % 16 == 12
  {
    assert x == 16 * (x / 16) + 5;
    XorOne(x, one);
    SameResidue(3 * (x - 1), 3 * (x / 16), 12);
  }

  lemma TwelfthSlot(v: nat, one: nat)
    requires one == 1 && 1 <= 16 * v + one < 256
    ensures Home([16 * v + one], 16) == 12
  {
    OneByteHome(v, one);
    LowOfOne(FNV_OFFSET, one);
  }

  /** It happens with the keys "a" and "q". */
  lemma OldValueOfQ(v: Pointer, o: Pointer, w: Pointer)
    ensures exists calls: seq<Call>, c: Call, q: Key ::
              && LastReply(calls + [GetCall(q)]) == Got(Some(w)) && Get(LastSet(calls + [c]), q) == Some(w)
              && LastReply(calls + [c] + [GetCall(q)]) == Got(Some(o))
  {
    var six, seven, one := 6, 7, 1;
    var a: Key, q: Key := [16 * six + one], [16 * seven + one];
    TwelfthSlot(six, one);
    TwelfthSlot(seven, one);
    assert a[0] != q[0];
    var calls := OldValueReturns(a, v, q, o, w);
    var c := SetOk(a, v);
    assert LastReply(calls + [GetCall(q)]) == Got(Some(w)) && LastReply(calls + [c] + [GetCall(q)]) == Got(Some(o));
  }
}
