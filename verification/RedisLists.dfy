/** Redis lists as sequences, with the list commands the watcher uses. */
module RedisLists {

  predicate Distinct(s: seq<string>) {
    forall i, j :: 0 <= i < j < |s| ==> s[i] != s[j]
  }

  // LREM key 0 x: every occurrence goes.
  function Lrem(s: seq<string>, x: string): (r: seq<string>)
    ensures x !in r
    ensures forall y :: y != x ==> (y in r <==> y in s)
  {
    if s == [] then [] else if s[0] == x then Lrem(s[1..], x) else [s[0]] + Lrem(s[1..], x)
  }

  // RPUSH key x.
  function Rpush(s: seq<string>, x: string): seq<string> {
    s + [x]
  }

  lemma {:induction false} LremDistinct(s: seq<string>, x: string)
    requires Distinct(s)
    ensures Distinct(Lrem(s, x))
    ensures x !in s ==> Lrem(s, x) == s
  {
    if s != [] {
      LremDistinct(s[1..], x);
      assert s == [s[0]] + s[1..];
      assert s[0] !in s[1..];
    }
  }

  lemma LremOnly(x: string)
    ensures Lrem([x], x) == [] && Lrem([], x) == []
  {
    assert [x][1..] == [];
  }

  /** An RPUSH makes a duplicate exactly when the element is there already. */
  lemma RpushDistinctIff(s: seq<string>, x: string)
    requires Distinct(s)
    ensures Distinct(Rpush(s, x)) <==> x !in s
  {
    if x in s {
      var i :| 0 <= i < |s| && s[i] == x;
      assert Rpush(s, x)[i] == Rpush(s, x)[|s|];
    }
  }

  lemma SameMembers(a: seq<string>, b: seq<string>, x: string)
    requires multiset(a) == multiset(b)
    ensures x in a <==> x in b
  {
    assert x in a <==> x in multiset(a);
    assert x in b <==> x in multiset(b);
  }

  lemma {:induction false} DistinctCount(s: seq<string>, x: string)
    requires Distinct(s)
    ensures multiset(s)[x] == if x in s then 1 else 0
  {
    if s != [] {
      assert s == [s[0]] + s[1..] && s[0] !in s[1..];
      DistinctCount(s[1..], x);
    }
  }

  /** Two lists without duplicates and with the same elements are permutations of each other. */
  lemma SameElements(a: seq<string>, b: seq<string>)
    requires Distinct(a) && Distinct(b) && forall x :: x in a <==> x in b
    ensures multiset(a) == multiset(b) && |a| == |b|
  {
    forall x ensures multiset(a)[x] == multiset(b)[x] {
      DistinctCount(a, x);
      DistinctCount(b, x);
    }
    assert multiset(a) == multiset(b);
    assert |multiset(a)| == |a| && |multiset(b)| == |b|;
  }

  // -------------------------------------------------------------- several commands

  // DEL key, LREM key 0 x and RPUSH key x.
  datatype Command = Del | Remove(element: string) | Append(element: string)

  function Perform(list: seq<string>, c: Command): seq<string> {
    match c
    case Del => []
    case Remove(x) => Lrem(list, x)
    case Append(x) => Rpush(list, x)
  }

  function Replay(list: seq<string>, cs: seq<Command>): seq<string> {
    if cs == [] then list else Perform(Replay(list, cs[..|cs| - 1]), cs[|cs| - 1])
  }

  lemma ReplayMore(list: seq<string>, cs: seq<Command>, more: seq<Command>)
    requires |more| <= 1
    ensures Replay(list, cs + more) == if more == [] then Replay(list, cs) else Perform(Replay(list, cs), more[0])
  {
    if more == [] {
      assert cs + more == cs;
    } else {
      assert (cs + more)[..|cs|] == cs && (cs + more)[|cs|] == more[0];
    }
  }

  predicate Names(c: Command, x: string) {
    c.Del? || c.element == x
  }

  // The last command that names `x` is an RPUSH; `held` if none does.
  predicate HeldAfter(held: bool, cs: seq<Command>, x: string) {
    if cs == [] then held
    else if Names(cs[|cs| - 1], x) then cs[|cs| - 1].Append?
    else HeldAfter(held, cs[..|cs| - 1], x)
  }

  /** A list holds what the last command that named it pushed. */
  lemma {:induction false} ReplayHolds(list: seq<string>, cs: seq<Command>, x: string)
    ensures x in Replay(list, cs) <==> HeldAfter(x in list, cs, x)
  {
    if cs != [] { ReplayHolds(list, cs[..|cs| - 1], x); }
  }
}
