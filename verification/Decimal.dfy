/** Decimal numerals: what they denote, how they are printed, and Go's strconv.Atoi. */
module Decimal {
  import opened Wrappers

  const MAX_INT64: int := 0x7FFF_FFFF_FFFF_FFFF
  const MIN_INT64: int := -0x8000_0000_0000_0000

  // Addition of two `int` values on a 64-bit machine.
  function AddInt64(a: int, b: int): int {
    var sum := a + b;
    if sum > MAX_INT64 then sum - 0x1_0000_0000_0000_0000
    else if sum < MIN_INT64 then sum + 0x1_0000_0000_0000_0000
    else sum
  }

  predicate IsDigit(c: char) {
    '0' <= c <= '9'
  }

  predicate IsNumeral(s: string) {
    s != "" && forall i | 0 <= i < |s| :: IsDigit(s[i])
  }

  function Digit(c: char): nat
    requires IsDigit(c)
  {
    c as int - '0' as int
  }

  // The number the first `n` digits denote.
  function Prefix(s: string, n: nat): nat
    requires n <= |s| && forall i | 0 <= i < n :: IsDigit(s[i])
  {
    if n == 0 then 0 else 10 * Prefix(s, n - 1) + Digit(s[n - 1])
  }

  // The number a string of digits denotes.
  function Value(s: string): nat
    requires IsNumeral(s)
  {
    Prefix(s, |s|)
  }

  function Print(n: nat): (s: string) {
    var last := [('0' as int + n % 10) as char];
    if n < 10 then last else Print(n / 10) + last
  }

  // The verb %d.
  function PrintInt(n: int): string {
    if n < 0 then "-" + Print(-n) else Print(n)
  }

  lemma {:induction false} PrefixOf(s: string, t: string, n: nat)
    requires n <= |s| <= |t| && s[..n] == t[..n] && forall i | 0 <= i < n :: IsDigit(s[i])
    ensures forall i | 0 <= i < n :: IsDigit(t[i])
    ensures Prefix(s, n) == Prefix(t, n)
  {
    if n > 0 {
      assert s[..n - 1] == s[..n][..n - 1] == t[..n][..n - 1] == t[..n - 1];
      assert s[n - 1] == s[..n][n - 1] == t[n - 1];
      assert forall i | 0 <= i < n :: t[i] == t[..n][i] && s[i] == s[..n][i];
      PrefixOf(s, t, n - 1);
    }
  }

  /** What is printed is a numeral of the number printed. */
  lemma {:induction false} PrintValue(n: nat)
    ensures IsNumeral(Print(n)) && Value(Print(n)) == n
  {
    var last := ('0' as int + n % 10) as char;
    if n >= 10 {
      PrintValue(n / 10);
      var s, t := Print(n / 10), Print(n);
      assert t[..|s|] == s[..|s|] && t[|s|] == last;
      PrefixOf(s, t, |s|);
      assert Prefix(t, |t|) == 10 * Prefix(t, |s|) + Digit(last);
      assert Prefix(s, |s|) == n / 10;
    }
  }

  /** No number but zero is printed with a zero in front. */
  lemma {:induction false} NoLeadingZero(n: nat)
    ensures Print(n) != [] && (n > 0 ==> Print(n)[0] != '0')
    ensures n == 0 ==> Print(n) == "0"
  {
    if n >= 10 { NoLeadingZero(n / 10); }
  }

  // strconv.Atoi: an optional sign and digits, within the range of int64.
  function Atoi(s: string): Option<int> {
    var signed := s != "" && (s[0] == '+' || s[0] == '-');
    var digits := if signed then s[1..] else s;
    if !IsNumeral(digits) then None
    else
      var n: int := if signed && s[0] == '-' then 0 - Value(digits) else Value(digits);
      if MIN_INT64 <= n <= MAX_INT64 then Some(n) else None
  }

  /** Atoi reads back what %d has printed of a 64-bit number. */
  lemma PrintThenAtoi(n: int)
    requires MIN_INT64 <= n <= MAX_INT64
    ensures Atoi(PrintInt(n)) == Some(n)
  {
    PrintValue(if n < 0 then -n else n);
    var s := PrintInt(n);
    if n < 0 {
      assert s[1..] == Print(-n);
    } else {
      assert IsDigit(s[0]);
    }
  }
}
