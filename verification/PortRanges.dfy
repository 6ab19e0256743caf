/**
 The port-range notation: "port", "min-max" and "min+offset", its parser, its printer and
 the loop that serves the ports of a range.
 */
module PortRanges {
  import opened Wrappers
  import opened Decimal
  import opened GoStrings

  datatype Error = NotANumber | BothNotations | PortTooLarge | EndBeforeStart
  datatype Outcome = Accepted(base: int, size: int) | Rejected(error: Error)

  // What the code computes, notation by notation.
  function Bounds(low: Option<int>, high: Option<int>): Outcome {
    if low.None? || high.None? then Rejected(NotANumber)
    else if low.value > 65535 || high.value > 65535 then Rejected(PortTooLarge)
    else if high.value < low.value then Rejected(EndBeforeStart)
    else Accepted(low.value, 1 + high.value - low.value)
  }

  // The upper end of the plus notation, in 64-bit arithmetic.
  function Upper(low: Option<int>, offset: Option<int>): Option<int> {
    if low.Some? && offset.Some? then Some(AddInt64(low.value, offset.value)) else None
  }

  function Parse(value: string): Outcome {
    ParseTrimmed(TrimSpace(value))
  }

  // The two ends that a string without surrounding blanks names, as far as they are numbers.
  datatype EndsOf = BothSigns | Ends(low: Option<int>, high: Option<int>)

  function Ends(v: string): EndsOf {
    var hyphen, plus := IndexOf(v, '-'), IndexOf(v, '+');
    if hyphen == -1 && plus == -1 then EndsOf.Ends(Atoi(v), Atoi(v))
    else if plus == -1 then EndsOf.Ends(Atoi(v[..hyphen]), Atoi(v[hyphen + 1..]))
    else if hyphen == -1 then
      EndsOf.Ends(Atoi(v[..plus]), Upper(Atoi(v[..plus]), Atoi(v[plus + 1..])))
    else BothSigns
  }

  function ParseTrimmed(v: string): Outcome {
    if v == "" then Accepted(0, 0)
    else
      match Ends(v)
      case BothSigns => Rejected(BothNotations)
      case Ends(low, high) => Bounds(low, high)
  }

  class PortRange {
    var base: int
    var size: int

    constructor ()
      ensures base == 0 && size == 0
    {
      base, size := 0, 0;
    }

    predicate Contains(p: int)
      reads this
    {
      p >= base && p - base < size
    }

    function String(): string
      reads this
    {
      Format(base, size)
    }

    /** Parses a range in place; a rejected string leaves the range as it was. */
    method Set(value: string) returns (error: Option<Error>)
      modifies this
      ensures match Parse(value)
              case Accepted(b, s) => error == None && base == b && size == s
              case Rejected(e) => error == Some(e) && base == old(base) && size == old(size)
    {
      var v := TrimSpace(value);
      error := SetTrimmed(v);
    }

    /** The part of Set after the blanks are trimmed. */
    method SetTrimmed(v: string) returns (error: Option<Error>)
      modifies this
      ensures match ParseTrimmed(v)
              case Accepted(b, s) => error == None && base == b && size == s
              case Rejected(e) => error == Some(e) && base == old(base) && size == old(size)
    {
      if v == "" {
        base, size := 0, 0;
        return None;
      }
      var low, high;
      low, high, error := ReadBounds(v);
      if error.Some? {
        return;
      }
      if low > 65535 || high > 65535 {
        return Some(PortTooLarge);
      }
      if high < low {
        return Some(EndBeforeStart);
      }
      base, size := low, 1 + high - low;
    }
  }

  /** The two ends of the range by the grammar of the notations; an error exactly when the string
      has both separators, or names no two ends that fit into 64 bits. */
  method ReadBounds(v: string) returns (low: int, high: int, error: Option<Error>)
    ensures error == Some(BothNotations) <==> '-' in v && '+' in v
    ensures error == None ==> Reads(v, low, high)
    ensures error == Some(NotANumber) ==> !exists l, h :: Reads(v, l, h)
    ensures error == None || error == Some(BothNotations) || error == Some(NotANumber)
    ensures match Ends(v)
            case BothSigns => error == Some(BothNotations)
            case Ends(l, h) => if l.None? || h.None? then error == Some(NotANumber)
                               else error == None && low == l.value && high == h.value
  {
    EndsRead(v);
    low, high, error := 0, 0, None;
    var hyphenIndex := IndexOf(v, '-');
    var plusIndex := IndexOf(v, '+');
    if plusIndex == -1 && hyphenIndex == -1 {
      var port := Atoi(v);
      if port.None? {
        error := Some(NotANumber);
        return;
      }
      low, high := port.value, port.value;
    } else if plusIndex == -1 {
      var first := Atoi(v[..hyphenIndex]);
      if first.None? {
        error := Some(NotANumber);
        return;
      }
      var second := Atoi(v[hyphenIndex + 1..]);
      if second.None? {
        error := Some(NotANumber);
        return;
      }
      low, high := first.value, second.value;
    } else if hyphenIndex == -1 {
      var first := Atoi(v[..plusIndex]);
      if first.None? {
        error := Some(NotANumber);
        return;
      }
      var offset := Atoi(v[plusIndex + 1..]);
      if offset.None? {
        error := Some(NotANumber);
        return;
      }
      low, high := first.value, AddInt64(first.value, offset.value);
    } else {
      error := Some(BothNotations);
    }
  }

  /** A new range from a string, or the error of Set. */
  method ParsePortRange(value: string) returns (range: PortRange?, error: Option<Error>)
    ensures match Parse(value)
            case Accepted(b, s) => error == None && range != null && fresh(range) && range.base == b && range.size == s
            case Rejected(e) => error == Some(e) && range == null
  {
    var pr := new PortRange();
    error := pr.Set(value);
    range := if error.Some? then null else pr;
  }

  function Format(base: int, size: int): string {
    if size == 0 then "" else PrintInt(base) + "-" + PrintInt(base + size - 1)
  }

  // ------------------------------------------------------------------- the notation

  // After the first separator strconv.Atoi still allows a sign, unless it is the other
  // separator: the offset of "5++3" and the negative zero of "0--0" are accepted.
  predicate IsSigned(s: string, sign: char) {
    IsNumeral(s) || (s != "" && s[0] == sign && IsNumeral(s[1..]))
  }

  function SignedValue(s: string, sign: char): int
    requires IsSigned(s, sign)
  {
    if IsNumeral(s) then Value(s) else if sign == '-' then 0 - Value(s[1..]) else Value(s[1..])
  }

  // A numeral, the separator, and a number that may carry the separator again as its sign.
  predicate Splits(v: string, i: nat, sep: char) {
    i < |v| && v[i] == sep && IsNumeral(v[..i]) && IsSigned(v[i + 1..], sep)
  }

  predicate Fits(n: int) {
    MIN_INT64 <= n <= MAX_INT64
  }

  predicate ReadsMinMax(v: string, i: nat, low: int, high: int) {
    && Splits(v, i, '-') && Fits(low) && Fits(high)
    && low == Value(v[..i]) && high == SignedValue(v[i + 1..], '-')
  }

  predicate ReadsMinOffset(v: string, i: nat, low: int, high: int) {
    && Splits(v, i, '+') && Fits(low) && Fits(SignedValue(v[i + 1..], '+'))
    && low == Value(v[..i]) && high == AddInt64(low, SignedValue(v[i + 1..], '+'))
  }

  // The two ends a string names in one of the notations, before they are checked.
  ghost predicate Reads(v: string, low: int, high: int) {
    || (IsNumeral(v) && Fits(low) && low == high == Value(v))
    || (exists i :: ReadsMinMax(v, i, low, high))
    || (exists i :: ReadsMinOffset(v, i, low, high))
  }

  // The strings that denote a range, by grammar instead of by search.
  ghost predicate Denotes(value: string, base: int, size: int) {
    DenotesTrimmed(TrimSpace(value), base, size)
  }

  ghost predicate DenotesTrimmed(v: string, base: int, size: int) {
    || (v == "" && base == 0 && size == 0)
    || DenotesPort(v, base, size)
    || DenotesMinMax(v, base, size)
    || DenotesMinOffset(v, base, size)
  }

  predicate DenotesPort(v: string, base: int, size: int) {
    IsNumeral(v) && DenotesBounds(base, size, Value(v), Value(v))
  }

  ghost predicate DenotesMinMax(v: string, base: int, size: int) {
    exists i: nat :: Splits(v, i, '-') && DenotesBounds(base, size, Value(v[..i]), SignedValue(v[i + 1..], '-'))
  }

  ghost predicate DenotesMinOffset(v: string, base: int, size: int) {
    exists i: nat ::
      Splits(v, i, '+') && DenotesBounds(base, size, Value(v[..i]), Value(v[..i]) + SignedValue(v[i + 1..], '+'))
  }

  predicate DenotesBounds(base: int, size: int, low: int, high: int) {
    0 <= low <= high <= 65535 && base == low && base + size - 1 == high
  }

  /** With one sign excluded, Atoi reads exactly the 64-bit numbers with the other one. */
  lemma AtoiSigned(s: string, sign: char)
    requires (sign == '-' && '+' !in s) || (sign == '+' && '-' !in s)
    ensures Atoi(s) == if IsSigned(s, sign) && Fits(SignedValue(s, sign)) then Some(SignedValue(s, sign)) else None
  {
    if s != "" { assert s[0] in s; }
  }

  lemma AtoiUnsigned(s: string)
    requires '-' !in s && '+' !in s
    ensures Atoi(s) == if IsNumeral(s) && Fits(Value(s)) then Some(Value(s)) else None
  {
    AtoiSigned(s, '-');
    AtoiSigned(s, '+');
    if s != "" { assert s[0] in s; }
  }

  /** A split is at the first occurrence of its separator, and the other one is absent. */
  lemma SplitIsFirst(v: string, i: nat, sep: char, other: char)
    requires Splits(v, i, sep) && !IsDigit(sep) && !IsDigit(other) && sep != other
    ensures IndexOf(v, sep) == i && IndexOf(v, other) == -1
  {
  }

  lemma MinMaxReads(v: string, i: nat, low: int, high: int)
    requires IndexOf(v, '-') == i && '+' !in v
    ensures ReadsMinMax(v, i, low, high) <==> Atoi(v[..i]) == Some(low) && Atoi(v[i + 1..]) == Some(high)
  {
    AtoiUnsigned(v[..i]);
    AtoiSigned(v[i + 1..], '-');
  }

  lemma MinOffsetReads(v: string, i: nat, low: int, high: int)
    requires IndexOf(v, '+') == i && '-' !in v
    ensures ReadsMinOffset(v, i, low, high) <==>
            Atoi(v[..i]) == Some(low) && Upper(Atoi(v[..i]), Atoi(v[i + 1..])) == Some(high)
  {
    AtoiUnsigned(v[..i]);
    AtoiSigned(v[i + 1..], '+');
  }

  lemma PortEnds(v: string, low: int, high: int)
    requires IndexOf(v, '-') == -1 && IndexOf(v, '+') == -1
    ensures Ends(v) == EndsOf.Ends(Some(low), Some(high)) <==> IsNumeral(v) && Fits(low) && low == high == Value(v)
  {
    AtoiUnsigned(v);
  }

  lemma MinMaxEnds(v: string, i: nat, low: int, high: int)
    requires IndexOf(v, '-') == i && IndexOf(v, '+') == -1
    ensures Ends(v) == EndsOf.Ends(Some(low), Some(high)) <==> ReadsMinMax(v, i, low, high)
  {
    var first, second := Atoi(v[..i]), Atoi(v[i + 1..]);
    assert Ends(v) == EndsOf.Ends(first, second);
    MinMaxReads(v, i, low, high);
  }

  lemma MinOffsetEnds(v: string, i: nat, low: int, high: int)
    requires IndexOf(v, '-') == -1 && IndexOf(v, '+') == i
    ensures Ends(v) == EndsOf.Ends(Some(low), Some(high)) <==> ReadsMinOffset(v, i, low, high)
  {
    var first, second := Atoi(v[..i]), Upper(Atoi(v[..i]), Atoi(v[i + 1..]));
    assert Ends(v) == EndsOf.Ends(first, second);
    MinOffsetReads(v, i, low, high);
  }

  // A numeral has no separator.
  lemma NumeralEnds(v: string)
    requires IsNumeral(v)
    ensures IndexOf(v, '-') == -1 && IndexOf(v, '+') == -1
  {
  }

  lemma EndsThenReads(v: string, low: int, high: int)
    requires Ends(v) == EndsOf.Ends(Some(low), Some(high))
    ensures Reads(v, low, high)
  {
    if IndexOf(v, '-') == -1 && IndexOf(v, '+') == -1 {
      PortEnds(v, low, high);
    } else if IndexOf(v, '+') == -1 {
      MinMaxEnds(v, IndexOf(v, '-'), low, high);
    } else if IndexOf(v, '-') == -1 {
      MinOffsetEnds(v, IndexOf(v, '+'), low, high);
    }
  }

  lemma ReadsThenEnds(v: string, low: int, high: int)
    requires Reads(v, low, high)
    ensures Ends(v) == EndsOf.Ends(Some(low), Some(high))
  {
    if IsNumeral(v) && Fits(low) && low == high == Value(v) {
      NumeralEnds(v);
      PortEnds(v, low, high);
    } else if i: nat :| ReadsMinMax(v, i, low, high) {
      SplitIsFirst(v, i, '-', '+');
      MinMaxEnds(v, i, low, high);
    } else if i: nat :| ReadsMinOffset(v, i, low, high) {
      SplitIsFirst(v, i, '+', '-');
      MinOffsetEnds(v, i, low, high);
    }
  }

  /** The search for the separators finds the two ends the grammar gives. */
  lemma EndsIff(v: string, low: int, high: int)
    ensures Reads(v, low, high) <==> Ends(v) == EndsOf.Ends(Some(low), Some(high))
  {
    if Reads(v, low, high) {
      ReadsThenEnds(v, low, high);
    } else if Ends(v) == EndsOf.Ends(Some(low), Some(high)) {
      EndsThenReads(v, low, high);
    }
  }

  lemma EndsRead(v: string)
    ensures Ends(v).BothSigns? <==> '-' in v && '+' in v
    ensures forall low, high :: Reads(v, low, high) <==> Ends(v) == EndsOf.Ends(Some(low), Some(high))
  {
    forall low, high ensures Reads(v, low, high) <==> Ends(v) == EndsOf.Ends(Some(low), Some(high)) {
      EndsIff(v, low, high);
    }
  }

  lemma PortNotation(v: string, base: int, size: int)
    ensures DenotesPort(v, base, size) <==>
            v != "" && IndexOf(v, '-') == -1 && IndexOf(v, '+') == -1 && ParseTrimmed(v) == Accepted(base, size)
  {
    if '-' !in v && '+' !in v {
      AtoiUnsigned(v);
    }
  }

  // Bounds on a lower and an upper number, of which only those that may be read are known.
  lemma BoundsAccept(low: Option<int>, high: Option<int>, isLow: bool, isHigh: bool,
                     l: int, h: int, base: int, size: int)
    requires low.Some? ==> isLow && low.value == l >= 0
    requires high.Some? ==> isHigh && high.value == h
    requires isLow && 0 <= l <= 65535 ==> low.Some?
    requires isHigh && 0 <= h <= 65535 ==> high.Some?
    ensures Bounds(low, high) == Accepted(base, size) <==> isLow && isHigh && DenotesBounds(base, size, l, h)
  {
  }

  /** An accepted sum never wrapped: an offset that overflows 64 bits is always rejected. */
  lemma SumAccepts(low: Option<int>, offset: Option<int>, isLow: bool, isOffset: bool,
                   l: int, o: int, base: int, size: int)
    requires isLow ==> l >= 0
    requires isOffset ==> o >= 0
    requires low.Some? ==> isLow && low.value == l <= MAX_INT64
    requires offset.Some? ==> isOffset && offset.value == o <= MAX_INT64
    requires isLow && l <= 65535 ==> low.Some?
    requires isOffset && o <= 65535 ==> offset.Some?
    ensures Bounds(low, Upper(low, offset)) == Accepted(base, size) <==>
            isLow && isOffset && DenotesBounds(base, size, l, l + o)
  {
  }

  lemma MinMaxNotation(v: string, base: int, size: int)
    ensures DenotesMinMax(v, base, size) <==>
            IndexOf(v, '-') >= 0 && IndexOf(v, '+') == -1 && ParseTrimmed(v) == Accepted(base, size)
  {
    var i := IndexOf(v, '-');
    forall j: nat | Splits(v, j, '-') ensures i == j && IndexOf(v, '+') == -1 {
      SplitIsFirst(v, j, '-', '+');
    }
    if i >= 0 && IndexOf(v, '+') == -1 {
      MinMaxAt(v[..i], v[i + 1..], base, size);
      assert Ends(v) == EndsOf.Ends(Atoi(v[..i]), Atoi(v[i + 1..]));
    }
  }

  lemma MinMaxAt(low: string, high: string, base: int, size: int)
    requires '-' !in low && '+' !in low && '+' !in high
    ensures Bounds(Atoi(low), Atoi(high)) == Accepted(base, size) <==>
            IsNumeral(low) && IsSigned(high, '-') && DenotesBounds(base, size, Value(low), SignedValue(high, '-'))
  {
    AtoiUnsigned(low);
    AtoiSigned(high, '-');
    BoundsAccept(Atoi(low), Atoi(high), IsNumeral(low), IsSigned(high, '-'),
                 if IsNumeral(low) then Value(low) else 0,
                 if IsSigned(high, '-') then SignedValue(high, '-') else 0, base, size);
  }

  lemma MinOffsetNotation(v: string, base: int, size: int)
    ensures DenotesMinOffset(v, base, size) <==>
            IndexOf(v, '+') >= 0 && IndexOf(v, '-') == -1 && ParseTrimmed(v) == Accepted(base, size)
  {
    var i := IndexOf(v, '+');
    forall j: nat | Splits(v, j, '+') ensures i == j && IndexOf(v, '-') == -1 {
      SplitIsFirst(v, j, '+', '-');
    }
    if i >= 0 && IndexOf(v, '-') == -1 {
      MinOffsetAt(v[..i], v[i + 1..], base, size);
      assert Ends(v) == EndsOf.Ends(Atoi(v[..i]), Upper(Atoi(v[..i]), Atoi(v[i + 1..])));
    }
  }

  lemma MinOffsetAt(low: string, offset: string, base: int, size: int)
    requires '-' !in low && '+' !in low && '-' !in offset
    ensures Bounds(Atoi(low), Upper(Atoi(low), Atoi(offset))) == Accepted(base, size) <==>
            IsNumeral(low) && IsSigned(offset, '+')
            && DenotesBounds(base, size, Value(low), Value(low) + SignedValue(offset, '+'))
  {
    AtoiUnsigned(low);
    AtoiSigned(offset, '+');
    AtoiRange(low);
    AtoiRange(offset);
    SumAccepts(Atoi(low), Atoi(offset), IsNumeral(low), IsSigned(offset, '+'),
               if IsNumeral(low) then Value(low) else 0,
               if IsSigned(offset, '+') then SignedValue(offset, '+') else 0, base, size);
  }

  lemma AtoiRange(s: string)
    ensures Atoi(s).Some? ==> MIN_INT64 <= Atoi(s).value <= MAX_INT64
  {
  }

  /** The parser accepts exactly the strings that denote a range, with that range. */
  lemma ParseIffDenotes(value: string, base: int, size: int)
    ensures Parse(value) == Accepted(base, size) <==> Denotes(value, base, size)
  {
    var v := TrimSpace(value);
    PortNotation(v, base, size);
    MinMaxNotation(v, base, size);
    MinOffsetNotation(v, base, size);
  }

  /** Every non-blank string that is accepted gives a non-empty range of valid ports. */
  lemma AcceptedPorts(value: string)
    requires Parse(value).Accepted? && TrimSpace(value) != ""
    ensures 0 <= Parse(value).base <= 65535 && Parse(value).size >= 1
    ensures Parse(value).base + Parse(value).size - 1 <= 65535
  {
    ParseIffDenotes(value, Parse(value).base, Parse(value).size);
  }

  lemma JoinDenotes(low: string, high: string)
    requires IsNumeral(low) && IsNumeral(high) && Value(low) <= Value(high) <= 65535
    ensures DenotesMinMax(low + "-" + high, Value(low), 1 + Value(high) - Value(low))
  {
    var v, i := low + "-" + high, |low|;
    assert v[..i] == low && v[i] == '-' && v[i + 1..] == high;
    assert Splits(v, i, '-');
  }

  lemma JoinTrimmed(low: string, high: string)
    requires IsNumeral(low) && IsNumeral(high)
    ensures TrimSpace(low + "-" + high) == low + "-" + high
  {
    var v := low + "-" + high;
    assert v[0] == low[0] && v[|v| - 1] == high[|high| - 1];
    assert IsDigit(v[0]) && IsDigit(v[|v| - 1]);
  }

  /** Parsing what was printed gives the range back, for every range that can be accepted. */
  lemma PrintThenParse(base: int, size: int)
    requires 0 <= base && 1 <= size && base + size - 1 <= 65535
    ensures Parse(Format(base, size)) == Accepted(base, size)
  {
    var low, high := Print(base), Print(base + size - 1);
    PrintValue(base);
    PrintValue(base + size - 1);
    JoinDenotes(low, high);
    JoinTrimmed(low, high);
    ParseIffDenotes(low + "-" + high, base, size);
  }

  /** A range set from a string that is not blank contains exactly the ports between the two ends
      that the string names. */
  lemma ContainsNamed(pr: PortRange, value: string, low: int, high: int, p: int)
    requires Parse(value) == Accepted(pr.base, pr.size)
    requires TrimSpace(value) != "" && Reads(TrimSpace(value), low, high)
    ensures pr.Contains(p) <==> low <= p <= high
  {
    EndsIff(TrimSpace(value), low, high);
    NamedBounds(TrimSpace(value), low, high, pr.base, pr.size);
  }

  lemma NamedBounds(v: string, low: int, high: int, base: int, size: int)
    requires v != "" && Ends(v) == EndsOf.Ends(Some(low), Some(high)) && ParseTrimmed(v) == Accepted(base, size)
    ensures base == low && size == 1 + high - low && low <= high
  {
    assert Bounds(Some(low), Some(high)) == Accepted(base, size);
  }

  /** A non-empty range prints as its two ends with a hyphen between them, and an empty one as the
      empty string. */
  lemma PrintedEnds(pr: PortRange) returns (i: nat)
    requires pr.size != 0 ==> pr.base >= 0 && pr.base + pr.size - 1 >= 0
    ensures pr.size == 0 ==> pr.String() == ""
    ensures pr.size != 0 ==>
              var v := pr.String();
              && i < |v| && v[i] == '-' && IsNumeral(v[..i]) && IsNumeral(v[i + 1..])
              && Value(v[..i]) == pr.base && Value(v[i + 1..]) == pr.base + pr.size - 1
  {
    i := 0;
    if pr.size != 0 {
      var low, high, v := Print(pr.base), Print(pr.base + pr.size - 1), pr.String();
      PrintValue(pr.base);
      PrintValue(pr.base + pr.size - 1);
      i := |low|;
      assert v == low + "-" + high && v[..i] == low && v[i + 1..] == high;
    }
  }

  /** Setting a range from its own printed form restores it, exactly for the ranges that parsing
      can give: the empty one at 0, and the non-empty ones of valid ports. */
  lemma StringParses(pr: PortRange)
    ensures Parse(pr.String()) == Accepted(pr.base, pr.size) <==>
            (pr.base == 0 && pr.size == 0) || (0 <= pr.base && 1 <= pr.size && pr.base + pr.size - 1 <= 65535)
  {
    if 0 <= pr.base && 1 <= pr.size && pr.base + pr.size - 1 <= 65535 {
      PrintThenParse(pr.base, pr.size);
    } else if Parse(pr.String()) == Accepted(pr.base, pr.size) && TrimSpace(pr.String()) != "" {
      AcceptedPorts(pr.String());
    }
  }

  /** Atoi's own sign after the separator lets these strings in. */
  lemma SignsAccepted()
    ensures Parse("5++3") == Accepted(5, 4)
    ensures Parse("0--0") == Accepted(0, 1)
  {
    OffsetDenotes("5++3");
    RangeDenotes("0--0");
    ParseIffDenotes("5++3", 5, 4);
    ParseIffDenotes("0--0", 0, 1);
  }

  lemma OneDigit(s: string, d: nat)
    requires d < 10 && s == [('0' as int + d) as char]
    ensures IsNumeral(s) && Value(s) == d
  {
    assert Prefix(s, 1) == 10 * Prefix(s, 0) + Digit(s[0]);
  }

  lemma SignedDigit(s: string, sign: char, d: nat)
    requires d < 10 && (sign == '-' || sign == '+') && s == [sign, ('0' as int + d) as char]
    ensures IsSigned(s, sign) && SignedValue(s, sign) == (if sign == '-' then -1 else 1) * d
  {
    assert s[0] == sign && !IsDigit(sign);
    OneDigit(s[1..], d);
  }

  lemma OffsetDenotes(v: string)
    requires v == "5++3"
    ensures TrimSpace(v) == v && DenotesMinOffset(v, 5, 4)
  {
    assert v[0] == '5' && v[1] == '+' && v[3] == '3' && v[..1] == ['5'] && v[2..] == ['+', '3'];
    OneDigit(v[..1], 5);
    SignedDigit(v[2..], '+', 3);
    assert Splits(v, 1, '+');
  }

  lemma RangeDenotes(v: string)
    requires v == "0--0"
    ensures TrimSpace(v) == v && DenotesMinMax(v, 0, 1)
  {
    assert v[0] == '0' && v[1] == '-' && v[3] == '0' && v[..1] == ['0'] && v[2..] == ['-', '0'];
    OneDigit(v[..1], 0);
    SignedDigit(v[2..], '-', 0);
    assert Splits(v, 1, '-');
  }

  // -------------------------------------------------------------- serving the ports

  /** The ports on which the main loop starts a server, range after range. */
  method ServedPorts(ranges: seq<PortRange>) returns (ports: seq<int>)
    ensures forall p ::
              p in ports <==> exists k :: 0 <= k < |ranges| && ranges[k].base <= p < ranges[k].base + ranges[k].size
    ensures |ranges| == 1 ==> forall i, j :: 0 <= i < j < |ports| ==> ports[i] < ports[j]
  {
    ports := [];
    for k := 0 to |ranges|
      invariant forall p ::
                  p in ports <==> exists j :: 0 <= j < k && ranges[j].base <= p < ranges[j].base + ranges[j].size
      invariant k == 0 ==> ports == []
      invariant |ranges| == 1 ==> forall i, j :: 0 <= i < j < |ports| ==> ports[i] < ports[j]
    {
      var r := ranges[k];
      ghost var before := ports;
      var port := r.base;
      while port < r.base + r.size
        invariant r.base <= port && (port <= r.base + r.size || port == r.base)
        invariant forall p :: p in ports <==> p in before || r.base <= p < port
        invariant |ranges| == 1 ==> forall i, j :: 0 <= i < j < |ports| ==> ports[i] < ports[j]
        invariant |ranges| == 1 ==> forall i :: 0 <= i < |ports| ==> ports[i] < port
      {
        ports := ports + [port];
        port := port + 1;
      }
    }
  }
}
