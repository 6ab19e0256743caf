/** The string functions of Go that the parsers and routers use. */
module GoStrings {
  // unicode.IsSpace.
  predicate IsSpace(c: char) {
    || '\t' <= c <= '\r' || c == ' ' || c == '\U{85}' || c == '\U{A0}' || c == '\U{1680}'
    || '\U{2000}' <= c <= '\U{200A}' || c == '\U{2028}' || c == '\U{2029}' || c == '\U{202F}'
    || c == '\U{205F}' || c == '\U{3000}'
  }

  /** The characters with the Unicode property White_Space, by their code points. */
  lemma BlankCodes(c: char)
    ensures IsSpace(c) <==>
            c as int in {9, 10, 11, 12, 13, 32, 0x85, 0xA0, 0x1680, 0x2000, 0x2001, 0x2002, 0x2003, 0x2004, 0x2005,
                         0x2006, 0x2007, 0x2008, 0x2009, 0x200A, 0x2028, 0x2029, 0x202F, 0x205F, 0x3000}
  {
    assert '\t' as int == 9 && '\r' as int == 13 && '\U{2000}' as int == 0x2000 && '\U{200A}' as int == 0x200A;
  }

  // strings.TrimSpace.
  function TrimSpace(s: string): (t: string)
    ensures t != "" ==> !IsSpace(t[0]) && !IsSpace(t[|t| - 1])
  {
    if s == "" then s
    else if IsSpace(s[0]) then TrimSpace(s[1..])
    else if IsSpace(s[|s| - 1]) then TrimSpace(s[..|s| - 1])
    else s
  }

  // `t` is what is left of `s` between `i` and `j`, and all around it is blank.
  predicate Within(s: string, i: nat, j: nat, t: string) {
    && i <= j <= |s| && t == s[i..j]
    && forall k | 0 <= k < |s| && !(i <= k < j) :: IsSpace(s[k])
  }

  lemma WithinFront(s: string, i: nat, j: nat, t: string)
    requires s != "" && IsSpace(s[0]) && Within(s[1..], i, j, t)
    ensures Within(s, i + 1, j + 1, t)
  {
    var rest := s[1..];
    assert forall k | 0 < k < |s| :: s[k] == rest[k - 1];
  }

  lemma WithinBack(s: string, i: nat, j: nat, t: string)
    requires s != "" && IsSpace(s[|s| - 1]) && Within(s[..|s| - 1], i, j, t)
    ensures Within(s, i, j, t)
  {
    var rest := s[..|s| - 1];
    assert forall k | 0 <= k < |rest| :: s[k] == rest[k];
  }

  /** Trimming takes away blanks at the two ends and nothing else. */
  lemma {:induction false} TrimmedEnds(s: string) returns (i: nat, j: nat)
    ensures Within(s, i, j, TrimSpace(s))
  {
    if s != "" && IsSpace(s[0]) {
      i, j := TrimmedEnds(s[1..]);
      WithinFront(s, i, j, TrimSpace(s));
      i, j := i + 1, j + 1;
    } else if s != "" && IsSpace(s[|s| - 1]) {
      i, j := TrimmedEnds(s[..|s| - 1]);
      WithinBack(s, i, j, TrimSpace(s));
    } else {
      i, j := 0, |s|;
    }
  }

  // strings.Index for a single character.
  function IndexOf(s: string, c: char): (i: int)
    ensures -1 <= i < |s|
    ensures i == -1 ==> forall k :: 0 <= k < |s| ==> s[k] != c
    ensures i >= 0 ==> s[i] == c && forall k :: 0 <= k < i ==> s[k] != c
  {
    var i := IndexFrom(s, c, 0);
    if i == |s| then -1 else i
  }

  // The first occurrence from position `n` on, or the length of the string.
  function IndexFrom(s: string, c: char, n: nat): (i: nat)
    requires n <= |s|
    ensures n <= i <= |s| && (i < |s| ==> s[i] == c)
    ensures forall k :: n <= k < i ==> s[k] != c
    decreases |s| - n
  {
    if n == |s| || s[n] == c then n else IndexFrom(s, c, n + 1)
  }
}
