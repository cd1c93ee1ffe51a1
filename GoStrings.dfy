/**
 * The pieces of Go's `strings` and `strconv` packages that the modelled
 * code relies on, over Dafny strings (sequences of Unicode scalar values,
 * which are Go's runes).
 */
module GoStrings {
  import opened Wrappers

  // ---------------------------------------------------------------------
  // Decimal digits, strconv.Itoa and strconv.Atoi (64-bit int)
  // ---------------------------------------------------------------------

  const MinInt64: int := -0x8000_0000_0000_0000
  const MaxInt64: int := 0x7FFF_FFFF_FFFF_FFFF

  predicate IsDigit(c: char) {
    '0' <= c <= '9'
  }

  predicate AllDigits(s: string) {
    forall i | 0 <= i < |s| :: IsDigit(s[i])
  }

  function DigitValue(c: char): (d: nat)
    requires IsDigit(c)
    ensures d < 10
  {
    (c as int) - ('0' as int)
  }

  function DigitChar(d: nat): (c: char)
    requires d < 10
    ensures IsDigit(c) && DigitValue(c) == d
  {
    (('0' as int) + d) as char
  }

  /** Value of a run of decimal digits, most significant first. */
  function DigitsValue(s: string): nat
    requires AllDigits(s)
    decreases |s|
  {
    if s == [] then 0 else 10 * DigitsValue(s[..|s| - 1]) + DigitValue(s[|s| - 1])
  }

  /** Decimal rendering of a natural number, without leading zeros. */
  function NatToString(n: nat): (s: string)
    ensures |s| > 0 && AllDigits(s)
    ensures n > 0 ==> s[0] != '0'
    decreases n
  {
    if n < 10 then [DigitChar(n)] else NatToString(n / 10) + [DigitChar(n % 10)]
  }

  /** strconv.Itoa: decimal rendering with a leading '-' for negatives. */
  function Itoa(n: int): (s: string)
    ensures |s| > 0
    ensures n < 0 <==> s[0] == '-'
    ensures forall i | 0 <= i < |s| :: IsDigit(s[i]) || (i == 0 && s[i] == '-')
    ensures IsDigit(s[|s| - 1])
  {
    if n < 0 then "-" + NatToString(-n) else NatToString(n)
  }

  /**
   * strconv.Atoi: an optional '+' or '-', then one or more decimal digits;
   * anything else, or a value outside the 64-bit range, is an error (None).
   */
  function Atoi(s: string): (r: Option<int>)
    ensures r.Some? ==> MinInt64 <= r.value <= MaxInt64
    ensures r.Some? ==> s != [] && (IsDigit(s[0]) || s[0] == '+' || s[0] == '-')
    ensures s == [] ==> r.None?
  {
    if s == [] then None
    else
      var digits := if s[0] == '-' || s[0] == '+' then s[1..] else s;
      if digits == [] || !AllDigits(digits) then None
      else
        var magnitude: int := DigitsValue(digits);
        var v := if s[0] == '-' then -magnitude else magnitude;
        if MinInt64 <= v <= MaxInt64 then Some(v) else None
  }

  lemma {:induction false} NatToStringValue(n: nat)
    ensures DigitsValue(NatToString(n)) == n
    decreases n
  {
    if n >= 10 {
      var s := NatToString(n);
      assert s == NatToString(n / 10) + [DigitChar(n % 10)];
      assert s[..|s| - 1] == NatToString(n / 10);
      NatToStringValue(n / 10);
    }
  }

  /** Atoi reads back every 64-bit integer that Itoa writes. */
  lemma AtoiItoa(n: int)
    requires MinInt64 <= n <= MaxInt64
    ensures Atoi(Itoa(n)) == Some(n)
  {
    var s := Itoa(n);
    if n < 0 {
      assert s[1..] == NatToString(-n);
      NatToStringValue(-n);
    } else {
      NatToStringValue(n);
    }
  }

  // ---------------------------------------------------------------------
  // strings.Split with a one-rune separator, and its inverse strings.Join
  // ---------------------------------------------------------------------

  function Count(s: string, c: char): nat
    decreases |s|
  {
    if s == [] then 0 else (if s[0] == c then 1 else 0) + Count(s[1..], c)
  }

  function Join(parts: seq<string>, sep: char): string
    decreases |parts|
  {
    if |parts| == 0 then ""
    else if |parts| == 1 then parts[0]
    else parts[0] + [sep] + Join(parts[1..], sep)
  }

  /**
   * strings.Split(s, sep): the pieces between occurrences of sep; the empty
   * string gives one empty piece.
   */
  function Split(s: string, sep: char): (parts: seq<string>)
    ensures |parts| == Count(s, sep) + 1
    ensures forall i | 0 <= i < |parts| :: sep !in parts[i]
    ensures Join(parts, sep) == s
    decreases |s|
  {
    if s == [] then [""]
    else
      var rest := Split(s[1..], sep);
      if s[0] == sep then
        var r := [""] + rest;
        assert r[1..] == rest;
        r
      else
        var r := [[s[0]] + rest[0]] + rest[1..];
        assert |rest| > 1 ==> rest == [rest[0]] + rest[1..] && r[1..] == rest[1..];
        assert sep !in rest[0];
        r
  }

  /** Splitting a join of separator-free pieces gives the pieces back. */
  lemma {:induction false} SplitJoin(parts: seq<string>, sep: char)
    requires |parts| >= 1
    requires forall i | 0 <= i < |parts| :: sep !in parts[i]
    ensures Split(Join(parts, sep), sep) == parts
    decreases |parts|, |parts[0]|
  {
    var p := parts[0];
    if p == [] {
      if |parts| > 1 {
        assert Join(parts, sep) == [sep] + Join(parts[1..], sep);
        assert Join(parts, sep)[1..] == Join(parts[1..], sep);
        SplitJoin(parts[1..], sep);
        assert parts == [""] + parts[1..];
      }
    } else {
      var parts' := [p[1..]] + parts[1..];
      forall i | 0 <= i < |parts'| ensures sep !in parts'[i] {
        if i == 0 { assert forall c | c in p[1..] :: c in p; }
      }
      assert Join(parts, sep) == [p[0]] + Join(parts', sep);
      SplitJoin(parts', sep);
      assert Join(parts, sep)[1..] == Join(parts', sep);
      assert [p[0]] + p[1..] == p;
      assert parts == [[p[0]] + parts'[0]] + parts'[1..];
    }
  }

  // ---------------------------------------------------------------------
  // Trimming
  // ---------------------------------------------------------------------

  /** Drops leading runes for which cut holds. */
  function TrimLeft(s: string, cut: char -> bool): (r: string)
    ensures |r| <= |s| && r == s[|s| - |r|..]
    ensures forall i | 0 <= i < |s| - |r| :: cut(s[i])
    ensures r == [] || !cut(r[0])
    decreases |s|
  {
    if s != [] && cut(s[0]) then TrimLeft(s[1..], cut) else s
  }

  /** Drops trailing runes for which cut holds. */
  function TrimRight(s: string, cut: char -> bool): (r: string)
    ensures |r| <= |s| && r == s[..|r|]
    ensures forall i | |r| <= i < |s| :: cut(s[i])
    ensures r == [] || !cut(r[|r| - 1])
    decreases |s|
  {
    if s != [] && cut(s[|s| - 1]) then TrimRight(s[..|s| - 1], cut) else s
  }

  /** strings.Trim / strings.TrimFunc: both ends. */
  function Trim(s: string, cut: char -> bool): (r: string)
    ensures exists i, j | 0 <= i <= j <= |s| ::
      (r == s[i..j]
      && (forall k | 0 <= k < i :: cut(s[k]))
      && (forall k | j <= k < |s| :: cut(s[k])))
    ensures r == [] || (!cut(r[0]) && !cut(r[|r| - 1]))
  {
    var l := TrimLeft(s, cut);
    var r := TrimRight(l, cut);
    var i := |s| - |l|;
    assert r == s[i..i + |r|];
    r
  }

  /** Trimming a string that neither starts nor ends with a cut rune changes nothing. */
  lemma TrimUnchanged(s: string, cut: char -> bool)
    requires s == [] || (!cut(s[0]) && !cut(s[|s| - 1]))
    ensures Trim(s, cut) == s
  {
    assert TrimLeft(s, cut) == s;
    assert TrimRight(s, cut) == s;
  }

  /** The cut set " " of strings.Trim(x, " "). */
  predicate IsBlank(c: char) {
    c == ' '
  }

  /** unicode.IsSpace, which strings.TrimSpace uses. */
  predicate IsSpace(c: char) {
    || c == '\t' || c == '\n' || c == '\U{000B}' || c == '\U{000C}' || c == '\r' || c == ' '
    || c == '\U{0085}' || c == '\U{00A0}' || c == '\U{1680}'
    || ('\U{2000}' <= c <= '\U{200A}')
    || c == '\U{2028}' || c == '\U{2029}' || c == '\U{202F}' || c == '\U{205F}' || c == '\U{3000}'
  }

  function TrimSpace(s: string): string {
    Trim(s, IsSpace)
  }

  // ---------------------------------------------------------------------
  // Case mapping, prefixes
  // ---------------------------------------------------------------------

  /**
   * unicode.ToLower on the runes whose lower case is ASCII: 'A'..'Z', the
   * dotted capital I (U+0130) and the Kelvin sign (U+212A). Every other
   * rune that Go lower-cases stays non-ASCII, so comparing the result with
   * an ASCII word is exact.
   */
  function LowerRune(c: char): char {
    if 'A' <= c <= 'Z' then ((c as int) + 32) as char
    else if c == '\U{0130}' then 'i'
    else if c == '\U{212A}' then 'k'
    else c
  }

  /**
   * unicode.ToUpper on the runes whose upper case is ASCII: 'a'..'z', the
   * dotless i (U+0131) and the long s (U+017F).
   */
  function UpperRune(c: char): char {
    if 'a' <= c <= 'z' then ((c as int) - 32) as char
    else if c == '\U{0131}' then 'I'
    else if c == '\U{017F}' then 'S'
    else c
  }

  function ToLower(s: string): (r: string)
    ensures |r| == |s| && forall i | 0 <= i < |s| :: r[i] == LowerRune(s[i])
  {
    seq(|s|, i requires 0 <= i < |s| => LowerRune(s[i]))
  }

  function ToUpper(s: string): (r: string)
    ensures |r| == |s| && forall i | 0 <= i < |s| :: r[i] == UpperRune(s[i])
  {
    seq(|s|, i requires 0 <= i < |s| => UpperRune(s[i]))
  }

  predicate HasPrefix(s: string, prefix: string) {
    |prefix| <= |s| && s[..|prefix|] == prefix
  }

  /** strings.TrimPrefix: drops prefix when s starts with it. */
  function TrimPrefix(s: string, prefix: string): (r: string)
    ensures HasPrefix(s, prefix) ==> prefix + r == s
    ensures !HasPrefix(s, prefix) ==> r == s
  {
    if HasPrefix(s, prefix) then s[|prefix|..] else s
  }

  lemma TrimPrefixInjective(a: string, b: string, prefix: string)
    requires HasPrefix(a, prefix) && HasPrefix(b, prefix)
    requires TrimPrefix(a, prefix) == TrimPrefix(b, prefix)
    ensures a == b
  {
    assert a == prefix + TrimPrefix(a, prefix);
    assert b == prefix + TrimPrefix(b, prefix);
  }

  // ---------------------------------------------------------------------
  // strings.Replace(s, old, new, -1) with a one-rune old
  // ---------------------------------------------------------------------

  /** Every occurrence of c replaced by rep, left to right. */
  function ReplaceAll(s: string, c: char, rep: string): (r: string)
    ensures |r| == |s| + Count(s, c) * (|rep| - 1)
    decreases |s|
  {
    if s == [] then "" else (if s[0] == c then rep else [s[0]]) + ReplaceAll(s[1..], c, rep)
  }
}
