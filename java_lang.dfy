/** Java library behaviour that the transit-app core relies on: null-able
    results, String.compareTo, Integer/Long.parseInt, Boolean.parseBoolean,
    decimal rendering of numbers and copying a hash set into a list. */
module JavaLang {

  /** A Java reference that may be null. */
  datatype Option<+T> = None | Some(value: T)

  /** A value or a thrown exception. */
  datatype Result<+T, +E> = Ok(value: T) | Err(error: E)

  // ---------------------------------------------------------------------
  // String.compareTo

  /** java.lang.String.compareTo: the difference of the first differing
      characters, or else the difference of the lengths. */
  function CompareStrings(a: string, b: string): int
    decreases |a|
  {
    if a == [] || b == [] then |a| - |b|
    else if a[0] != b[0] then a[0] as int - b[0] as int
    else CompareStrings(a[1..], b[1..])
  }

  lemma {:induction false} CompareStringsZeroIff(a: string, b: string)
    ensures CompareStrings(a, b) == 0 <==> a == b
    decreases |a|
  {
    if a != [] && b != [] && a[0] == b[0] {
      CompareStringsZeroIff(a[1..], b[1..]);
      assert a == [a[0]] + a[1..] && b == [b[0]] + b[1..];
    }
  }

  lemma {:induction false} CompareStringsAntisymmetric(a: string, b: string)
    ensures CompareStrings(a, b) == -CompareStrings(b, a)
    decreases |a|
  {
    if a != [] && b != [] && a[0] == b[0] {
      CompareStringsAntisymmetric(a[1..], b[1..]);
    }
  }

  lemma {:induction false} CompareStringsTransitive(a: string, b: string, c: string)
    ensures CompareStrings(a, b) <= 0 && CompareStrings(b, c) <= 0 ==> CompareStrings(a, c) <= 0
    ensures CompareStrings(a, b) < 0 && CompareStrings(b, c) <= 0 ==> CompareStrings(a, c) < 0
    ensures CompareStrings(a, b) <= 0 && CompareStrings(b, c) < 0 ==> CompareStrings(a, c) < 0
    decreases |a|
  {
    if a != [] && b != [] && c != [] && a[0] == b[0] && b[0] == c[0] {
      CompareStringsTransitive(a[1..], b[1..], c[1..]);
    }
  }

  /** The three-way comparison of two Java longs or ints as the entity
      compareTo methods write it: -1, 0 or 1. */
  function CompareInts(a: int, b: int): (r: int)
    ensures r == 0 <==> a == b
    ensures r < 0 <==> a < b
    ensures -1 <= r <= 1
  {
    if a < b then -1 else if a > b then 1 else 0
  }

  // ---------------------------------------------------------------------
  // Decimal text

  predicate IsDigit(c: char) { '0' <= c <= '9' }

  function DigitValue(c: char): nat
    requires IsDigit(c)
  {
    c as nat - '0' as nat
  }

  function DigitChar(d: nat): (c: char)
    requires d < 10
    ensures IsDigit(c) && DigitValue(c) == d
  {
    ('0' as nat + d) as char
  }

  /** Long.toString / string concatenation of a non-negative number. */
  function NatToString(n: nat): (s: string)
    decreases n
  {
    if n < 10 then [DigitChar(n)] else NatToString(n / 10) + [DigitChar(n % 10)]
  }

  /** The value of a non-empty run of decimal digits. */
  function DigitsValue(s: string): nat
    requires forall i :: 0 <= i < |s| ==> IsDigit(s[i])
    decreases |s|
  {
    if s == [] then 0 else 10 * DigitsValue(s[..|s| - 1]) + DigitValue(s[|s| - 1])
  }

  lemma {:induction false} NatToStringDigits(n: nat)
    ensures |NatToString(n)| > 0
    ensures forall i :: 0 <= i < |NatToString(n)| ==> IsDigit(NatToString(n)[i])
    ensures DigitsValue(NatToString(n)) == n
    decreases n
  {
    if n >= 10 {
      NatToStringDigits(n / 10);
      var s := NatToString(n);
      assert s[..|s| - 1] == NatToString(n / 10);
    }
  }

  const IntMin: int := -0x8000_0000
  const IntMax: int := 0x7FFF_FFFF
  const LongMin: int := -0x8000_0000_0000_0000
  const LongMax: int := 0x7FFF_FFFF_FFFF_FFFF

  /** Integer.parseInt(s, 10) / Long.parseLong(s, 10) on ASCII text: an
      optional sign, at least one digit, and a value inside [lo, hi]; anything
      else (including a null argument) raises NumberFormatException, here
      None. */
  function ParseDecimal(s: Option<string>, lo: int, hi: int): (r: Option<int>)
    ensures r.Some? ==> lo <= r.value <= hi
  {
    match s
    case None => None
    case Some(t) =>
      var negative := |t| > 0 && t[0] == '-';
      var signed := |t| > 0 && (t[0] == '-' || t[0] == '+');
      var digits := if signed then t[1..] else t;
      if digits == [] || exists i :: 0 <= i < |digits| && !IsDigit(digits[i]) then None
      else
        var v: int := if negative then 0 - DigitsValue(digits) as int else DigitsValue(digits);
        if lo <= v <= hi then Some(v) else None
  }

  function ParseInt(s: Option<string>): (r: Option<int>)
    ensures r.Some? ==> IntMin <= r.value <= IntMax
  {
    ParseDecimal(s, IntMin, IntMax)
  }

  function ParseLong(s: Option<string>): (r: Option<int>)
    ensures r.Some? ==> LongMin <= r.value <= LongMax
  {
    ParseDecimal(s, LongMin, LongMax)
  }

  /** Parsing the decimal rendering of a number in range gives the number
      back. */
  lemma ParseIntOfNatToString(n: nat)
    requires n <= IntMax
    ensures ParseInt(Some(NatToString(n))) == Some(n)
  {
    NatToStringDigits(n);
  }

  lemma ParseIntNegative(n: nat)
    requires n <= -IntMin
    ensures ParseInt(Some("-" + NatToString(n))) == Some(-(n as int))
  {
    NatToStringDigits(n);
    assert ("-" + NatToString(n))[1..] == NatToString(n);
  }

  /** Boolean.parseBoolean: true exactly for a non-null "true" ignoring
      case. */
  function ParseBoolean(s: Option<string>): (b: bool)
  {
    match s
    case None => false
    case Some(t) =>
      |t| == 4 && t[0] in {'t', 'T'} && t[1] in {'r', 'R'} && t[2] in {'u', 'U'} && t[3] in {'e', 'E'}
  }

  lemma ParseBooleanCases()
    ensures ParseBoolean(Some("true")) && ParseBoolean(Some("TRUE")) && ParseBoolean(Some("True"))
    ensures !ParseBoolean(None) && !ParseBoolean(Some("")) && !ParseBoolean(Some("yes"))
    ensures !ParseBoolean(Some("1")) && !ParseBoolean(Some("true "))
  {
  }

  // ---------------------------------------------------------------------
  // Collections

  predicate NoDuplicates<T(==)>(s: seq<T>)
  {
    forall i, j :: 0 <= i < j < |s| ==> s[i] != s[j]
  }

  /** new ArrayList(set): every element of the set exactly once, in an order
      the hash table chooses (here: any order). */
  method ListOf<T(==)>(s: set<T>) returns (r: seq<T>)
    ensures forall x :: x in r <==> x in s
    ensures NoDuplicates(r)
    ensures |r| == |s|
  {
    r := [];
    var rest := s;
    while rest != {}
      invariant rest <= s
      invariant forall x :: x in r <==> x in s - rest
      invariant NoDuplicates(r)
      invariant |r| + |rest| == |s|
      decreases rest
    {
      var x :| x in rest;
      r := r + [x];
      rest := rest - {x};
    }
  }
}
