/*
 * The memory attribute of a virtual node as from_mininet reads it: either a
 * number, which is kept, or a string. A string ending in "MB" is read by
 * Python's float() as megabytes, one ending in "GB" as gigabytes (times
 * 1000), any other string as megabytes; int() then truncates towards zero.
 *
 * The parser works on index ranges of one string: float(s[lo..hi]) is
 * ParseSigned(s, lo, hi) once the whitespace around the range is skipped.
 */
module Memory {
  import opened Common

  datatype MemoryField = Amount(n: nat) | Text(s: string)

  /** What float() yields: a number, an infinity or a not-a-number. */
  datatype Float = Finite(x: real) | Infinite | NotANumber

  predicate IsDigit(c: char) { '0' <= c <= '9' }

  /** The value of a digit character (0 for any other character, which the parser never reads). */
  function Digit(c: char): (d: nat)
    ensures d < 10
  {
    if IsDigit(c) then c as int - '0' as int else 0
  }

  /** s[lo..hi] is made of decimal digits only. */
  predicate DigitsIn(s: string, lo: nat, hi: nat)
    requires lo <= hi <= |s|
  {
    forall i :: lo <= i < hi ==> IsDigit(s[i])
  }

  /** The number the digits s[lo..hi] spell; the empty run reads 0. */
  function Value(s: string, lo: nat, hi: nat): nat
    requires lo <= hi <= |s|
    decreases hi - lo
  {
    if hi == lo then 0 else 10 * Value(s, lo, hi - 1) + Digit(s[hi - 1])
  }

  /** The digits s[lo..hi] read after a point: each digit a tenth of what precedes it. */
  function Fraction(s: string, lo: nat, hi: nat): (r: real)
    requires lo <= hi <= |s|
    ensures 0.0 <= r < 1.0
    decreases hi - lo
  {
    if hi == lo then 0.0 else (Digit(s[lo]) as real + Fraction(s, lo + 1, hi)) / 10.0
  }

  /** The characters str.strip() removes (ASCII whitespace). */
  predicate IsSpace(c: char)
  {
    c == ' ' || c == '\t' || c == '\n' || c == '\r' || c as int == 11 || c as int == 12
  }

  /** The first position of s[lo..hi] that is not whitespace, or hi. */
  function SkipSpace(s: string, lo: nat, hi: nat): (i: nat)
    requires lo <= hi <= |s|
    ensures lo <= i <= hi && (i < hi ==> !IsSpace(s[i]))
    decreases hi - lo
  {
    if lo < hi && IsSpace(s[lo]) then SkipSpace(s, lo + 1, hi) else lo
  }

  /** The end of s[lo..hi] once trailing whitespace is dropped. */
  function TrimSpace(s: string, lo: nat, hi: nat): (j: nat)
    requires lo <= hi <= |s|
    ensures lo <= j <= hi && (j > lo ==> !IsSpace(s[j - 1]))
    decreases hi - lo
  {
    if lo < hi && IsSpace(s[hi - 1]) then TrimSpace(s, lo, hi - 1) else hi
  }

  function LowerChar(c: char): char
  {
    if 'A' <= c <= 'Z' then (c as int - 'A' as int + 'a' as int) as char else c
  }

  /** s[lo..hi] is the lower-case word, letter for letter in any case. */
  predicate Spells(s: string, lo: nat, hi: nat, word: string)
    requires lo <= hi <= |s|
  {
    hi - lo == |word| && forall k :: 0 <= k < |word| ==> LowerChar(s[lo + k]) == word[k]
  }

  /** The marker a literal is split at: the exponent letter, or the decimal point. */
  predicate Marks(c: char, exp: bool)
  {
    if exp then c == 'e' || c == 'E' else c == '.'
  }

  /** The position of the first marker in s[lo..hi], or hi when there is none. */
  function FirstOf(s: string, exp: bool, lo: nat, hi: nat): (i: nat)
    requires lo <= hi <= |s|
    ensures lo <= i <= hi
    ensures i < hi ==> Marks(s[i], exp)
    ensures forall j :: lo <= j < i ==> !Marks(s[j], exp)
    decreases hi - lo
  {
    if lo == hi || Marks(s[lo], exp) then lo else FirstOf(s, exp, lo + 1, hi)
  }

  /** An exponent s[lo..hi]: an optional sign, then at least one digit. */
  function Exponent(s: string, lo: nat, hi: nat): Option<int>
    requires lo <= hi <= |s|
  {
    var signed := lo < hi && (s[lo] == '+' || s[lo] == '-');
    var start := if signed then lo + 1 else lo;
    if start == hi || !DigitsIn(s, start, hi) then None
    else
      var k: int := Value(s, start, hi);
      Some(if signed && s[lo] == '-' then -k else k)
  }

  /** m times ten to the power k. */
  function Scale(m: real, k: int): real
    decreases if k >= 0 then k else -k
  {
    if k == 0 then m else if k > 0 then 10.0 * Scale(m, k - 1) else Scale(m, k + 1) / 10.0
  }

  /** A mantissa s[lo..hi]: digits, at most one point, and at least one digit in all. */
  function Mantissa(s: string, lo: nat, hi: nat): Option<real>
    requires lo <= hi <= |s|
  {
    var d := FirstOf(s, false, lo, hi);
    var f := if d < hi then d + 1 else hi;
    if !DigitsIn(s, lo, d) || !DigitsIn(s, f, hi) || (d - lo) + (hi - f) == 0 then None
    else Some(Value(s, lo, d) as real + Fraction(s, f, hi))
  }

  /** A decimal literal s[lo..hi]: a mantissa, then optionally 'e' or 'E' and an exponent. */
  function Decimal(s: string, lo: nat, hi: nat): Option<real>
    requires lo <= hi <= |s|
  {
    var e := FirstOf(s, true, lo, hi);
    match Mantissa(s, lo, e)
    case None => None
    case Some(m) =>
      if e == hi then Some(m)
      else
        match Exponent(s, e + 1, hi)
        case None => None
        case Some(k) => Some(Scale(m, k))
  }

  /** The words float() reads as an infinity or a not-a-number, in any case. */
  function Special(s: string, lo: nat, hi: nat): Option<Float>
    requires lo <= hi <= |s|
  {
    if Spells(s, lo, hi, "inf") || Spells(s, lo, hi, "infinity") then Some(Infinite)
    else if Spells(s, lo, hi, "nan") then Some(NotANumber)
    else None
  }

  /** float() of a stripped s[lo..hi]: an optional sign, then a special word or a decimal. */
  function ParseSigned(s: string, lo: nat, hi: nat): Option<Float>
    requires lo <= hi <= |s|
  {
    var signed := lo < hi && (s[lo] == '+' || s[lo] == '-');
    var b := if signed then lo + 1 else lo;
    if Special(s, b, hi).Some? then Special(s, b, hi)
    else
      match Decimal(s, b, hi)
      case None => None
      case Some(m) => Some(Finite(if signed && s[lo] == '-' then -m else m))
  }

  /** float(s[..n]): whitespace around the literal is ignored; None is a ValueError. */
  function ParseFloat(s: string, n: nat): Option<Float>
    requires n <= |s|
  {
    var lo := SkipSpace(s, 0, n);
    ParseSigned(s, lo, TrimSpace(s, lo, n))
  }

  /** int() of a finite float: truncation towards zero. */
  function Truncate(x: real): (r: int)
    ensures x >= 0.0 ==> r >= 0 && r as real <= x < r as real + 1.0
    ensures x < 0.0 ==> r <= 0 && r as real - 1.0 < x <= r as real
  {
    if x >= 0.0 then x.Floor else -((-x).Floor)
  }

  /** The amount in megabytes: gigabytes count 1000 each. */
  function InMB(x: real, gigabytes: bool): real
  {
    if gigabytes then 1000.0 * x else x
  }

  /**
   * int(float(text)), or int(float(text) * 1000) for gigabytes: ValueError
   * when float() refuses the text or yields nan, OverflowError on an infinity.
   */
  function ToInt(f: Option<Float>, gigabytes: bool): (r: Result<int>)
    ensures r.Err? <==> f.None? || !f.value.Finite?
    ensures r.Err? ==> (r.error == OverflowError <==> f.Some? && f.value.Infinite?)
    ensures r.Ok? ==> r.value == Truncate(InMB(f.value.x, gigabytes))
  {
    match f
    case None => Err(ValueError)
    case Some(Infinite) => Err(OverflowError)
    case Some(NotANumber) => Err(ValueError)
    case Some(Finite(x)) => Ok(Truncate(InMB(x, gigabytes)))
  }

  /** s ends with a unit: the given letter and then 'B' ("MB" or "GB"). */
  predicate HasUnit(s: string, letter: char)
  {
    |s| >= 2 && s[|s| - 2] == letter && s[|s| - 1] == 'B'
  }

  /**
   * How a memory string is read: the length of its number and whether that
   * number counts gigabytes. "MB" is tested first, then "GB"; any other
   * string is a number of megabytes as a whole.
   */
  function UnitOf(s: string): (u: (nat, bool))
    ensures u.0 <= |s|
  {
    if HasUnit(s, 'M') then (|s| - 2, false)
    else if HasUnit(s, 'G') then (|s| - 2, true)
    else (|s|, false)
  }

  /** The memory of a node in megabytes, or the error from_mininet raises. */
  function MemoryMB(f: MemoryField): (r: Result<int>)
    ensures f.Amount? ==> r == Ok(f.n)
    ensures r.Err? ==> r.error == ValueError || r.error == OverflowError
  {
    match f
    case Amount(n) => Ok(n)
    case Text(s) =>
      var u := UnitOf(s);
      ToInt(ParseFloat(s, u.0), u.1)
  }

  function DigitChar(d: nat): (c: char)
    requires d < 10
    ensures IsDigit(c) && Digit(c) == d
  {
    ('0' as int + d) as char
  }

  /** The decimal representation of n, without leading zeros. */
  function ShowNat(n: nat): (s: string)
    ensures |s| > 0 && DigitsIn(s, 0, |s|)
  {
    if n < 10 then [DigitChar(n)] else ShowNat(n / 10) + [DigitChar(n % 10)]
  }

  /** The value of leading digits depends on those digits only. */
  lemma {:induction false} ValuePrefix(s: string, t: string, hi: nat)
    requires hi <= |s| && hi <= |t|
    requires forall i :: 0 <= i < hi ==> s[i] == t[i]
    ensures Value(s, 0, hi) == Value(t, 0, hi)
  {
    if hi > 0 {
      ValuePrefix(s, t, hi - 1);
    }
  }

  /** Reading back the digits of n gives n. */
  lemma {:induction false} DigitsShow(n: nat)
    ensures Value(ShowNat(n), 0, |ShowNat(n)|) == n
  {
    if n >= 10 {
      DigitsShow(n / 10);
      var s, t := ShowNat(n), ShowNat(n / 10);
      assert s == t + [DigitChar(n % 10)];
      ValuePrefix(s, t, |t|);
    }
  }

  /** A mantissa written with digits and points has no exponent part. */
  lemma NoExponent(s: string, lo: nat, hi: nat)
    requires lo <= hi <= |s|
    requires forall i :: lo <= i < hi ==> IsDigit(s[i]) || s[i] == '.'
    ensures Decimal(s, lo, hi) == Mantissa(s, lo, hi)
  {
    NoMarker(s, true, lo, hi);
  }

  /** Without a marker in s[lo..hi], the search for one ends at hi. */
  lemma NoMarker(s: string, exp: bool, lo: nat, hi: nat)
    requires lo <= hi <= |s|
    requires forall i :: lo <= i < hi ==> IsDigit(s[i]) || (!exp && s[i] != '.') || (exp && s[i] == '.')
    ensures FirstOf(s, exp, lo, hi) == hi
  {
  }

  /** A non-empty run of digits is a mantissa worth the number it spells. */
  lemma MantissaDigits(s: string, lo: nat, hi: nat)
    requires lo < hi <= |s| && DigitsIn(s, lo, hi)
    ensures Mantissa(s, lo, hi) == Some(Value(s, lo, hi) as real)
  {
    NoMarker(s, false, lo, hi);
    var w, z := Value(s, lo, hi) as real, Fraction(s, hi, hi);
    assert Mantissa(s, lo, hi) == Some(w + z) by {
      assert DigitsIn(s, hi, hi) && (hi - lo) + (hi - hi) != 0;
    }
    assert z == 0.0;
  }

  /** A word starting with a digit is no spelling of inf or nan. */
  lemma SpecialDigit(s: string, lo: nat, hi: nat)
    requires lo < hi <= |s| && IsDigit(s[lo])
    ensures Special(s, lo, hi).None?
  {
    assert !Spells(s, lo, hi, "inf") && !Spells(s, lo, hi, "infinity") by {
      assert "inf"[0] == 'i' && "infinity"[0] == 'i';
    }
    assert !Spells(s, lo, hi, "nan") by {
      assert "nan"[0] == 'n';
    }
  }

  /** A literal s[..n] that starts with a digit and ends in no space is read as a decimal. */
  lemma ParseDecimal(s: string, n: nat, m: real)
    requires 0 < n <= |s| && IsDigit(s[0]) && !IsSpace(s[n - 1])
    requires Decimal(s, 0, n) == Some(m)
    ensures ParseFloat(s, n) == Some(Finite(m))
  {
    assert SkipSpace(s, 0, n) == 0;
    assert TrimSpace(s, 0, n) == n;
    SpecialDigit(s, 0, n);
  }

  /** A run of digits is read by float() as the number it spells. */
  lemma DigitsParse(s: string, n: nat)
    requires 0 < n <= |s| && DigitsIn(s, 0, n)
    ensures ParseFloat(s, n) == Some(Finite(Value(s, 0, n) as real))
  {
    NoExponent(s, 0, n);
    MantissaDigits(s, 0, n);
    ParseDecimal(s, n, Value(s, 0, n) as real);
  }

  /** Digits, a point at d and digits: float() reads the whole part plus the fraction. */
  lemma PointParse(s: string, d: nat, n: nat)
    requires 0 < d < n <= |s| && s[d] == '.' && DigitsIn(s, 0, d) && DigitsIn(s, d + 1, n)
    ensures ParseFloat(s, n) == Some(Finite(Value(s, 0, d) as real + Fraction(s, d + 1, n)))
  {
    NoExponent(s, 0, n);
    FirstAt(s, false, 0, n, d);
    ParseDecimal(s, n, Value(s, 0, d) as real + Fraction(s, d + 1, n));
  }

  /** The first marker is the one before which none occurs. */
  lemma FirstAt(s: string, exp: bool, lo: nat, hi: nat, d: nat)
    requires lo <= d < hi <= |s| && Marks(s[d], exp)
    requires forall j :: lo <= j < d ==> !Marks(s[j], exp)
    ensures FirstOf(s, exp, lo, hi) == d
  {
  }

  /** A plus sign before a decimal does not change its value. */
  lemma SignedParse(s: string, n: nat, m: real)
    requires 1 < n <= |s| && s[0] == '+' && IsDigit(s[1]) && !IsSpace(s[n - 1])
    requires Decimal(s, 1, n) == Some(m)
    ensures ParseFloat(s, n) == Some(Finite(m))
  {
    assert SkipSpace(s, 0, n) == 0;
    assert TrimSpace(s, 0, n) == n;
    SpecialDigit(s, 1, n);
  }

  /** Reading back the decimal spelling of n gives n, whatever follows it. */
  lemma ParseShow(n: nat, unit: string)
    ensures ParseFloat(ShowNat(n) + unit, |ShowNat(n)|) == Some(Finite(n as real))
  {
    var s := ShowNat(n);
    var t := s + unit;
    DigitsShow(n);
    ValuePrefix(t, s, |s|);
    DigitsParse(t, |s|);
  }

  /** No digit, and no 'n' (which every spelling of inf and nan has). */
  predicate Plain(s: string, lo: nat, hi: nat)
    requires lo <= hi <= |s|
  {
    forall i :: lo <= i < hi ==> !IsDigit(s[i]) && s[i] != 'n' && s[i] != 'N'
  }

  lemma SpecialPlain(s: string, lo: nat, hi: nat)
    requires lo <= hi <= |s| && Plain(s, lo, hi)
    ensures Special(s, lo, hi).None?
  {
    assert !Spells(s, lo, hi, "inf") && !Spells(s, lo, hi, "infinity") by {
      if hi - lo > 1 {
        assert "inf"[1] == 'n' && "infinity"[1] == 'n';
        assert s[lo + 1] != 'n' && s[lo + 1] != 'N';
      }
    }
    assert !Spells(s, lo, hi, "nan") by {
      if hi > lo {
        assert "nan"[0] == 'n';
        assert s[lo] != 'n' && s[lo] != 'N';
      }
    }
  }

  lemma MantissaPlain(s: string, lo: nat, hi: nat)
    requires lo <= hi <= |s| && Plain(s, lo, hi)
    ensures Mantissa(s, lo, hi).None?
  {
    var d := FirstOf(s, false, lo, hi);
    if d > lo {
      assert !IsDigit(s[lo]);
    } else if d + 1 < hi {
      assert !IsDigit(s[d + 1]);
    }
  }

  lemma DecimalPlain(s: string, lo: nat, hi: nat)
    requires lo <= hi <= |s| && Plain(s, lo, hi)
    ensures Decimal(s, lo, hi).None?
  {
    MantissaPlain(s, lo, FirstOf(s, true, lo, hi));
  }

  /** A string holding neither a digit nor an 'n' is refused by float(). */
  lemma ParseRejects(s: string, n: nat)
    requires n <= |s| && Plain(s, 0, n)
    ensures ParseFloat(s, n).None?
  {
    var lo := SkipSpace(s, 0, n);
    var hi := TrimSpace(s, lo, n);
    var b := if lo < hi && (s[lo] == '+' || s[lo] == '-') then lo + 1 else lo;
    SpecialPlain(s, b, hi);
    DecimalPlain(s, b, hi);
  }

  /** A string ending in a digit has no unit and is read as megabytes. */
  lemma NoUnit(s: string)
    requires |s| > 0 && IsDigit(s[|s| - 1])
    ensures MemoryMB(Text(s)) == ToInt(ParseFloat(s, |s|), false)
  {
    assert UnitOf(s) == (|s|, false);
  }

  /** A number followed by "MB" or "GB" is read in that unit. */
  lemma UnitSpelling(s: string, unit: string)
    requires unit == "MB" || unit == "GB"
    ensures MemoryMB(Text(s + unit)) == ToInt(ParseFloat(s + unit, |s|), unit == "GB")
  {
    var t := s + unit;
    assert t[|t| - 2] == unit[0] && t[|t| - 1] == unit[1];
    assert UnitOf(t) == (|s|, unit == "GB");
  }

  /** int() of a whole number of megabytes or gigabytes. */
  lemma WholeTimes(n: nat, gigabytes: bool)
    ensures Truncate(InMB(n as real, gigabytes)) == if gigabytes then 1000 * n else n
  {
    assert InMB(n as real, gigabytes) == (if gigabytes then 1000 * n else n) as real;
  }

  /** The three spellings of an amount of n megabytes, and n gigabytes. */
  lemma MemorySpellings(n: nat)
    ensures MemoryMB(Amount(n)) == Ok(n)
    ensures MemoryMB(Text(ShowNat(n))) == Ok(n)
    ensures MemoryMB(Text(ShowNat(n) + "MB")) == Ok(n)
    ensures MemoryMB(Text(ShowNat(n) + "GB")) == Ok(1000 * n)
  {
    var s := ShowNat(n);
    ParseShow(n, "");
    assert s + "" == s;
    NoUnit(s);
    ParseShow(n, "MB");
    UnitSpelling(s, "MB");
    ParseShow(n, "GB");
    UnitSpelling(s, "GB");
    WholeTimes(n, false);
    WholeTimes(n, true);
  }

  /** A number followed by a unit is read in that unit. */
  lemma UnitValue(s: string, m: real)
    requires HasUnit(s, 'M') || HasUnit(s, 'G')
    requires ParseFloat(s, |s| - 2) == Some(Finite(m))
    ensures MemoryMB(Text(s)) == Ok(Truncate(InMB(m, HasUnit(s, 'G'))))
  {
    assert UnitOf(s) == (|s| - 2, HasUnit(s, 'G'));
  }

  /** A number without a unit is read as megabytes. */
  lemma PlainValue(s: string, m: real)
    requires !HasUnit(s, 'M') && !HasUnit(s, 'G')
    requires ParseFloat(s, |s|) == Some(Finite(m))
    ensures MemoryMB(Text(s)) == Ok(Truncate(m))
  {
    assert UnitOf(s) == (|s|, false);
  }

  /** Strings float() reads beyond plain digits, a fraction of a gigabyte, and the two non-finite words. */
  lemma FloatSpellings()
    ensures MemoryMB(Text("5.")) == Ok(5)
    ensures MemoryMB(Text(" 12")) == Ok(12)
    ensures MemoryMB(Text("+4")) == Ok(4)
    ensures MemoryMB(Text("1e3")) == Ok(1000)
    ensures MemoryMB(Text("1.5GB")) == Ok(1500)
    ensures MemoryMB(Text("inf")) == Err(OverflowError)
    ensures MemoryMB(Text("nan")) == Err(ValueError)
  {
    TrailingPoint();
    LeadingSpace();
    SignedFour();
    ExponentThree();
    HalfGigabyte();
    InfWord();
    NanWord();
  }

  lemma TrailingPoint()
    ensures MemoryMB(Text("5.")) == Ok(5)
  {
    var s := "5.";
    PointParse(s, 1, 2);
    assert Value(s, 0, 1) == 5 && Fraction(s, 2, 2) == 0.0;
    PlainValue(s, 5.0);
    WholeTimes(5, false);
  }

  lemma LeadingSpace()
    ensures MemoryMB(Text(" 12")) == Ok(12)
  {
    var s := " 12";
    assert Value(s, 1, 3) == 12;
    SpacedDigits(s, 1, 3);
    NoUnit(s);
    WholeTimes(12, false);
  }

  /** Digits s[lo..n] after whitespace s[..lo] are read as the number they spell. */
  lemma SpacedDigits(s: string, lo: nat, n: nat)
    requires lo < n <= |s| && DigitsIn(s, lo, n)
    requires forall i :: 0 <= i < lo ==> IsSpace(s[i])
    ensures ParseFloat(s, n) == Some(Finite(Value(s, lo, n) as real))
  {
    SkipTo(s, 0, lo, n);
    assert TrimSpace(s, lo, n) == n;
    MantissaDigits(s, lo, n);
    NoExponent(s, lo, n);
    SpecialDigit(s, lo, n);
  }

  /** Whitespace up to lo, then a character that is none, is skipped up to lo. */
  lemma {:induction false} SkipTo(s: string, i: nat, lo: nat, n: nat)
    requires i <= lo < n <= |s| && !IsSpace(s[lo])
    requires forall j :: i <= j < lo ==> IsSpace(s[j])
    ensures SkipSpace(s, i, n) == lo
    decreases lo - i
  {
    if i < lo {
      SkipTo(s, i + 1, lo, n);
    }
  }

  lemma SignedFour()
    ensures MemoryMB(Text("+4")) == Ok(4)
  {
    var s := "+4";
    NoExponent(s, 1, 2);
    MantissaDigits(s, 1, 2);
    SignedParse(s, 2, 4.0);
    NoUnit(s);
    WholeTimes(4, false);
  }

  lemma ExponentThree()
    ensures MemoryMB(Text("1e3")) == Ok(1000)
  {
    var s := "1e3";
    assert FirstOf(s, true, 0, 3) == 1;
    MantissaDigits(s, 0, 1);
    assert Exponent(s, 2, 3) == Some(3);
    assert Decimal(s, 0, 3) == Some(1000.0);
    ParseDecimal(s, 3, 1000.0);
    NoUnit(s);
    WholeTimes(1000, false);
  }

  lemma HalfGigabyte()
    ensures MemoryMB(Text("1.5GB")) == Ok(1500)
  {
    var s := "1.5GB";
    PointParse(s, 1, 3);
    assert Value(s, 0, 1) == 1;
    assert Fraction(s, 3, 3) == 0.0;
    assert Fraction(s, 2, 3) == 0.5;
    assert HasUnit(s, 'G');
    UnitValue(s, 1.5);
    assert InMB(1.5, true) == 1500 as real;
  }

  lemma InfWord()
    ensures MemoryMB(Text("inf")) == Err(OverflowError)
  {
    var s := "inf";
    assert UnitOf(s) == (3, false);
    assert Spells(s, 0, 3, "inf");
    assert SkipSpace(s, 0, 3) == 0 && TrimSpace(s, 0, 3) == 3;
  }

  lemma NanWord()
    ensures MemoryMB(Text("nan")) == Err(ValueError)
  {
    var s := "nan";
    assert UnitOf(s) == (3, false);
    assert Spells(s, 0, 3, "nan");
    assert !Spells(s, 0, 3, "inf") && !Spells(s, 0, 3, "infinity") by {
      assert "inf"[0] == 'i';
    }
    assert SkipSpace(s, 0, 3) == 0 && TrimSpace(s, 0, 3) == 3;
  }

  /** A string with no digit and no 'n' is refused with ValueError, with or without a unit. */
  lemma MemoryRejects(s: string)
    requires Plain(s, 0, |s|)
    ensures MemoryMB(Text(s)) == Err(ValueError)
  {
    ParseRejects(s, UnitOf(s).0);
  }
}
