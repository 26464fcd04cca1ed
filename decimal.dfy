/** The numbers that `float(...)` accepts in this pipeline, as exact decimals:
    an optional sign, then digits with at most one decimal point and at least
    one digit ("12", "12.", ".5", "-3.25"). */
module Decimal {
  import opened Text
  import opened Outcomes

  predicate AllDigits(s: string)
  {
    forall k :: 0 <= k < |s| ==> IsDigit(s[k])
  }

  /** The characters after an optional leading sign. */
  function Body(s: string): string
  {
    if |s| > 0 && (s[0] == '+' || s[0] == '-') then s[1..] else s
  }

  /** The accepted grammar, stated without reference to how it is parsed. */
  predicate IsDecimal(s: string)
  {
    var b := Body(s);
    || (|b| > 0 && AllDigits(b))
    || (|b| > 1 && exists k :: 0 <= k < |b| && b[k] == '.' && AllDigits(b[..k]) && AllDigits(b[k + 1..]))
  }

  function DigitValue(c: char): nat
    requires IsDigit(c)
  {
    c as int - '0' as int
  }

  /** The value of a digit string read in base ten ("" reads as 0). */
  function DigitsValue(s: string): nat
    requires AllDigits(s)
  {
    if s == [] then 0 else 10 * DigitsValue(s[..|s| - 1]) + DigitValue(s[|s| - 1])
  }

  function Pow10(n: nat): (r: nat)
    ensures r >= 1
  {
    if n == 0 then 1 else 10 * Pow10(n - 1)
  }

  /** Index of the first decimal point, or |s| if there is none. */
  function DotIndex(s: string): (k: nat)
    ensures k <= |s|
    ensures k < |s| ==> s[k] == '.'
    ensures forall j :: 0 <= j < k ==> s[j] != '.'
  {
    if s == [] then 0 else if s[0] == '.' then 0 else 1 + DotIndex(s[1..])
  }

  /** The value of a decimal with integer digits worth i and n fraction
      digits worth f. */
  function Scaled(i: nat, f: nat, n: nat): real
  {
    i as real + f as real / Pow10(n) as real
  }

  function ParseUnsigned(b: string): Option<real>
  {
    var k := DotIndex(b);
    if k == |b| then
      if |b| > 0 && AllDigits(b) then Some(DigitsValue(b) as real) else None
    else if |b| > 1 && AllDigits(b[..k]) && AllDigits(b[k + 1..]) then
      Some(Scaled(DigitsValue(b[..k]), DigitsValue(b[k + 1..]), |b| - k - 1))
    else None
  }

  /** `float(s)`: the exact value of `s`, or None where Python raises ValueError. */
  function Parse(s: string): (r: Option<real>)
    ensures r.Some? <==> IsDecimal(s)
  {
    var b := Body(s);
    var k := DotIndex(b);
    assert k < |b| && |b| > 1 && AllDigits(b[..k]) && AllDigits(b[k + 1..]) ==> IsDecimal(s);
    assert IsDecimal(s) && !AllDigits(b) ==> k < |b| && AllDigits(b[..k]) && AllDigits(b[k + 1..]) by {
      if IsDecimal(s) && !AllDigits(b) {
        var j :| 0 <= j < |b| && b[j] == '.' && AllDigits(b[..j]) && AllDigits(b[j + 1..]);
        assert forall i :: 0 <= i < j ==> b[i] != '.' by {
          forall i | 0 <= i < j ensures b[i] != '.' { assert b[..j][i] == b[i]; }
        }
        assert j == k;
      }
    }
    match ParseUnsigned(b)
    case None => None
    case Some(v) => Some(if |s| > 0 && s[0] == '-' then -v else v)
  }

  function DigitChar(d: nat): (c: char)
    requires d < 10
    ensures IsDigit(c) && DigitValue(c) == d
  {
    ('0' as int + d) as char
  }

  /** `str(n)` for a natural number. */
  function NatToString(n: nat): (s: string)
    ensures |s| > 0 && AllDigits(s)
  {
    if n < 10 then [DigitChar(n)] else NatToString(n / 10) + [DigitChar(n % 10)]
  }

  lemma {:induction false} DigitsValueOfNatToString(n: nat)
    ensures DigitsValue(NatToString(n)) == n
  {
    var s := NatToString(n);
    if n >= 10 {
      assert s[..|s| - 1] == NatToString(n / 10);
      DigitsValueOfNatToString(n / 10);
    } else {
      assert s[..|s| - 1] == [];
    }
  }

  /** Reading back the decimal rendering of a natural number gives the number. */
  lemma ParseNatToString(n: nat)
    ensures Parse(NatToString(n)) == Some(n as real)
  {
    var s := NatToString(n);
    assert Body(s) == s;
    assert forall j :: 0 <= j < |s| ==> s[j] != '.' by {
      forall j | 0 <= j < |s| ensures s[j] != '.' { assert IsDigit(s[j]); }
    }
    DigitsValueOfNatToString(n);
  }

  /** A sign in front of an unsigned number: `-` negates its value, `+`
      keeps it. */
  lemma ParseSign(t: string)
    requires t == [] || (t[0] != '+' && t[0] != '-')
    requires Parse(t).Some?
    ensures Parse("-" + t) == Some(-Parse(t).value)
    ensures Parse("+" + t) == Some(Parse(t).value)
  {
    assert ("-" + t)[1..] == t && ("+" + t)[1..] == t;
  }

  /** Appending digits shifts the value: the digits of a then b read as
      a's value times ten to the length of b, plus b's value. */
  lemma {:induction false} DigitsValueAppend(a: string, b: string)
    requires AllDigits(a) && AllDigits(b)
    ensures AllDigits(a + b)
    ensures DigitsValue(a + b) == DigitsValue(a) * Pow10(|b|) + DigitsValue(b)
  {
    assert AllDigits(a + b) by {
      forall k | 0 <= k < |a + b| ensures IsDigit((a + b)[k]) {
        if k < |a| { assert (a + b)[k] == a[k]; } else { assert (a + b)[k] == b[k - |a|]; }
      }
    }
    if b == [] {
      assert a + b == a;
    } else {
      var init := b[..|b| - 1];
      assert AllDigits(init) by {
        forall k | 0 <= k < |init| ensures IsDigit(init[k]) { assert init[k] == b[k]; }
      }
      assert (a + b)[..|a + b| - 1] == a + init;
      DigitsValueAppend(a, init);
      var x, p, y, d := DigitsValue(a), Pow10(|init|), DigitsValue(init), DigitValue(b[|b| - 1]);
      assert Pow10(|b|) == 10 * p && DigitsValue(b) == 10 * y + d;
      assert DigitsValue(a + b) == 10 * (x * p + y) + d;
      ShiftDigit(x, p, y, d);
    }
  }

  /** One more digit multiplies the shifted value by ten. */
  lemma ShiftDigit(x: int, p: int, y: int, d: int)
    ensures 10 * (x * p + y) + d == x * (10 * p) + (10 * y + d)
  {
  }

  /** A non-empty digit string reads as its base-ten value. */
  lemma ParseDigits(t: string)
    requires AllDigits(t) && |t| > 0
    ensures Parse(t) == Some(DigitsValue(t) as real)
  {
    assert IsDigit(t[0]);
    assert Body(t) == t;
    assert forall j :: 0 <= j < |t| ==> t[j] != '.' by {
      forall j | 0 <= j < |t| ensures t[j] != '.' { assert IsDigit(t[j]); }
    }
    assert DotIndex(t) == |t|;
  }

  /** Digits, a point, digits: the integer part plus the fraction digits
      divided by ten to their number. */
  lemma ParsePoint(a: string, b: string)
    requires AllDigits(a) && AllDigits(b) && |a| + |b| > 0
    ensures Parse(a + "." + b) == Some(Scaled(DigitsValue(a), DigitsValue(b), |b|))
  {
    var s := a + "." + b;
    assert s[|a|] == '.';
    assert forall j :: 0 <= j < |a| ==> s[j] != '.' by {
      forall j | 0 <= j < |a| ensures s[j] != '.' { assert s[j] == a[j] && IsDigit(a[j]); }
    }
    assert s[0] != '+' && s[0] != '-' by {
      if |a| > 0 { assert s[0] == a[0] && IsDigit(a[0]); }
    }
    assert Body(s) == s;
    assert DotIndex(s) == |a|;
    assert s[..|a|] == a && s[|a| + 1..] == b && |s| - |a| - 1 == |b|;
  }

  /** x with its decimal point moved n places to the right: x times ten
      to the n. */
  function Shift(x: real, n: nat): real
  {
    x * Pow10(n) as real
  }

  lemma DivMul(x: real, y: real, p: real)
    requires p > 0.0
    ensures (x + y / p) * p == x * p + y
  {
    assert (y / p) * p == y;
  }

  lemma MulAsReal(i: int, m: int)
    ensures (i * m) as real == i as real * m as real
  {
  }

  /** Moving the point back past the n fraction digits gives the whole
      digit string's value. */
  lemma ScaleBack(i: nat, f: nat, n: nat, w: nat)
    requires w == i * Pow10(n) + f
    ensures Shift(Scaled(i, f, n), n) == w as real
  {
    var p := Pow10(n);
    assert Shift(Scaled(i, f, n), n) == (i as real + f as real / p as real) * p as real;
    DivMul(i as real, f as real, p as real);
    MulAsReal(i, p);
  }

  /** The same, for the digit strings a and b. */
  lemma ShiftDigits(a: string, b: string)
    requires AllDigits(a) && AllDigits(b)
    ensures AllDigits(a + b)
    ensures Shift(Scaled(DigitsValue(a), DigitsValue(b), |b|), |b|) == DigitsValue(a + b) as real
  {
    DigitsValueAppend(a, b);
    ScaleBack(DigitsValue(a), DigitsValue(b), |b|, DigitsValue(a + b));
  }

  /** The decimal point scales: the digits a and b with a point between them,
      multiplied by ten to the number of fraction digits, read as the digits
      a then b. */
  lemma ParseScale(a: string, b: string)
    requires AllDigits(a) && AllDigits(b) && |a| + |b| > 0
    ensures Parse(a + "." + b).Some? && Parse(a + b).Some?
    ensures Shift(Parse(a + "." + b).value, |b|) == Parse(a + b).value
  {
    ParsePoint(a, b);
    ShiftDigits(a, b);
    ParseDigits(a + b);
  }

  /** `float(s.replace(",", ""))`: the value, or the ValueError Python raises. */
  function ParseAmount(s: string): (r: Result<real>)
    ensures r.Success? <==> IsDecimal(StripCommas(s))
    ensures r.Success? ==> Parse(StripCommas(s)) == Some(r.value)
    ensures r.Failure? ==> r.error == ValueError(StripCommas(s))
  {
    match Parse(StripCommas(s))
    case None => Failure(ValueError(StripCommas(s)))
    case Some(v) => Success(v)
  }
}
