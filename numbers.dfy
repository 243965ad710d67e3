/** Kotlin's `String.toInt()` and `String.toDouble()` as the structure builder
    uses them. `toInt` is `Integer.parseInt`: an optional sign, decimal digits,
    and a value that fits in 32 bits. `toDouble` is modelled on plain decimal
    literals only (optional sign, digits, optional fraction), read as exact
    reals after Java's `trim`. */
module Numbers {
  import opened Results
  import opened Text

  const IntMin: int := -0x8000_0000
  const IntMax: int := 0x7fff_ffff

  predicate IsDigit(c: char) {
    '0' <= c <= '9'
  }

  /** Every character is a decimal digit (checked from the last one back). */
  predicate AllDigits(s: string) {
    s == [] || (AllDigits(s[..|s| - 1]) && IsDigit(s[|s| - 1]))
  }

  lemma {:induction false} AllDigitsAt(s: string, i: int)
    requires AllDigits(s) && 0 <= i < |s|
    ensures IsDigit(s[i])
  {
    if i < |s| - 1 {
      AllDigitsAt(s[..|s| - 1], i);
    }
  }

  function DigitValue(c: char): (v: nat)
    requires IsDigit(c)
    ensures v <= 9
  {
    c as int - '0' as int
  }

  function DigitChar(v: nat): (c: char)
    requires v <= 9
    ensures IsDigit(c) && DigitValue(c) == v
  {
    (v + '0' as int) as char
  }

  /** The value of a string of decimal digits, most significant first. */
  function NatValue(s: string): nat
    requires AllDigits(s)
  {
    if s == [] then 0 else NatValue(s[..|s| - 1]) * 10 + DigitValue(s[|s| - 1])
  }

  lemma {:induction false} AllDigitsDrop(s: string)
    requires AllDigits(s) && s != []
    ensures AllDigits(s[1..])
  {
    if |s| > 1 {
      AllDigitsDrop(s[..|s| - 1]);
      assert s[..|s| - 1][1..] == s[1..][..|s| - 2];
    }
  }

  /** The value of the digits after a decimal point: `d1 d2 ...` is `0.d1d2...`. */
  function FractionValue(s: string): (r: real)
    requires AllDigits(s)
    ensures 0.0 <= r < 1.0
  {
    if s == [] then 0.0
    else
      AllDigitsAt(s, 0);
      AllDigitsDrop(s);
      var d := DigitValue(s[0]) as real;
      var rest := FractionValue(s[1..]);
      assert d + rest < 10.0;
      (d + rest) / 10.0
  }

  /** The canonical decimal writing of a natural number (no leading zeros). */
  function NatToString(n: nat): (s: string)
    ensures |s| > 0 && AllDigits(s)
  {
    if n < 10 then [DigitChar(n)]
    else
      var s := NatToString(n / 10) + [DigitChar(n % 10)];
      assert s[..|s| - 1] == NatToString(n / 10);
      s
  }

  lemma {:induction false} NatToStringRoundTrip(n: nat)
    ensures NatValue(NatToString(n)) == n
  {
    if n >= 10 {
      var s := NatToString(n);
      assert s[..|s| - 1] == NatToString(n / 10);
      NatToStringRoundTrip(n / 10);
    }
  }

  /** `String.toInt()`: `None` is the `NumberFormatException`. */
  function ParseInt(s: string): (r: Option<int>)
    ensures r.Some? ==> IntMin <= r.value <= IntMax
    ensures r.Some? ==> exists i :: 0 <= i < |s| && IsDigit(s[i])
  {
    var signed := |s| > 0 && (s[0] == '-' || s[0] == '+');
    var digits := if signed then s[1..] else s;
    if digits == [] || !AllDigits(digits) then None
    else
      var magnitude: int := NatValue(digits);
      var n := if |s| > 0 && s[0] == '-' then -magnitude else magnitude;
      assert IsDigit(s[|s| - 1]);
      if IntMin <= n <= IntMax then Some(n) else None
  }

  function IntToString(n: int): string {
    if n < 0 then "-" + NatToString(-n) else NatToString(n)
  }

  /** `toInt` accepts the decimal writing of exactly the 32-bit integers. */
  lemma IntToStringRoundTrip(n: int)
    ensures ParseInt(IntToString(n)) == if IntMin <= n <= IntMax then Some(n) else None
  {
    if n < 0 {
      assert IntToString(n) == "-" + NatToString(-n);
      NegativeToInt(-n);
    } else {
      NonNegativeToInt(n);
    }
  }

  lemma NegativeToInt(m: nat)
    requires m > 0
    ensures ParseInt("-" + NatToString(m)) == if m <= -IntMin then Some(-(m as int)) else None
  {
    var s := "-" + NatToString(m);
    assert s[1..] == NatToString(m);
    NatToStringRoundTrip(m);
  }

  lemma NonNegativeToInt(n: nat)
    ensures ParseInt(NatToString(n)) == if n <= IntMax then Some(n) else None
  {
    AllDigitsAt(NatToString(n), 0);
    NatToStringRoundTrip(n);
  }

  /** An unsigned decimal literal: digits, optionally a point and more digits,
      with at least one digit on either side of the point. */
  function ParseUnsignedDecimal(s: string): (r: Option<real>)
    ensures r.Some? ==> r.value >= 0.0
  {
    var k := IndexOf(s, '.');
    var whole := s[..k];
    var fraction := if k < |s| then s[k + 1..] else [];
    if |whole| + |fraction| > 0 && AllDigits(whole) && AllDigits(fraction) then
      Some(NatValue(whole) as real + FractionValue(fraction))
    else None
  }

  function ParseDecimal(s: string): Option<real> {
    if |s| > 0 && (s[0] == '-' || s[0] == '+') then
      match ParseUnsignedDecimal(s[1..])
      case None => None
      case Some(v) => Some(if s[0] == '-' then -v else v)
    else ParseUnsignedDecimal(s)
  }

  /** `String.toDouble()`: `None` is the `NumberFormatException`. */
  function ParseDouble(s: string): Option<real> {
    ParseDecimal(Trim(s))
  }

  /** A decimal literal as a writer of the description would type it. */
  datatype DecimalLiteral = DecimalLiteral(negative: bool, whole: string, fraction: string)
  {
    ghost predicate Valid() {
      |whole| > 0 && AllDigits(whole) && AllDigits(fraction)
    }

    function Unsigned(): string {
      if fraction == [] then whole else whole + "." + fraction
    }

    function Render(): string {
      if negative then "-" + Unsigned() else Unsigned()
    }

    function Value(): real
      requires Valid()
    {
      var v := NatValue(whole) as real + FractionValue(fraction);
      if negative then -v else v
    }
  }

  /** Digits hold no decimal point. */
  lemma NoPointInDigits(w: string)
    requires AllDigits(w)
    ensures forall i :: 0 <= i < |w| ==> w[i] != '.'
  {
    forall i | 0 <= i < |w| ensures w[i] != '.' {
      AllDigitsAt(w, i);
    }
  }

  lemma UnsignedRoundTrip(lit: DecimalLiteral)
    requires lit.Valid()
    ensures ParseUnsignedDecimal(lit.Unsigned()) == Some(NatValue(lit.whole) as real + FractionValue(lit.fraction))
  {
    var s := lit.Unsigned();
    var w := lit.whole;
    NoPointInDigits(w);
    if lit.fraction == [] {
      assert s == w;
      IndexOfUnique(s, '.', |w|);
      assert s[..|w|] == w;
    } else {
      assert s[|w|] == '.' && s[..|w|] == w;
      IndexOfUnique(s, '.', |w|);
      assert s[|w| + 1..] == lit.fraction;
    }
  }

  /** A literal starts with a sign or a digit and ends with a digit. */
  lemma RenderShape(lit: DecimalLiteral)
    requires lit.Valid()
    ensures |lit.Render()| > 0
    ensures IsDigit(lit.Render()[|lit.Render()| - 1])
    ensures lit.Render()[0] == '-' || IsDigit(lit.Render()[0])
  {
    var u := lit.Unsigned();
    AllDigitsAt(lit.whole, 0);
    assert u[0] == lit.whole[0];
    if lit.fraction == [] {
      assert u == lit.whole;
    } else {
      assert u[|u| - 1] == lit.fraction[|lit.fraction| - 1];
    }
  }

  /** A literal is written with digits, `-` and `.` only. */
  lemma RenderAlphabet(lit: DecimalLiteral)
    requires lit.Valid()
    ensures forall i :: 0 <= i < |lit.Render()| ==>
      IsDigit(lit.Render()[i]) || lit.Render()[i] == '-' || lit.Render()[i] == '.'
  {
    var s := lit.Render();
    var u := lit.Unsigned();
    var w, f := lit.whole, lit.fraction;
    var sign := if lit.negative then 1 else 0;
    forall i | 0 <= i < |s| ensures IsDigit(s[i]) || s[i] == '-' || s[i] == '.' {
      if i >= sign {
        var j := i - sign;
        assert s[i] == u[j];
        if j < |w| {
          assert u[j] == w[j];
          AllDigitsAt(w, j);
        } else if j > |w| {
          assert u[j] == f[j - |w| - 1];
          AllDigitsAt(f, j - |w| - 1);
        }
      }
    }
  }

  /** `toDouble` reads back the value of every decimal literal. */
  lemma DecimalRoundTrip(lit: DecimalLiteral)
    requires lit.Valid()
    ensures ParseDouble(lit.Render()) == Some(lit.Value())
  {
    RenderShape(lit);
    TrimmedDouble(lit.Render());
    DecimalOfRender(lit);
  }

  /** Without surrounding blanks `toDouble` reads the literal as it stands. */
  lemma TrimmedDouble(s: string)
    requires s != [] ==> !IsTrimmed(s[0]) && !IsTrimmed(s[|s| - 1])
    ensures ParseDouble(s) == ParseDecimal(s)
  {
    TrimNoop(s);
  }

  lemma DecimalOfRender(lit: DecimalLiteral)
    requires lit.Valid()
    ensures ParseDecimal(lit.Render()) == Some(lit.Value())
  {
    if lit.negative {
      NegativeLiteral(lit);
    } else {
      PositiveLiteral(lit);
    }
  }

  lemma NegativeLiteral(lit: DecimalLiteral)
    requires lit.Valid() && lit.negative
    ensures ParseDecimal("-" + lit.Unsigned()) == Some(lit.Value())
  {
    var u := lit.Unsigned();
    UnsignedRoundTrip(lit);
    NegativeDecimal(u);
    assert lit.Value() == -(NatValue(lit.whole) as real + FractionValue(lit.fraction));
  }

  lemma PositiveLiteral(lit: DecimalLiteral)
    requires lit.Valid() && !lit.negative
    ensures ParseDecimal(lit.Unsigned()) == Some(lit.Value())
  {
    UnsignedRoundTrip(lit);
    AllDigitsAt(lit.whole, 0);
    assert lit.Unsigned()[0] == lit.whole[0];
    UnsignedDecimal(lit.Unsigned());
  }

  /** A leading `-` negates the unsigned literal after it. */
  lemma NegativeDecimal(u: string)
    ensures ParseDecimal("-" + u) == match ParseUnsignedDecimal(u)
      case None => None
      case Some(v) => Some(-v)
  {
    assert ("-" + u)[1..] == u;
  }

  /** Without a sign the literal is read as unsigned. */
  lemma UnsignedDecimal(u: string)
    requires |u| > 0 && IsDigit(u[0])
    ensures ParseDecimal(u) == ParseUnsignedDecimal(u)
  {
  }

  /** A natural number written as digits reads back as that number. */
  lemma NatAsDouble(n: nat)
    ensures ParseDouble(NatToString(n)) == Some(n as real)
  {
    var lit := DecimalLiteral(false, NatToString(n), "");
    assert lit.Render() == NatToString(n);
    NatToStringRoundTrip(n);
    DecimalRoundTrip(lit);
  }
}
