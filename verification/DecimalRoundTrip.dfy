/** What printing and parsing promise each other. */
module DecimalRoundTrip {
  import opened Int64
  import opened Decimal
  import opened DecimalText
  import opened Options

  function Minus(neg: bool): string { if neg then "-" else "" }

  // ---------------------------------------------------------------- the printed form

  lemma {:induction false} ZerosBothEnds(n: nat)
    ensures Zeros(n) + "0" == Zeros(n + 1)
  {
    if n > 0 {
      ZerosBothEnds(n - 1);
      assert "0" + Zeros(n - 1) + "0" == "0" + (Zeros(n - 1) + "0");
    }
  }

  lemma {:induction false} PadToZeros(s: string)
    requires |s| <= PRECISION
    ensures PadTo(s) == Zeros(PRECISION - |s|) + s
    decreases PRECISION - |s|
  {
    if |s| < PRECISION {
      PadToZeros("0" + s);
      ZerosBothEnds(PRECISION - |s| - 1);
      assert Zeros(PRECISION - |s| - 1) + ("0" + s) == (Zeros(PRECISION - |s| - 1) + "0") + s;
    } else {
      assert "" + s == s;
    }
  }

  lemma PadDigits(v: nat)
    requires v < SCALE
    ensures |Pad(v)| == PRECISION && AllDigits(Pad(v)) && Value(Pad(v)) == v
  {
    Pow10Of8();
    FormatNatLength(v, PRECISION);
    PadToZeros(FormatNat(v));
    var n := PRECISION - |FormatNat(v)|;
    ValueLeadingZeros(n, FormatNat(v));
    ZerosAreDigits(n);
    DigitsConcat(Zeros(n), FormatNat(v));
  }

  /** `i` and `f` are the digits before and after the dot in the printed form of `d`. */
  ghost predicate DigitsOf(d: D, i: string, f: string) {
    && AllDigits(i) && i != "" && Value(i) == Abs(d) / SCALE
    && AllDigits(f) && |f| == PRECISION && Value(f) == Abs(d) % SCALE
  }

  lemma ZeroShown()
    ensures Joined("0", true, "00000000") == "0.00000000"
    ensures DigitsOf(0, "0", "00000000")
  {
    ZerosAreDigits(1);
    ZerosAreDigits(8);
    assert Zeros(1) == "0" && Zeros(8) == "00000000";
  }

  lemma UnsignedParts(v: nat) returns (i: string, f: string)
    ensures Unsigned(v) == Joined(i, true, f)
    ensures AllDigits(i) && i != "" && Value(i) == v / SCALE
    ensures AllDigits(f) && |f| == PRECISION && Value(f) == v % SCALE
  {
    assert TruncDiv(v, SCALE) == v / SCALE && TruncRem(v, SCALE) == v % SCALE;
    i, f := FormatNat(v / SCALE), Pad(v % SCALE);
    PadDigits(v % SCALE);
  }

  lemma NegatedFits(d: D)
    requires d != MIN && d != 0
    ensures Show(d) == Minus(d < 0) + Unsigned(Abs(d))
  {
    if d < 0 {
      var m: int := d;
      assert Wrap(0 - m) == Abs(d);
    } else {
      assert "" + Unsigned(d) == Unsigned(d);
    }
  }

  lemma ShowParts(d: D) returns (i: string, f: string)
    requires d != MIN
    ensures Show(d) == Minus(d < 0) + Joined(i, true, f) && DigitsOf(d, i, f)
  {
    if d == 0 {
      ZeroShown();
      i, f := "0", "00000000";
      assert "" + "0.00000000" == "0.00000000";
    } else {
      NegatedFits(d);
      i, f := UnsignedParts(Abs(d));
    }
  }

  lemma ShowMin(d: D)
    requires d == MIN
    ensures Show(d) == "-" + Unsigned(d)
  {
    WrapCongruent(-MIN, MIN, 1);
  }

  lemma UnsignedNegative(n: int)
    requires n > 0 && n / SCALE > 0 && n % SCALE > 0
    ensures Unsigned(-n) == Joined("-" + FormatNat(n / SCALE), true, PadTo("-" + FormatNat(n % SCALE)))
  {
    assert TruncDiv(-n, SCALE) == -(n / SCALE) && TruncRem(-n, SCALE) == -(n % SCALE);
  }

  lemma ShowOfMinText(d: D, n: int)
    requires d == MIN && n == Abs(d)
    ensures Show(d) == "-" + Joined("-" + FormatNat(n / SCALE), true, PadTo("-" + FormatNat(n % SCALE)))
  {
    UnsignedNegative(n);
    ShowMin(d);
  }

  /** The most negative value negates to itself, so its digits get a second minus sign,
      and its fraction gets one as well. */
  lemma ShowOfMin(d: D) returns (i: string, f: string)
    requires d == MIN
    ensures Show(d) == "-" + Joined("-" + i, true, "-" + f)
    ensures AllDigits(i) && AllDigits(f) && f != "" && f[|f| - 1] == '8'
  {
    var n := Abs(d);
    i, f := FormatNat(n / SCALE), FormatNat(n % SCALE);
    ShowOfMinText(d, n);
    FracOfMin(n % SCALE);
    LongNotPadded("-" + f);
  }

  lemma LongNotPadded(s: string)
    requires |s| >= PRECISION
    ensures PadTo(s) == s
  {
  }

  lemma FracOfMin(r: nat)
    requires r == 54775808
    ensures var f := FormatNat(r); |f| >= PRECISION && f[|f| - 1] == '8'
  {
    assert Pow10(3) == 1000 && Pow10(7) == 10000000;
    FormatNatAtLeast(r, PRECISION);
    FormatNatTail(r);
    assert DigitChar(8) == '8';
  }

  lemma FormatNatTail(n: nat)
    ensures var s := FormatNat(n); s[|s| - 1] == DigitChar(n % 10)
  {
  }

  lemma {:induction false} FormatNatAtLeast(n: nat, k: nat)
    requires k >= 1 && n >= Pow10(k - 1)
    ensures |FormatNat(n)| >= k
  {
    if k > 1 {
      FormatNatAtLeast(n / 10, k - 1);
    }
  }

  // ---------------------------------------------------------------- parsing a printed form

  lemma BodyOf(neg: bool, b: string)
    requires b != "" && IsDigit(b[0])
    ensures var s := Minus(neg) + b;
            s != "" && Body(s) == b && (s[0] == '-' <==> neg)
  {
    assert b[0] != '-' && b[0] != '+';
    if neg {
      assert ("-" + b)[1..] == b;
    } else {
      assert Minus(neg) + b == b;
    }
  }

  lemma ParseBody(s: string, b: string)
    requires s != "" && Body(s) == b && WellFormed(b)
    ensures Parse(s) == Some(Wrap(if s[0] == '-' then 0 - Magnitude(b) else Magnitude(b)))
  {
  }

  lemma ParseText(neg: bool, i: string, dotted: bool, f: string)
    requires AllDigits(i) && |i| >= 1 && AllDigits(f) && (dotted || f == "")
    ensures var m := Value(i) * SCALE + Value(EightDigits(f));
            Parse(Minus(neg) + Joined(i, dotted, f)) == Some(Wrap(if neg then 0 - m else m))
  {
    var b := Joined(i, dotted, f);
    DigitsHaveNoDot(i);
    JoinedParts(i, dotted, f);
    assert b[0] == i[0];
    BodyOf(neg, b);
    ParseBody(Minus(neg) + b, b);
  }

  lemma PartsValue(d: D)
    requires d != MIN
    ensures var m := Abs(d) / SCALE * SCALE + Abs(d) % SCALE;
            d == Wrap(if d < 0 then 0 - m else m)
  {
  }

  lemma ParseOf(d: D, i: string, dotted: bool, f: string)
    requires d != MIN && AllDigits(i) && i != "" && AllDigits(f) && (dotted || f == "")
    requires Value(i) == Abs(d) / SCALE && Value(EightDigits(f)) == Abs(d) % SCALE
    ensures Parse(Minus(d < 0) + Joined(i, dotted, f)) == Some(d)
  {
    ParseText(d < 0, i, dotted, f);
    PartsValue(d);
  }

  lemma {:induction false} ValueShift(acc: int, s: string)
    ensures ValueFrom(acc, s) == acc * Pow10(|s|) + Value(s)
    decreases |s|
  {
    if s != "" {
      var c, p := DigitValue(s[0]), Pow10(|s| - 1);
      ValueShift(acc * 10 + c, s[1..]);
      ValueShift(c, s[1..]);
      MulAssoc(acc, 10, p);
    }
  }

  lemma {:induction false} Pow10Sum(m: nat, n: nat)
    ensures Pow10(m + n) == Pow10(m) * Pow10(n)
  {
    if m > 0 {
      Pow10Sum(m - 1, n);
      MulAssoc(10, Pow10(m - 1), Pow10(n));
    }
  }

  lemma ValueJoin(s: string, t: string)
    ensures Value(s + t) == Value(s) * Pow10(|t|) + Value(t)
  {
    ValueConcat(0, s, t);
    ValueShift(Value(s), t);
  }

  lemma ShortFraction(f: string, k: nat)
    requires |f| + k == PRECISION
    ensures Value(f + Zeros(k)) * Pow10(|f|) == Value(f) * SCALE
  {
    ValueJoin(f, Zeros(k));
    ZerosAreDigits(k);
    Pow10Of8();
    Pow10Sum(k, |f|);
    MulAssoc(Value(f), Pow10(k), Pow10(|f|));
  }

  lemma LongFraction(g: string, h: string)
    requires |g| == PRECISION && AllDigits(h)
    ensures var u, p := Value(g), Pow10(|g + h|); u * p <= Value(g + h) * SCALE < u * p + p
  {
    ValueJoin(g, h);
    ValueBound(0, h);
    Pow10Of8();
    Pow10Sum(PRECISION, |h|);
    ScaledUnits(Value(g), Pow10(|h|), Value(h));
  }

  lemma Split(f: string, n: nat)
    requires n <= |f|
    ensures f == f[..n] + f[n..]
  {
  }

  /** Cutting a fraction to eight digits, or filling it up, rounds down to a whole number of units. */
  lemma FractionUnits(f: string)
    requires AllDigits(f)
    ensures var u, p := Value(EightDigits(f)), Pow10(|f|); u * p <= Value(f) * SCALE < u * p + p
  {
    hide Value, Pow10, AllDigits;
    if |f| >= PRECISION {
      var g, h := f[..PRECISION], f[PRECISION..];
      Split(f, PRECISION);
      DigitsConcat(g, h);
      LongFraction(g, h);
    } else {
      ShortFraction(f, PRECISION - |f|);
    }
  }

  lemma ScaledUnits(u: int, q: int, h: int)
    requires 0 <= h < q
    ensures u * (SCALE * q) <= (u * q + h) * SCALE < u * (SCALE * q) + SCALE * q
  {
    MulAssoc(u, q, SCALE);
    assert (u * q + h) * SCALE == u * q * SCALE + h * SCALE;
  }

  /** What a text of digits denotes: `n` units, the number the digits spell rounded towards zero. A leading plus is
      as good as none, and either side of the dot may be empty. */
  lemma ParseMeaning(sign: string, i: string, dotted: bool, f: string) returns (n: int)
    requires sign == "" || sign == "-" || sign == "+"
    requires AllDigits(i) && AllDigits(f) && (dotted || f == "") && sign + Joined(i, dotted, f) != ""
    ensures Parse(sign + Joined(i, dotted, f)) == Some(Wrap(if sign == "-" then -n else n))
    ensures n * Pow10(|f|) <= Value(i + f) * SCALE < (n + 1) * Pow10(|f|)
  {
    hide Value, Pow10, EightDigits;
    var b, s := Joined(i, dotted, f), sign + Joined(i, dotted, f);
    n := Magnitude(b);
    DigitsHaveNoDot(i);
    JoinedParts(i, dotted, f);
    SignedBody(sign, b);
    ParseBody(s, b);
    WholeUnits(i, f);
  }

  lemma WholeUnits(i: string, f: string)
    requires AllDigits(f)
    ensures var n := Value(i) * SCALE + Value(EightDigits(f));
            n * Pow10(|f|) <= Value(i + f) * SCALE < (n + 1) * Pow10(|f|)
  {
    hide Value, Pow10, AllDigits, EightDigits;
    FractionUnits(f);
    ValueJoin(i, f);
    UnitsSum(Value(i), Pow10(|f|), Value(EightDigits(f)), Value(f));
  }

  lemma UnitsSum(v: int, p: int, u: int, r: int)
    requires u * p <= r * SCALE < u * p + p
    ensures (v * SCALE + u) * p <= (v * p + r) * SCALE < (v * SCALE + u + 1) * p
  {
    MulAssoc(v, SCALE, p);
    MulAssoc(v, p, SCALE);
    assert (v * SCALE + u) * p == v * SCALE * p + u * p;
    assert (v * SCALE + u + 1) * p == v * SCALE * p + u * p + p;
  }

  lemma SignedBody(sign: string, b: string)
    requires sign == "" || sign == "-" || sign == "+"
    requires sign + b != "" && (b == "" || b[0] == '.' || IsDigit(b[0]))
    ensures Body(sign + b) == b && ((sign + b)[0] == '-' <==> sign == "-")
  {
    if sign == "" {
      assert sign + b == b;
    } else {
      assert (sign + b)[1..] == b;
    }
  }

  /** And no other text is accepted. */
  lemma AcceptedForm(s: string) returns (sign: string, i: string, dotted: bool, f: string)
    requires Parse(s).Some?
    ensures s != "" && s == sign + Joined(i, dotted, f) && (sign == "" || sign == "-" || sign == "+")
    ensures AllDigits(i) && AllDigits(f) && (dotted || f == "")
  {
    var b := Body(s);
    sign := if Signed(s) then [s[0]] else "";
    i, dotted, f := IntPart(b), DotAt(b) < |b|, FracPart(b);
    SignAndBody(s);
    PartsOf(b);
  }

  lemma SignAndBody(s: string)
    requires s != ""
    ensures s == (if Signed(s) then [s[0]] else "") + Body(s)
  {
  }

  lemma PartsOf(b: string)
    ensures b == Joined(IntPart(b), DotAt(b) < |b|, FracPart(b))
  {
    if DotAt(b) < |b| {
      CutAt(b, DotAt(b));
    }
  }

  lemma CutAt(b: string, n: nat)
    requires n < |b|
    ensures b == b[..n] + [b[n]] + b[n + 1..]
  {
  }

  /** A leading plus is dropped, whatever follows. */
  lemma PlusDropped(b: string)
    requires b != "" && b[0] != '-' && b[0] != '+'
    ensures Parse("+" + b) == Parse(b)
  {
    assert ("+" + b)[1..] == b;
  }

  lemma SecondMinusRejected(s: string)
    requires |s| >= 2 && s[0] == '-' && s[1] == '-'
    ensures Parse(s) == None
  {
    assert Body(s)[0] == '-';
    assert DotAt(Body(s)) > 0;
    assert IntPart(Body(s))[0] == '-';
  }

  lemma JoinSuffix(p: string, i: string, f: string, z: string)
    ensures p + Joined(i, true, f) + z == p + Joined(i, true, f + z)
  {
  }

  lemma MoreZeros(f: string, n: nat)
    requires AllDigits(f) && |f| == PRECISION
    ensures AllDigits(f + Zeros(n)) && EightDigits(f + Zeros(n)) == f
  {
    ZerosAreDigits(n);
    DigitsConcat(f, Zeros(n));
  }

  lemma TwoMinuses(i: string, f: string, z: string)
    ensures var s := "-" + Joined("-" + i, true, f) + z;
            |s| >= 2 && s[0] == '-' && s[1] == '-'
  {
  }

  lemma MinRejected(d: D, n: nat)
    requires d == MIN
    ensures Parse(Show(d) + Zeros(n)) == None
  {
    var i, f := ShowOfMin(d);
    TwoMinuses(i, "-" + f, Zeros(n));
    SecondMinusRejected(Show(d) + Zeros(n));
  }

  /** Printing then parsing, with any number of zeros appended in between, is the identity
      exactly for the values that are not the most negative one. */
  lemma RoundTrip(d: D, n: nat)
    ensures Parse(Show(d) + Zeros(n)) == Some(d) <==> d != MIN
    ensures d == MIN ==> Parse(Show(d) + Zeros(n)) == None
  {
    if d == MIN {
      MinRejected(d, n);
    } else {
      var i, f := ShowParts(d);
      JoinSuffix(Minus(d < 0), i, f, Zeros(n));
      MoreZeros(f, n);
      ParseOf(d, i, true, f + Zeros(n));
    }
  }

  // ---------------------------------------------------------------- trimming

  /** `f` without its trailing zeros. */
  function Stripped(f: string): string {
    if f == "" then ""
    else
      var r := Stripped(f[1..]);
      if r == "" && f[0] == '0' then "" else [f[0]] + r
  }

  lemma {:induction false} StrippedSnoc(f: string, c: char)
    ensures Stripped(f + [c]) == if c == '0' then Stripped(f) else f + [c]
    decreases |f|
  {
    if f == "" {
      assert f + [c] == [c] && [c][1..] == "" && [c] + "" == [c];
    } else {
      assert (f + [c])[1..] == f[1..] + [c];
      StrippedSnoc(f[1..], c);
      assert [f[0]] + (f[1..] + [c]) == f + [c];
    }
  }

  /** Dropping zeros from the back of `q + f`, but never into `q`, strips `f`. */
  lemma {:induction false} StripSuffix(q: string, f: string)
    requires q != ""
    ensures StripZeros(q + f, |q|) == q + Stripped(f)
    decreases |f|
  {
    if f == "" {
      assert q + f == q;
    } else {
      var g, c := f[..|f| - 1], f[|f| - 1];
      assert f == g + [c];
      StrippedSnoc(g, c);
      assert (q + f)[..|q + f| - 1] == q + g;
      StripSuffix(q, g);
    }
  }

  lemma {:induction false} StripRestores(f: string)
    ensures |Stripped(f)| <= |f| && f == Stripped(f) + Zeros(|f| - |Stripped(f)|)
  {
    if f != "" {
      var r := Stripped(f[1..]);
      StripRestores(f[1..]);
      PushFront(f, r, |f| - 1 - |r|);
    } else {
      assert "" + "" == "";
    }
  }

  lemma {:induction false} StrippedEnd(f: string)
    ensures Stripped(f) != "" ==> Stripped(f)[|Stripped(f)| - 1] != '0'
  {
    if f != "" {
      StrippedEnd(f[1..]);
    }
  }

  lemma PushFront(f: string, r: string, n: nat)
    requires f != "" && f[1..] == r + Zeros(n)
    ensures f == ([f[0]] + r) + Zeros(n)
    ensures r == "" && f[0] == '0' ==> f == "" + Zeros(n + 1)
  {
    hide Zeros;
    FrontAssoc(f[0], r, Zeros(n));
    assert f == [f[0]] + f[1..];
    if r == "" && f[0] == '0' {
      ZerosFront(n);
      assert "" + Zeros(n) == Zeros(n) && "" + Zeros(n + 1) == Zeros(n + 1);
    }
  }

  lemma FrontAssoc(c: char, r: string, z: string)
    ensures [c] + (r + z) == ([c] + r) + z
  {
  }

  lemma ZerosFront(n: nat)
    ensures Zeros(n + 1) == ['0'] + Zeros(n)
  {
  }

  lemma {:induction false} LastCharOf(f: string)
    requires NoDot(f) && f != ""
    ensures f[|f| - 1] != '.'
  {
    if |f| > 1 {
      LastCharOf(f[1..]);
    }
  }

  lemma {:induction false} NoLastDot(f: string)
    requires NoDot(f)
    ensures LastIndex(f, '.') == -1
  {
    if f != "" {
      NoLastDot(f[1..]);
    }
  }

  lemma {:induction false} LastDot(q: string, f: string)
    requires NoDot(f)
    ensures LastIndex(q + ("." + f), '.') == |q|
  {
    if q == "" {
      NoLastDot(f);
      assert q + ("." + f) == "." + f && ("." + f)[1..] == f;
    } else {
      assert (q + ("." + f))[1..] == q[1..] + ("." + f);
      LastDot(q[1..], f);
    }
  }

  lemma NoDotStripped(f: string)
    requires NoDot(f)
    ensures NoDot(Stripped(f))
  {
    StripRestores(f);
    DotConcat(Stripped(f), Zeros(|f| - |Stripped(f)|));
  }

  /** Trimming removes the trailing zeros of the fraction, and the dot when nothing else is left of it. */
  lemma TrimOneDot(q: string, f: string)
    requires q != "" && NoDot(f)
    ensures Trim(q + ("." + f)) == Joined(q, Stripped(f) != "", Stripped(f))
  {
    var s := q + ("." + f);
    LastDot(q, f);
    assert s == (q + ".") + f;
    StripSuffix(q + ".", f);
    NoDotStripped(f);
    if Stripped(f) == "" {
      assert (q + "." + "")[..|q|] == q;
    } else {
      LastCharOf(Stripped(f));
    }
  }

  lemma StrippedFraction(f: string)
    requires AllDigits(f) && |f| == PRECISION
    ensures AllDigits(Stripped(f)) && EightDigits(Stripped(f)) == f
  {
    var g := Stripped(f);
    StripRestores(f);
    DigitsConcat(g, Zeros(|f| - |g|));
    assert |g| == PRECISION ==> g + "" == g && g[..PRECISION] == g;
  }

  lemma JoinPrefix(p: string, i: string, dotted: bool, f: string)
    ensures Joined(p + i, dotted, f) == p + Joined(i, dotted, f)
    ensures (p + i) + ("." + f) == p + Joined(i, true, f)
  {
  }

  lemma TrimText(p: string, i: string, f: string)
    requires i != "" && NoDot(f)
    ensures Trim(p + Joined(i, true, f)) == p + Joined(i, Stripped(f) != "", Stripped(f))
  {
    JoinPrefix(p, i, true, f);
    TrimOneDot(p + i, f);
    JoinPrefix(p, i, Stripped(f) != "", Stripped(f));
  }

  lemma TrimShow(d: D) returns (i: string, f: string)
    requires d != MIN
    ensures Trim(Show(d)) == Minus(d < 0) + Joined(i, Stripped(f) != "", Stripped(f)) && DigitsOf(d, i, f)
  {
    i, f := ShowParts(d);
    DigitsHaveNoDot(f);
    TrimText(Minus(d < 0), i, f);
  }

  lemma StrippedDigits(f: string)
    requires f != "" && f[|f| - 1] != '0'
    ensures Stripped(f) == f
  {
    StripRestores(f);
    ZerosEnd(Stripped(f), |f| - |Stripped(f)|);
  }

  lemma TrimOfMin(d: D)
    requires d == MIN
    ensures var t := Trim(Show(d));
            |t| > 2 && t[0] == '-' && t[1] == '-' && t[|t| - 1] == '8'
  {
    hide Trim, Show, Joined, NoDot, AllDigits;
    var i, n := ShowOfMin(d);
    DashedDigits(n);
    TrimMinus(i, "-" + n);
    MinEnds(i, "-" + n);
  }

  lemma DashedDigits(n: string)
    requires AllDigits(n) && n != ""
    ensures var f := "-" + n; NoDot(f) && f != "" && f[|f| - 1] == n[|n| - 1]
  {
    DigitsHaveNoDot(n);
    assert ("-" + n)[1..] == n;
  }

  lemma TrimMinus(i: string, f: string)
    requires f != "" && f[|f| - 1] != '0' && NoDot(f)
    ensures Trim("-" + Joined("-" + i, true, f)) == Joined("-" + ("-" + i), true, f)
  {
    StrippedDigits(f);
    JoinPrefix("-", "-" + i, true, f);
    TrimOneDot("-" + ("-" + i), f);
  }

  lemma MinEnds(i: string, f: string)
    requires f != ""
    ensures var t := Joined("-" + ("-" + i), true, f);
            |t| > 2 && t[0] == '-' && t[1] == '-' && t[|t| - 1] == f[|f| - 1]
  {
  }

  lemma ZerosEnd(s: string, n: nat)
    ensures n > 0 ==> (s + Zeros(n))[|s| + n - 1] == '0'
    ensures n == 0 ==> s + Zeros(n) == s
  {
    if n > 0 {
      ZerosBothEnds(n - 1);
      assert s + (Zeros(n - 1) + "0") == s + Zeros(n);
    }
  }

  lemma TrimmedMinRejected(d: D)
    requires d == MIN
    ensures Parse(Trim(Show(d))) == None
  {
    TrimOfMin(d);
    SecondMinusRejected(Trim(Show(d)));
  }

  /** The trimmed form parses back exactly for the values that are not the most negative one. */
  lemma TrimmedRoundTrip(d: D)
    ensures Parse(Trim(Show(d))) == Some(d) <==> d != MIN
    ensures d == MIN ==> Parse(Trim(Show(d))) == None
  {
    if d == MIN {
      TrimmedMinRejected(d);
    } else {
      var i, f := TrimShow(d);
      StrippedFraction(f);
      ParseOf(d, i, Stripped(f) != "", Stripped(f));
    }
  }

  /** Two values never share a trimmed form. */
  lemma TrimmedInjective(d: D, e: D)
    requires Trim(Show(d)) == Trim(Show(e))
    ensures d == e
  {
    TrimmedRoundTrip(d);
    TrimmedRoundTrip(e);
  }

  /** No trailing dot, and no trailing zero after a dot. */
  predicate Tight(t: string) {
    t != "" && t[|t| - 1] != '.' && (!NoDot(t) ==> t[|t| - 1] != '0')
  }

  lemma JoinedTight(p: string, i: string, f: string)
    requires NoDot(p) && AllDigits(i) && i != "" && AllDigits(f) && (f != "" ==> f[|f| - 1] != '0')
    ensures Tight(p + Joined(i, f != "", f))
  {
    if f == "" {
      DigitsHaveNoDot(i);
      LastCharOf(i);
      DotConcat(p, i);
    } else {
      hide NoDot, AllDigits;
      DigitsHaveNoDot(f);
      LastCharOf(f);
      JoinedEnd(p, i, f);
    }
  }

  lemma JoinedEnd(p: string, i: string, f: string)
    requires f != ""
    ensures var t := p + Joined(i, true, f); t != "" && t[|t| - 1] == f[|f| - 1]
  {
    JoinPrefix(p, i, true, f);
  }

  lemma StrippedTight(p: string, i: string, f: string)
    requires NoDot(p) && AllDigits(i) && i != "" && AllDigits(f) && |f| == PRECISION
    ensures Tight(p + Joined(i, Stripped(f) != "", Stripped(f)))
  {
    StrippedFraction(f);
    StrippedEnd(f);
    JoinedTight(p, i, Stripped(f));
  }

  /** The trimmed form of every value is tight. */
  lemma TrimmedIsTight(d: D)
    ensures Tight(Trim(Show(d)))
  {
    if d == MIN {
      TrimOfMin(d);
    } else {
      var i, f := TrimShow(d);
      StrippedTight(Minus(d < 0), i, f);
    }
  }

  // ---------------------------------------------------------------- the database column

  /** A DECIMAL(40,20) column gives the stored text back with twenty fractional digits. */
  function ColumnText(d: D): string { Show(d) + Zeros(12) }

  /** parseDec ignores the failure flag, so unreadable text reads as zero. */
  function ParseDec(s: string): D { Parse(s).GetOr(0) }

  lemma ColumnRoundTrip(d: D)
    ensures ParseDec(ColumnText(d)) == d <==> d != MIN
  {
    RoundTrip(d, 12);
  }
}
