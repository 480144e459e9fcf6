/** Parsing and printing of decimals (internal/decimal), and what a database column
    of type DECIMAL(40,20) gives back. */
module DecimalText {
  import opened Int64
  import opened Decimal
  import opened Options

  // ---------------------------------------------------------------- digits

  predicate IsDigit(c: char) { '0' <= c <= '9' }

  predicate AllDigits(s: string) {
    s == "" || (IsDigit(s[0]) && AllDigits(s[1..]))
  }

  function DigitValue(c: char): int { c as int - '0' as int }

  function DigitChar(n: nat): (c: char)
    requires n < 10
    ensures IsDigit(c) && DigitValue(c) == n
  {
    '0' + n as char
  }

  /** Appends the digits of `s` to the number `acc`. */
  function ValueFrom(acc: int, s: string): int
    decreases |s|
  {
    if s == "" then acc else ValueFrom(acc * 10 + DigitValue(s[0]), s[1..])
  }

  /** The number a digit string denotes. */
  function Value(s: string): int { ValueFrom(0, s) }

  function Pow10(n: nat): (p: nat)
    ensures p > 0
  {
    if n == 0 then 1 else 10 * Pow10(n - 1)
  }

  function Zeros(n: nat): (s: string)
    ensures |s| == n
  {
    if n == 0 then "" else "0" + Zeros(n - 1)
  }

  lemma {:induction false} ValueConcat(acc: int, s: string, t: string)
    ensures ValueFrom(acc, s + t) == ValueFrom(ValueFrom(acc, s), t)
    decreases |s|
  {
    if s == "" {
      assert s + t == t;
    } else {
      assert (s + t)[1..] == s[1..] + t;
      ValueConcat(acc * 10 + DigitValue(s[0]), s[1..], t);
    }
  }

  lemma {:induction false} DigitsConcat(s: string, t: string)
    ensures AllDigits(s + t) <==> AllDigits(s) && AllDigits(t)
  {
    if s == "" {
      assert s + t == t;
    } else {
      assert (s + t)[1..] == s[1..] + t;
      DigitsConcat(s[1..], t);
    }
  }

  lemma Snoc(s: string, c: char)
    ensures Value(s + [c]) == Value(s) * 10 + DigitValue(c)
    ensures AllDigits(s + [c]) <==> AllDigits(s) && IsDigit(c)
  {
    ValueConcat(0, s, [c]);
    DigitsConcat(s, [c]);
  }

  lemma {:induction false} ZerosAreDigits(n: nat)
    ensures AllDigits(Zeros(n)) && Value(Zeros(n)) == 0
  {
    if n > 0 {
      ZerosAreDigits(n - 1);
      assert Zeros(n)[1..] == Zeros(n - 1);
    }
  }

  lemma {:induction false} ValueBound(acc: int, s: string)
    requires AllDigits(s) && acc >= 0
    ensures 0 <= ValueFrom(acc, s) < (acc + 1) * Pow10(|s|)
    decreases |s|
  {
    if s != "" {
      var acc', p := acc * 10 + DigitValue(s[0]), Pow10(|s| - 1);
      ValueBound(acc', s[1..]);
      MulMonotone(acc' + 1, (acc + 1) * 10, p);
      MulAssoc(acc + 1, 10, p);
    }
  }

  lemma ValueLeadingZeros(n: nat, s: string)
    ensures Value(Zeros(n) + s) == Value(s)
  {
    ZerosAreDigits(n);
    ValueConcat(0, Zeros(n), s);
  }

  /** strconv.FormatInt of a non-negative number, base 10. */
  function FormatNat(n: nat): (s: string)
    ensures AllDigits(s) && |s| >= 1 && Value(s) == n
  {
    if n < 10 then
      assert [DigitChar(n)][1..] == "" && ValueFrom(n, "") == n;
      [DigitChar(n)]
    else
      Snoc(FormatNat(n / 10), DigitChar(n % 10));
      FormatNat(n / 10) + [DigitChar(n % 10)]
  }

  lemma {:induction false} FormatNatLength(n: nat, k: nat)
    requires k >= 1 && n < Pow10(k)
    ensures |FormatNat(n)| <= k
  {
    if n >= 10 {
      FormatNatLength(n / 10, k - 1);
    }
  }

  /** strconv.FormatInt(v, 10). */
  function FormatInt(v: int): string {
    if v < 0 then "-" + FormatNat(-v) else FormatNat(v)
  }

  // ---------------------------------------------------------------- parsing

  predicate Signed(s: string) { s != "" && (s[0] == '-' || s[0] == '+') }

  function Body(s: string): string {
    if Signed(s) then s[1..] else s
  }

  /** The position of the first dot, or the length when there is none. */
  function DotAt(s: string): (p: nat)
    ensures p <= |s|
    ensures p < |s| ==> s[p] == '.'
  {
    if s == "" then 0 else if s[0] == '.' then 0 else 1 + DotAt(s[1..])
  }

  predicate NoDot(s: string) { DotAt(s) == |s| }

  function IntPart(s: string): string { s[..DotAt(s)] }

  function FracPart(s: string): string {
    if DotAt(s) < |s| then s[DotAt(s) + 1..] else ""
  }

  predicate WellFormed(s: string) {
    AllDigits(IntPart(s)) && AllDigits(FracPart(s))
  }

  /** Exactly eight fractional digits: further ones are cut off, missing ones are zeros. */
  function EightDigits(f: string): (r: string)
    ensures |r| == PRECISION
  {
    if |f| >= PRECISION then f[..PRECISION] else f + Zeros(PRECISION - |f|)
  }

  function Magnitude(b: string): int {
    Value(IntPart(b)) * SCALE + Value(EightDigits(FracPart(b)))
  }

  lemma {:induction false} DotConcat(s: string, t: string)
    ensures DotAt(s + t) == if NoDot(s) then |s| + DotAt(t) else DotAt(s)
    decreases |s|
  {
    if s == "" {
      assert s + t == t;
    } else {
      assert (s + t)[1..] == s[1..] + t;
      DotConcat(s[1..], t);
    }
  }

  lemma {:induction false} DigitsHaveNoDot(s: string)
    requires AllDigits(s)
    ensures NoDot(s)
  {
    if s != "" {
      DigitsHaveNoDot(s[1..]);
    }
  }

  lemma DigitsPrefix(s: string, n: nat)
    requires AllDigits(s) && n <= |s|
    ensures AllDigits(s[..n])
  {
    DigitsConcat(s[..n], s[n..]);
    assert s == s[..n] + s[n..];
  }

  /** What a decimal string denotes, as a wrapped 64-bit raw value. */
  function Parse(s: string): Option<D>
  {
    if s == "" || !WellFormed(Body(s)) then None
    else if s[0] == '-' then Some(Wrap(0 - Magnitude(Body(s))))
    else Some(Wrap(Magnitude(Body(s))))
  }

  lemma Pow10Of8()
    ensures Pow10(PRECISION) == SCALE
  {
    assert Pow10(4) == 10000;
  }

  lemma {:induction false} Pow10Monotone(m: nat, n: nat)
    requires m <= n
    ensures Pow10(m) <= Pow10(n)
  {
    if m < n {
      Pow10Monotone(m, n - 1);
    }
  }

  // The unsigned text that holds integer digits `i` and, when dotted, fractional digits `f`.
  function Joined(i: string, dotted: bool, f: string): string {
    if dotted then i + "." + f else i
  }

  lemma JoinedParts(i: string, dotted: bool, f: string)
    requires NoDot(i) && (dotted || f == "")
    ensures var b := Joined(i, dotted, f);
            IntPart(b) == i && FracPart(b) == f && (DotAt(b) < |b| <==> dotted)
  {
    if dotted {
      DotConcat(i, "." + f);
      assert i + "." + f == i + ("." + f);
      assert (i + "." + f)[|i| + 1..] == f;
    }
  }

  lemma SmallValue(s: string)
    requires AllDigits(s) && |s| <= PRECISION
    ensures 0 <= Value(s) < SCALE
  {
    ValueBound(0, s);
    Pow10Monotone(|s|, PRECISION);
    Pow10Of8();
  }

  function Kept(f: string): string {
    if |f| < PRECISION then f else f[..PRECISION]
  }

  datatype Scan = Scan(dot: bool, intP: int, fracP: int, fracLen: nat)
  {
    function Next(c: char): Option<Scan> {
      if c == '.' then (if dot then None else Some(this.(dot := true)))
      else if !IsDigit(c) then None
      else if !dot then Some(this.(intP := Wrap(intP * 10 + DigitValue(c))))
      else if fracLen < PRECISION then
        Some(this.(fracP := Wrap(fracP * 10 + DigitValue(c)), fracLen := fracLen + 1))
      else Some(this)
    }

    /** The scan has read the integer digits `i` and the fractional digits `f`. */
    ghost predicate Read(i: string, f: string) {
      && AllDigits(i) && AllDigits(f) && (dot || f == "")
      && intP == Wrap(Value(i))
      && fracLen == |Kept(f)| && fracP == Value(Kept(f))
    }
  }

  const START := Scan(false, 0, 0, 0)

  function ScanAll(st: Scan, s: string): Option<Scan>
    decreases |s|
  {
    if s == "" then Some(st)
    else
      var next := st.Next(s[0]);
      if next.None? then None else ScanAll(next.value, s[1..])
  }

  lemma ReadIntDigit(st: Scan, i: string, c: char)
    requires st.Read(i, "") && !st.dot && IsDigit(c)
    ensures st.Next(c).Some? && st.Next(c).value.Read(i + [c], "")
  {
    Snoc(i, c);
    WrapLinear(Value(i), 10, DigitValue(c));
  }

  lemma ReadFracDigit(st: Scan, i: string, f: string, c: char)
    requires st.Read(i, f) && st.dot && IsDigit(c)
    ensures st.Next(c).Some? && st.Next(c).value.Read(i, f + [c])
  {
    Snoc(f, c);
    if |f| < PRECISION {
      assert Kept(f + [c]) == f + [c];
      SmallValue(f + [c]);
    } else {
      assert Kept(f + [c]) == Kept(f);
    }
  }

  lemma BadCharacter(i: string, dotted: bool, f: string, c: char, s: string)
    requires AllDigits(i) && AllDigits(f) && (dotted || f == "")
    requires !IsDigit(c) && (c == '.' ==> dotted)
    ensures !WellFormed(Joined(i, dotted, f) + ([c] + s))
  {
    DigitsHaveNoDot(i);
    if dotted {
      assert Joined(i, true, f) + ([c] + s) == Joined(i, true, f + ([c] + s));
      JoinedParts(i, true, f + ([c] + s));
      DigitsConcat(f, [c] + s);
      assert !AllDigits([c] + s);
    } else {
      var t := [c] + s[..DotAt(s)];
      DotConcat(i, [c] + s);
      assert ([c] + s)[1..] == s;
      assert IntPart(i + ([c] + s)) == i + t;
      DigitsConcat(i, t);
      assert !AllDigits(t);
    }
  }

  lemma JoinedSnoc(i: string, f: string, c: char, t: string)
    ensures Joined(i, true, "") + t == Joined(i, false, "") + (['.'] + t)
    ensures Joined(i + [c], false, "") + t == Joined(i, false, "") + ([c] + t)
    ensures Joined(i, true, f + [c]) + t == Joined(i, true, f) + ([c] + t)
  {
  }

  /** Scanning what is left of a body succeeds exactly for a well-formed body and reads its two parts. */
  lemma {:induction false} ScanParts(st: Scan, i: string, f: string, s: string)
    requires st.Read(i, f)
    ensures var b := Joined(i, st.dot, f) + s;
            var r := ScanAll(st, s);
            r.Some? == WellFormed(b) && (r.Some? ==> r.value.Read(IntPart(b), FracPart(b)))
    decreases |s|
  {
    var b := Joined(i, st.dot, f) + s;
    if s == "" {
      assert b == Joined(i, st.dot, f);
      DigitsHaveNoDot(i);
      JoinedParts(i, st.dot, f);
    } else {
      var c, t := s[0], s[1..];
      assert s == [c] + t;
      JoinedSnoc(i, f, c, t);
      if c == '.' && !st.dot {
        ScanParts(st.(dot := true), i, f, t);
      } else if !IsDigit(c) {
        BadCharacter(i, st.dot, f, c, t);
      } else if st.dot {
        ReadFracDigit(st, i, f, c);
        ScanParts(st.Next(c).value, i, f + [c], t);
      } else {
        ReadIntDigit(st, i, c);
        ScanParts(st.Next(c).value, i + [c], f, t);
      }
    }
  }

  /** Fills the fraction up to eight digits. */
  function FillFrac(fracP: int, fracLen: nat): int
    decreases if fracLen < PRECISION then PRECISION - fracLen else 0
  {
    if fracLen < PRECISION then FillFrac(Wrap(fracP * 10), fracLen + 1) else fracP
  }

  lemma {:induction false} FillResult(f: string)
    requires AllDigits(f) && |f| <= PRECISION
    ensures FillFrac(Value(f), |f|) == Value(f + Zeros(PRECISION - |f|))
    decreases PRECISION - |f|
  {
    if |f| < PRECISION {
      Snoc(f, '0');
      SmallValue(f + "0");
      FillResult(f + "0");
      assert f + Zeros(PRECISION - |f|) == f + "0" + Zeros(PRECISION - |f| - 1);
    } else {
      assert f + "" == f;
    }
  }

  /** The loops of FromString compute the two parts of what Parse denotes. */
  lemma ScanIsParse(b: string)
    ensures var r := ScanAll(START, b);
            r.Some? == WellFormed(b)
            && (r.Some? ==> FillFrac(r.value.fracP, r.value.fracLen) == Value(EightDigits(FracPart(b)))
                            && r.value.intP == Wrap(Value(IntPart(b))))
  {
    assert Joined("", false, "") + b == b;
    ScanParts(START, "", "", b);
    if WellFormed(b) {
      var kept := Kept(FracPart(b));
      DigitsPrefix(FracPart(b), |kept|);
      assert kept == FracPart(b)[..|kept|];
      FillResult(kept);
      assert kept + Zeros(PRECISION - |kept|) == EightDigits(FracPart(b));
    }
  }

  lemma Assemble(i: int, f: int)
    ensures Wrap(Wrap(Wrap(i) * SCALE) + f) == Wrap(i * SCALE + f)
    ensures Wrap(0 - Wrap(i)) == Wrap(0 - i)
  {
    WrapLinear(Wrap(i) * SCALE, 1, f);
    WrapLinear(i, SCALE, f);
    WrapLinear(i, -1, 0);
  }

  lemma Assembled(b: string, intP: int, fracP: int)
    requires WellFormed(b) && intP == Wrap(Value(IntPart(b))) && fracP == Value(EightDigits(FracPart(b)))
    ensures Wrap(Wrap(intP * SCALE) + fracP) == Wrap(Magnitude(b))
    ensures Wrap(0 - Wrap(Magnitude(b))) == Wrap(0 - Magnitude(b))
  {
    Assemble(Value(IntPart(b)), fracP);
    Assemble(Magnitude(b), 0);
  }

  /** The two loops of FromString: scan the digits, then fill the fraction. */
  method ReadBody(rest: string) returns (ok: bool, intP: int, fracP: int)
    ensures var r := ScanAll(START, rest);
            ok == r.Some? && (ok ==> intP == r.value.intP && fracP == FillFrac(r.value.fracP, r.value.fracLen))
  {
    intP, fracP := 0, 0;
    var dot := false;
    var fracLen: nat := 0;
    var tail := rest;
    while tail != ""
      invariant ScanAll(Scan(dot, intP, fracP, fracLen), tail) == ScanAll(START, rest)
      decreases |tail|
    {
      var c := tail[0];
      tail := tail[1..];
      if c == '.' {
        if dot {
          return false, 0, 0;
        }
        dot := true;
      } else if c < '0' || c > '9' {
        return false, 0, 0;
      } else if !dot {
        intP := Wrap(intP * 10 + DigitValue(c));
      } else if fracLen < PRECISION {
        fracP := Wrap(fracP * 10 + DigitValue(c));
        fracLen := fracLen + 1;
      }
    }
    ok := true;
    ghost var filled := FillFrac(fracP, fracLen);
    while fracLen < PRECISION
      invariant FillFrac(fracP, fracLen) == filled
    {
      fracP := Wrap(fracP * 10);
      fracLen := fracLen + 1;
    }
  }

  method FromString(s: string) returns (d: D, ok: bool)
    ensures ok == Parse(s).Some?
    ensures d == Parse(s).GetOr(0)
  {
    if s == "" {
      return 0, false;
    }
    var neg := false;
    var rest := s;
    if rest[0] == '-' {
      neg := true;
      rest := rest[1..];
    } else if rest[0] == '+' {
      rest := rest[1..];
    }
    var intP: int, fracP: int;
    ok, intP, fracP := ReadBody(rest);
    ScanIsParse(rest);
    if !ok {
      return 0, false;
    }
    Assembled(rest, intP, fracP);
    var v: int := Wrap(Wrap(intP * SCALE) + fracP);
    if neg {
      v := Wrap(0 - v);
    }
    return v, true;
  }

  // ---------------------------------------------------------------- printing

  function PadTo(s: string): string
    decreases PRECISION - |s|
  {
    if |s| < PRECISION then PadTo("0" + s) else s
  }

  function Pad(v: int): string { PadTo(FormatInt(v)) }

  function Unsigned(v: int): string {
    Joined(FormatInt(TruncDiv(v, SCALE)), true, Pad(TruncRem(v, SCALE)))
  }

  function Show(a: D): string {
    if a == 0 then "0.00000000"
    else if a < 0 then "-" + Unsigned(Wrap(0 - a))
    else Unsigned(a)
  }

  /** strings.LastIndexByte. */
  function LastIndex(s: string, c: char): (p: int)
    ensures -1 <= p < |s|
    ensures p >= 0 ==> s[p] == c
  {
    if s == "" then -1
    else
      var p := LastIndex(s[1..], c);
      if p >= 0 then p + 1 else if s[0] == c then 0 else -1
  }

  function StripZeros(s: string, keep: nat): (t: string)
    requires keep <= |s|
    ensures keep <= |t| <= |s| && t == s[..|t|]
  {
    if |s| > keep && s[|s| - 1] == '0' then StripZeros(s[..|s| - 1], keep) else s
  }

  function Trim(s: string): string {
    var i := LastIndex(s, '.');
    if i < 0 then s
    else
      var t := StripZeros(s, i + 1);
      if t[|t| - 1] == '.' then t[..|t| - 1] else t
  }

  method PadLoop(v: int) returns (s: string)
    ensures s == Pad(v)
  {
    s := FormatInt(v);
    ghost var digits := s;
    while |s| < PRECISION
      invariant PadTo(s) == PadTo(digits)
    {
      s := "0" + s;
    }
  }

  method String(a: D) returns (s: string)
    ensures s == Show(a)
  {
    var v: int := a;
    if v == 0 {
      return "0.00000000";
    }
    var neg := false;
    if v < 0 {
      neg := true;
      v := Wrap(0 - v);
    }
    var intP := TruncDiv(v, SCALE);
    var fracP := TruncRem(v, SCALE);
    var padded := PadLoop(fracP);
    s := FormatInt(intP) + "." + padded;
    if neg {
      s := "-" + s;
    }
  }

  method Trimmed(a: D) returns (s: string)
    ensures s == Trim(Show(a))
  {
    s := String(a);
    s := TrimLoop(s);
  }

  /** The body of Trimmed after the number has been formatted. */
  method TrimLoop(whole: string) returns (s: string)
    ensures s == Trim(whole)
  {
    s := whole;
    var i := LastIndex(s, '.');
    if i >= 0 {
      while |s| > i + 1 && s[|s| - 1] == '0'
        invariant i + 1 <= |s|
        invariant StripZeros(s, i + 1) == StripZeros(whole, i + 1)
      {
        s := s[..|s| - 1];
      }
      if s[|s| - 1] == '.' {
        s := s[..|s| - 1];
      }
    }
  }
}
