/** formatNumber of variables/values.go: exact decimal expansion of JSON number tokens. */
module NumberFormat {
  import opened Basics
  import opened Decimals

  // ---- tokens and what they denote ----

  /** The first position of a character in `cs`, or the length. */
  function Index(s: string, cs: set<char>): (i: nat)
    ensures i <= |s|
  {
    if s == "" || s[0] in cs then 0 else 1 + Index(s[1..], cs)
  }

  function After(s: string, i: nat): string { if i < |s| then s[i + 1..] else "" }

  function Whole(m: string): string { m[..Index(m, {'.'})] }

  function Fraction(m: string): string { After(m, Index(m, {'.'})) }

  predicate IsMantissa(m: string) {
    && Whole(m) != "" && AllDigits(Whole(m)) && (|Whole(m)| > 1 ==> Whole(m)[0] != '0')
    && (Index(m, {'.'}) < |m| ==> Fraction(m) != "") && AllDigits(Fraction(m))
  }

  predicate IsExponent(s: string) {
    var digits := if s != "" && (s[0] == '-' || s[0] == '+') then s[1..] else s;
    digits != "" && AllDigits(digits)
  }

  /** An unsigned token split at its exponent, which may be missing. */
  datatype Split = Split(mantissa: string, exponent: Option<string>)

  function SplitAt(u: string): Split {
    var i := Index(u, {'e', 'E'});
    Split(u[..i], if i < |u| then Some(u[i + 1..]) else None)
  }

  function Negative(s: string): bool { s != "" && s[0] == '-' }

  function Parts(s: string): Split { SplitAt(if Negative(s) then s[1..] else s) }

  function Mantissa(s: string): string { Parts(s).mantissa }

  /** Section 6 of RFC 8259. */
  predicate IsNumber(s: string) {
    IsMantissa(Parts(s).mantissa) && (Parts(s).exponent.Some? ==> IsExponent(Parts(s).exponent.value))
  }

  function ExponentOf(e: Option<string>): int
    requires e.Some? ==> IsExponent(e.value)
  {
    if e == None then 0
    else if e.value[0] == '-' then 0 - Natural(e.value[1..])
    else if e.value[0] == '+' then Natural(e.value[1..])
    else Natural(e.value)
  }

  function Exponent(s: string): int
    requires IsNumber(s)
  {
    ExponentOf(Parts(s).exponent)
  }

  /** `v` times ten to the power `k`. */
  function Scale(v: real, k: int): real
    decreases if k < 0 then -k else k
  {
    if k == 0 then v else if k > 0 then 10.0 * Scale(v, k - 1) else Scale(v, k + 1) / 10.0
  }

  /** Digits with the decimal point after the first `point` of them. */
  function Value(digits: string, point: int): real
    requires AllDigits(digits)
    decreases |digits|
  {
    if digits == "" then 0.0 else Scale(Digit(digits[0]) as real, point - 1) + Value(digits[1..], point - 1)
  }

  function MantissaValue(m: string): real
    requires IsMantissa(m)
  {
    Value(Whole(m), |Whole(m)|) + Value(Fraction(m), 0)
  }

  function Magnitude(s: string): real
    requires IsNumber(s)
  {
    Scale(MantissaValue(Mantissa(s)), Exponent(s))
  }

  /** The number a token stands for. */
  function Denotes(s: string): real
    requires IsNumber(s)
  {
    if Negative(s) then -Magnitude(s) else Magnitude(s)
  }

  // ---- arithmetic of digit strings ----

  lemma ScaleStep(v: real, k: int)
    ensures Scale(v, k + 1) == 10.0 * Scale(v, k)
  {}

  lemma {:induction false} ScaleTwice(v: real, a: int, b: int)
    ensures Scale(v, a + b) == Scale(Scale(v, a), b)
    decreases if b < 0 then -b else b
  {
    if b > 0 {
      ScaleTwice(v, a, b - 1);
      ScaleStep(v, a + b - 1);
    } else if b < 0 {
      ScaleTwice(v, a, b + 1);
      ScaleStep(v, a + b);
    }
  }

  lemma {:induction false} ScaleSum(v: real, w: real, k: int)
    ensures Scale(v + w, k) == Scale(v, k) + Scale(w, k)
    decreases if k < 0 then -k else k
  {
    if k > 0 { ScaleSum(v, w, k - 1); }
    else if k < 0 { ScaleSum(v, w, k + 1); }
  }

  lemma {:induction false} ScaleZero(k: int)
    ensures Scale(0.0, k) == 0.0
    decreases if k < 0 then -k else k
  {
    if k > 0 { ScaleZero(k - 1); }
    else if k < 0 { ScaleZero(k + 1); }
  }

  lemma {:induction false} Shift(digits: string, point: int, by10: int)
    requires AllDigits(digits)
    ensures Value(digits, point + by10) == Scale(Value(digits, point), by10)
    decreases |digits|
  {
    if digits == "" {
      ScaleZero(by10);
    } else {
      var d, v := Digit(digits[0]) as real, Value(digits[1..], point - 1);
      Shift(digits[1..], point - 1, by10);
      ScaleTwice(d, point - 1, by10);
      ScaleSum(Scale(d, point - 1), v, by10);
    }
  }

  lemma {:induction false} ValueConcat(a: string, b: string, point: int)
    requires AllDigits(a) && AllDigits(b)
    ensures AllDigits(a + b) && Value(a + b, point) == Value(a, point) + Value(b, point - |a|)
    decreases |a|
  {
    if a == "" {
      assert a + b == b;
    } else {
      ValueConcat(a[1..], b, point - 1);
      assert (a + b)[1..] == a[1..] + b;
    }
  }

  function Zeros(n: nat): (s: string)
    ensures |s| == n && forall i | 0 <= i < n :: s[i] == '0'
  {
    if n == 0 then "" else "0" + Zeros(n - 1)
  }

  lemma {:induction false} ZerosAreZero(s: string, point: int)
    requires forall i | 0 <= i < |s| :: s[i] == '0'
    ensures AllDigits(s) && Value(s, point) == 0.0
    decreases |s|
  {
    if s != "" {
      ScaleZero(point - 1);
      ZerosAreZero(s[1..], point - 1);
    }
  }

  // ---- trimming ----

  function TrimRight(s: string, c: char): string {
    if s != "" && s[|s| - 1] == c then TrimRight(s[..|s| - 1], c) else s
  }

  function TrimLeft(s: string, c: char): string {
    if s != "" && s[0] == c then TrimLeft(s[1..], c) else s
  }

  lemma {:induction false} TrimRightStops(a: string, b: string, c: char)
    requires a != "" && a[|a| - 1] != c
    ensures TrimRight(a + b, c) == a + TrimRight(b, c)
    decreases |b|
  {
    if b == "" {
      assert a + b == a;
    } else {
      assert (a + b)[..|a + b| - 1] == a + b[..|b| - 1];
      TrimRightStops(a, b[..|b| - 1], c);
    }
  }

  lemma {:induction false} TrimLeftStops(a: string, b: string, c: char)
    requires b == "" || b[0] != c
    ensures TrimLeft(a + b, c) == TrimLeft(a, c) + b
    decreases |a|
  {
    if a == "" {
      assert a + b == b;
    } else {
      assert (a + b)[1..] == a[1..] + b;
      TrimLeftStops(a[1..], b, c);
    }
  }

  lemma {:induction false} TrimmedFraction(f: string, point: int)
    requires AllDigits(f)
    ensures var t := TrimRight(f, '0');
      AllDigits(t) && |t| <= |f| && (t != "" ==> t[|t| - 1] != '0') && Value(t, point) == Value(f, point)
    decreases |f|
  {
    if f != "" && f[|f| - 1] == '0' {
      TrimmedFraction(f[..|f| - 1], point);
      ValueConcat(f[..|f| - 1], "0", point);
      assert f == f[..|f| - 1] + "0";
      ZerosAreZero("0", point - |f| + 1);
    }
  }

  lemma {:induction false} TrimmedWhole(w: string)
    requires AllDigits(w)
    ensures var t := TrimLeft(w, '0');
      AllDigits(t) && |t| <= |w| && (t != "" ==> t[0] != '0') && Value(t, |t|) == Value(w, |w|)
    decreases |w|
  {
    if w != "" && w[0] == '0' {
      TrimmedWhole(w[1..]);
      ScaleZero(|w| - 1);
    }
  }

  // ---- plain numbers ----

  function Tail(f: string): string { if f == "" then "" else "." + f }

  /** All digits of the mantissa, and how many stand before the decimal point once the exponent has moved it. */
  function Digits(s: string): string { Whole(Mantissa(s)) + Fraction(Mantissa(s)) }

  function Point(s: string): int
    requires IsNumber(s)
  {
    |Whole(Mantissa(s))| + Exponent(s)
  }

  predicate TooLong(s: string)
    requires IsNumber(s)
  {
    || Exponent(s) < -MAX_DIGITS || Exponent(s) > MAX_DIGITS
    || |Digits(s)| > MAX_DIGITS || Point(s) > MAX_DIGITS || |Digits(s)| - Point(s) > MAX_DIGITS
  }

  /** A number in full: no exponent, and no trailing zero after a point. That no point is bare and no zero leads in vain
      is part of being a number. */
  predicate Plain(s: string) {
    && IsNumber(s) && Parts(s).exponent == None
    && (Fraction(Mantissa(s)) != "" ==> s[|s| - 1] != '0')
  }

  lemma DigitsCarryTheValue(s: string)
    requires IsNumber(s)
    ensures Digits(s) != "" && AllDigits(Digits(s)) && Value(Digits(s), Point(s)) == Magnitude(s)
  {
    var w, f := Whole(Mantissa(s)), Fraction(Mantissa(s));
    ValueConcat(w, f, |w|);
    Shift(w + f, |w|, Exponent(s));
  }

  lemma {:induction false} IndexAt(a: string, b: string, cs: set<char>)
    requires forall i | 0 <= i < |a| :: a[i] !in cs
    requires b == "" || b[0] in cs
    ensures Index(a + b, cs) == |a|
    decreases |a|
  {
    if a == "" {
      assert a + b == b;
    } else {
      assert (a + b)[1..] == a[1..] + b;
      IndexAt(a[1..], b, cs);
    }
  }

  /** No zero leads the whole part in vain, and none ends the fraction. */
  predicate Canonical(v: string, g: string) {
    && AllDigits(v) && v != "" && (|v| > 1 ==> v[0] != '0')
    && AllDigits(g) && (g != "" ==> g[|g| - 1] != '0')
  }

  lemma PlainMantissa(w: string, f: string)
    requires AllDigits(w) && w != "" && (|w| > 1 ==> w[0] != '0') && AllDigits(f)
    ensures var m := w + Tail(f);
      IsMantissa(m) && Whole(m) == w && Fraction(m) == f && SplitAt(m) == Split(m, None)
  {
    var m := w + Tail(f);
    IndexAt(w, Tail(f), {'.'});
    assert m[..|w|] == w;
    assert f != "" ==> m[|w| + 1..] == f;
    IndexAt(m, "", {'e', 'E'});
    assert m + "" == m && m[..|m|] == m;
  }

  lemma SignedParts(negative: bool, m: string)
    requires m != "" && m[0] != '-'
    ensures var s := (if negative then "-" else "") + m;
      Negative(s) == negative && Parts(s) == SplitAt(m) && s[|s| - 1] == m[|m| - 1]
  {
    assert negative ==> ("-" + m)[1..] == m;
    assert "" + m == m;
  }

  /** A plain text is read back as the parts it was put together from. */
  lemma PlainText(negative: bool, w: string, f: string)
    requires Canonical(w, f)
    ensures var s := (if negative then "-" else "") + (w + Tail(f));
      Plain(s) && Negative(s) == negative && Mantissa(s) == w + Tail(f) && Magnitude(s) == Value(w, |w|) + Value(f, 0)
  {
    var m := w + Tail(f);
    assert m[0] == w[0] && (f != "" ==> m[|m| - 1] == f[|f| - 1]);
    PlainMantissa(w, f);
    SignedParts(negative, m);
  }

  // ---- formatNumber ----

  const MAX_DIGITS := 4096

  function Formatted(number: string): Option<string> {
    if !IsNumber(number) || TooLong(number) then None
    else Some((if Negative(number) then "-" else "") + Stripped(Pointed(Digits(number), Point(number))))
  }

  /** The exact expansion: the same number, plain, and never longer than a sign, "0." and 4096 digits. */
  lemma FormattedIsExact(number: string)
    requires Formatted(number).Some?
    ensures var out := Formatted(number).value;
      && Plain(out) && Negative(out) == Negative(number) && Denotes(out) == Denotes(number)
      && |out| <= MAX_DIGITS + 3
  {
    DigitsCarryTheValue(number);
    var v, g := ExpandedValue(Digits(number), Point(number));
    PlainText(Negative(number), v, g);
  }

  /** Which tokens are written out: numbers whose exponent is at most 4096 either way, and which have, in full, at most
      4096 digits of their own and as many on either side of the point. Every number of no more than 2048 characters
      and exponent is among them. */
  lemma WhichAreAccepted(number: string)
    ensures Formatted(number).Some? <==>
      && IsNumber(number) && -4096 <= Exponent(number) <= 4096
      && var whole, fraction := |Whole(Mantissa(number))|, |Fraction(Mantissa(number))|;
         && whole + fraction <= 4096
         && whole + Exponent(number) <= 4096 && fraction - Exponent(number) <= 4096
    ensures IsNumber(number) && |number| <= 2048 && -2048 <= Exponent(number) <= 2048 ==> Formatted(number).Some?
  {
  }

  method FormatNumber(number: string) returns (r: Option<string>)
    ensures r == Formatted(number)
  {
    if !IsNumber(number) { return None; }
    var sign, digits, point, small := ReadNumber(number);
    if !small || |digits| > MAX_DIGITS || point > MAX_DIGITS || |digits| - point > MAX_DIGITS { return None; }
    digits := Expand(digits, point);
    return Some(sign + digits);
  }

  /** The first part of formatNumber: the sign, the digits, and the point among them once the exponent has moved it. */
  method ReadNumber(number: string) returns (sign: string, digits: string, point: int, small: bool)
    requires IsNumber(number)
    ensures small == (-MAX_DIGITS <= Exponent(number) <= MAX_DIGITS)
    ensures small ==>
      sign == (if Negative(number) then "-" else "") && digits == Digits(number) && point == Point(number)
  {
    sign, digits, point := "", number, 0;
    if digits[0] == '-' { sign, digits := "-", digits[1..]; }
    assert SplitAt(digits) == Parts(number);
    var exponent;
    digits, exponent, small := WithoutExponent(digits);
    if !small { return; }
    digits, point := WithoutPoint(digits);
    point := point + exponent;
  }

  method WithoutExponent(number: string) returns (mantissa: string, exponent: int, small: bool)
    requires SplitAt(number).exponent.Some? ==> IsExponent(SplitAt(number).exponent.value)
    ensures mantissa == SplitAt(number).mantissa && exponent == ExponentOf(SplitAt(number).exponent)
    ensures small <==> -MAX_DIGITS <= exponent <= MAX_DIGITS
  {
    var i := Index(number, {'e', 'E'});
    mantissa, exponent, small := number[..i], 0, true;
    if i < |number| {
      exponent := ExponentOf(Some(number[i + 1..]));
      small := -MAX_DIGITS <= exponent <= MAX_DIGITS;
    }
  }

  method WithoutPoint(mantissa: string) returns (digits: string, point: int)
    ensures digits == Whole(mantissa) + Fraction(mantissa) && point == |Whole(mantissa)|
  {
    digits, point := mantissa, Index(mantissa, {'.'});
    if point < |digits| { digits := digits[..point] + digits[point + 1..]; }
    else { assert mantissa + "" == mantissa; }
  }

  /** The second half of formatNumber, from its switch on. */
  method Expand(number: string, point: int) returns (digits: string)
    ensures digits == Stripped(Pointed(number, point))
  {
    digits := number;
    if point <= 0 {
      digits := "0." + Zeros(-point) + digits;
    } else if point >= |digits| {
      digits := digits + Zeros(point - |digits|);
    } else {
      digits := digits[..point] + "." + digits[point..];
    }
    if '.' in digits { digits := TrimRight(TrimRight(digits, '0'), '.'); }
    digits := TrimLeft(digits, '0');
    if digits == "" || digits[0] == '.' { digits := "0" + digits; }
  }

  /** Writing the point among the digits and dropping idle zeros leaves the number as it is. */
  lemma ExpandedValue(digits: string, point: int) returns (v: string, g: string)
    requires AllDigits(digits) && digits != ""
    requires |digits| <= MAX_DIGITS && point <= MAX_DIGITS && |digits| - point <= MAX_DIGITS
    ensures Canonical(v, g)
    ensures Stripped(Pointed(digits, point)) == v + Tail(g) && |v + Tail(g)| <= MAX_DIGITS + 2
    ensures Value(v, |v|) + Value(g, 0) == Value(digits, point)
  {
    var w, f := PointedValue(digits, point);
    v, g := StrippedValue(w, f);
  }

  /** Writes the point after `point` digits, with zeros where there are none. */
  function Pointed(digits: string, point: int): string {
    if point <= 0 then "0." + Zeros(-point) + digits
    else if point >= |digits| then digits + Zeros(point - |digits|)
    else digits[..point] + "." + digits[point..]
  }

  function Unpadded(digits: string): string {
    if '.' in digits then TrimRight(TrimRight(digits, '0'), '.') else digits
  }

  /** Drops zeros that say nothing, keeping one before the point. */
  function Stripped(digits: string): string {
    var s := TrimLeft(Unpadded(digits), '0');
    if s == "" || s[0] == '.' then "0" + s else s
  }

  lemma PointedValue(digits: string, point: int) returns (w: string, f: string)
    requires AllDigits(digits) && digits != ""
    ensures AllDigits(w) && w != "" && AllDigits(f) && Pointed(digits, point) == w + Tail(f)
    ensures Value(w, |w|) + Value(f, 0) == Value(digits, point)
    ensures |w + Tail(f)| <=
      if point <= 0 then |digits| - point + 2 else if point >= |digits| then point else |digits| + 1
  {
    if point <= 0 {
      w, f := "0", Zeros(-point) + digits;
      ZerosAreZero("0", 1);
      ZerosAreZero(Zeros(-point), 0);
      ValueConcat(Zeros(-point), digits, 0);
      assert "0." + Zeros(-point) + digits == "0" + ("." + (Zeros(-point) + digits));
    } else if point >= |digits| {
      w, f := digits + Zeros(point - |digits|), "";
      ZerosAreZero(Zeros(point - |digits|), point - |digits|);
      ValueConcat(digits, Zeros(point - |digits|), point);
    } else {
      w, f := digits[..point], digits[point..];
      assert w + f == digits;
      ValueConcat(w, f, point);
      assert digits[..point] + "." + digits[point..] == w + ("." + f);
    }
  }

  lemma StrippedValue(w: string, f: string) returns (v: string, g: string)
    requires AllDigits(w) && w != "" && AllDigits(f)
    ensures Canonical(v, g)
    ensures Stripped(w + Tail(f)) == v + Tail(g) && |v + Tail(g)| <= |w + Tail(f)|
    ensures Value(v, |v|) + Value(g, 0) == Value(w, |w|) + Value(f, 0)
  {
    g := TrimRight(f, '0');
    v := TrimLeft(w, '0');
    TrimmedFraction(f, 0);
    TrimmedWhole(w);
    TrimPointed(w, f);
    TrimLeftStops(w, Tail(g), '0');
    assert v == "" ==> v + Tail(g) == Tail(g);
    if v == "" {
      ZerosAreZero("0", 1);
      v := "0";
    } else {
      assert (v + Tail(g))[0] == v[0];
    }
  }

  lemma PointInTail(w: string, f: string)
    requires AllDigits(w)
    ensures '.' in w + Tail(f) <==> f != ""
  {
    if f != "" { assert (w + Tail(f))[|w|] == '.'; }
    else { assert w + Tail(f) == w; }
  }

  lemma TrimPointed(w: string, f: string)
    requires AllDigits(w) && w != "" && AllDigits(f)
    ensures Unpadded(w + Tail(f)) == w + Tail(TrimRight(f, '0'))
  {
    PointInTail(w, f);
    if f != "" {
      ZerosTrimmed(w, f);
      TrimmedFraction(f, 0);
      TrimPoint(w, TrimRight(f, '0'));
    }
  }

  lemma ZerosTrimmed(w: string, f: string)
    requires f != ""
    ensures TrimRight(w + Tail(f), '0') == w + "." + TrimRight(f, '0')
  {
    var a := w + ".";
    assert w + Tail(f) == a + f;
    TrimRightStops(a, f, '0');
  }

  lemma TrimPoint(w: string, g: string)
    requires AllDigits(w) && w != "" && AllDigits(g)
    ensures TrimRight(w + "." + g, '.') == w + Tail(g)
  {
    if g == "" {
      assert w + "." + g == w + ".";
      TrimRightStops(w, ".", '.');
      assert TrimRight(".", '.') == "";
    } else {
      EndsLike(w + ".", g);
      TailAppended(w, g);
    }
  }

  lemma EndsLike(a: string, b: string)
    requires b != ""
    ensures (a + b)[|a + b| - 1] == b[|b| - 1]
  {}

  lemma TailAppended(w: string, g: string)
    requires g != ""
    ensures w + "." + g == w + Tail(g)
  {}

  // ---- one text for each number ----

  lemma {:induction false} ScaleGrows(v: real, w: real, k: int)
    requires v <= w
    ensures Scale(v, k) <= Scale(w, k) && (v < w ==> Scale(v, k) < Scale(w, k))
    decreases if k < 0 then -k else k
  {
    if k > 0 { ScaleGrows(v, w, k - 1); }
    else if k < 0 { ScaleGrows(v, w, k + 1); }
  }

  /** Digits amount to less than a one in the place before them. */
  lemma {:induction false} ValueBound(digits: string, point: int)
    requires AllDigits(digits)
    ensures 0.0 <= Value(digits, point) < Scale(1.0, point)
    decreases |digits|
  {
    ScaleZero(point);
    ScaleGrows(0.0, 1.0, point);
    if digits != "" {
      ValueBound(digits[1..], point - 1);
      DigitBound(Digit(digits[0]), 9, point - 1);
      ScaleStep(1.0, point - 1);
      ScaleTen(point - 1);
    }
  }

  lemma DigitBound(d: nat, e: nat, k: int)
    requires d <= e
    ensures 0.0 <= Scale(d as real, k) <= Scale(e as real, k)
  {
    ScaleZero(k);
    ScaleGrows(0.0, d as real, k);
    ScaleGrows(d as real, e as real, k);
  }

  lemma ScaleTen(k: int)
    ensures Scale(9.0, k) + Scale(1.0, k) == Scale(1.0, k + 1)
  {
    ScaleSum(9.0, 1.0, k);
    ScaleTwice(1.0, 1, k);
    assert Scale(1.0, 1) == 10.0;
  }

  lemma {:induction false} NoValueNoDigits(digits: string, point: int)
    requires AllDigits(digits) && Value(digits, point) == 0.0
    ensures forall i | 0 <= i < |digits| :: digits[i] == '0'
    decreases |digits|
  {
    if digits != "" {
      ValueBound(digits[1..], point - 1);
      DigitBound(0, Digit(digits[0]), point - 1);
      if digits[0] != '0' {
        ScaleZero(point - 1);
        ScaleGrows(0.0, Digit(digits[0]) as real, point - 1);
      }
      NoValueNoDigits(digits[1..], point - 1);
    }
  }

  /** A larger first digit outweighs whatever follows. */
  lemma FirstDigitDecides(a: string, b: string, point: int)
    requires AllDigits(a) && AllDigits(b) && a != "" && b != "" && Digit(a[0]) < Digit(b[0])
    ensures Value(a, point) < Value(b, point)
  {
    var d, e := Digit(a[0]), Digit(b[0]);
    ValueBound(a[1..], point - 1);
    ValueBound(b[1..], point - 1);
    ScaleSum(d as real, 1.0, point - 1);
    assert d as real + 1.0 == (d + 1) as real;
    DigitBound(d + 1, e, point - 1);
  }

  /** Equal values have equal digits, when neither ends in zeros beyond the first `n` digits. */
  lemma {:induction false} DigitsUnique(a: string, b: string, point: int, n: nat)
    requires AllDigits(a) && AllDigits(b) && n <= |a| && n <= |b| && Value(a, point) == Value(b, point)
    requires (|a| > n ==> a[|a| - 1] != '0') && (|b| > n ==> b[|b| - 1] != '0')
    ensures a == b
    decreases |a|
  {
    if a == "" {
      NoValueNoDigits(b, point);
    } else if b == "" {
      NoValueNoDigits(a, point);
    } else {
      if Digit(a[0]) < Digit(b[0]) { FirstDigitDecides(a, b, point); }
      if Digit(b[0]) < Digit(a[0]) { FirstDigitDecides(b, a, point); }
      DigitsUnique(a[1..], b[1..], point - 1, if n == 0 then 0 else n - 1);
      assert a == [a[0]] + a[1..] && b == [b[0]] + b[1..];
    }
  }

  lemma {:induction false} ScaleMonotone(j: int, k: int)
    requires j <= k
    ensures 0.0 < Scale(1.0, j) <= Scale(1.0, k)
    decreases k - j
  {
    ScaleZero(j);
    ScaleGrows(0.0, 1.0, j);
    if j < k {
      ScaleMonotone(j, k - 1);
      ScaleStep(1.0, k - 1);
    }
  }

  lemma BelowPower(v: string, g: string)
    requires AllDigits(v) && AllDigits(g)
    ensures Value(v, |v|) + Value(g, 0) < Scale(1.0, |v|)
  {
    ValueConcat(v, g, |v|);
    ValueBound(v + g, |v|);
  }

  lemma AbovePower(w: string)
    requires AllDigits(w) && w != "" && w[0] != '0'
    ensures Scale(1.0, |w| - 1) <= Value(w, |w|)
  {
    ValueBound(w[1..], |w| - 1);
    DigitBound(1, Digit(w[0]), |w| - 1);
  }

  /** The longer whole part is the larger number. */
  lemma LongerIsLarger(v: string, g: string, w: string, h: string)
    requires Canonical(v, g) && Canonical(w, h) && |v| < |w|
    ensures Value(v, |v|) + Value(g, 0) < Value(w, |w|) + Value(h, 0)
  {
    BelowPower(v, g);
    ScaleMonotone(|v|, |w| - 1);
    AbovePower(w);
    ValueBound(h, 0);
  }

  lemma SameLength(v: string, g: string, w: string, h: string)
    requires Canonical(v, g) && Canonical(w, h) && Value(v, |v|) + Value(g, 0) == Value(w, |w|) + Value(h, 0)
    ensures |v| == |w|
  {
    if |v| < |w| { LongerIsLarger(v, g, w, h); }
    if |w| < |v| { LongerIsLarger(w, h, v, g); }
  }

  lemma CanonicalUnique(v: string, g: string, w: string, h: string)
    requires Canonical(v, g) && Canonical(w, h) && Value(v, |v|) + Value(g, 0) == Value(w, |w|) + Value(h, 0)
    ensures v + g == w + h && v == w && g == h
  {
    SameLength(v, g, w, h);
    ValueConcat(v, g, |v|);
    ValueConcat(w, h, |v|);
    LastOf(v, g);
    LastOf(w, h);
    DigitsUnique(v + g, w + h, |v|, |v|);
    SameHalves(v, g, w, h);
  }

  lemma LastOf(a: string, b: string)
    ensures b != "" ==> (a + b)[|a + b| - 1] == b[|b| - 1]
  {}

  lemma SameHalves(a: string, b: string, c: string, d: string)
    requires a + b == c + d && |a| == |c|
    ensures a == c && b == d
  {
    assert a == (a + b)[..|a|] && b == (a + b)[|a|..] && c == (c + d)[..|a|] && d == (c + d)[|a|..];
  }

  /** Two accepted tokens are written alike exactly when they have the same sign and stand for the same number. */
  lemma OneTextForEachNumber(a: string, b: string)
    requires Formatted(a).Some? && Formatted(b).Some?
    ensures Formatted(a) == Formatted(b) <==> Negative(a) == Negative(b) && Denotes(a) == Denotes(b)
  {
    FormattedIsExact(a);
    FormattedIsExact(b);
    if Negative(a) == Negative(b) && Denotes(a) == Denotes(b) {
      DigitsCarryTheValue(a);
      DigitsCarryTheValue(b);
      var v, g := ExpandedValue(Digits(a), Point(a));
      var w, h := ExpandedValue(Digits(b), Point(b));
      CanonicalUnique(v, g, w, h);
    }
  }
}
