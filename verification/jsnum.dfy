/**
 JavaScript numbers as the application sees them. Arithmetic is exact (`real`);
 the IEEE values that matter to the validators, NaN and the two infinities, are
 explicit cases. Also here: `Math.round`, the decimal rendering of a number in a
 template string, and `parseInt` with its default radix.
 */
module JsNum {
  import opened Text
  import opened Wrappers

  datatype Num = Finite(v: real) | NaN | Inf(negative: bool)

  function Abs(x: real): (r: real)
    ensures r >= 0.0 && (r == x || r == -x)
  {
    if x < 0.0 then -x else x
  }

  /** `Math.round`: the nearest integer, halves rounded towards positive infinity. */
  function Round(x: real): (r: int)
    ensures r as real - 0.5 <= x < r as real + 0.5
  {
    (x + 0.5).Floor
  }

  lemma RoundOfInt(n: int)
    ensures Round(n as real) == n
  {
  }

  lemma RoundMonotone(x: real, y: real)
    requires x <= y
    ensures Round(x) <= Round(y)
  {
  }

  // ---------------------------------------------------------------------------
  // Rendering numbers as a template string does
  // ---------------------------------------------------------------------------

  function DigitChar(d: int): (c: char)
    requires 0 <= d < 10
    ensures IsDigit(c) && c as int - '0' as int == d
  {
    ('0' as int + d) as char
  }

  predicate AllDigits(s: string) {
    forall i :: 0 <= i < |s| ==> IsDigit(s[i])
  }

  /** Decimal digits of a natural number, most significant first, without leading zeros. */
  function ShowNat(n: nat): (r: string)
    ensures |r| >= 1 && AllDigits(r)
    ensures |r| > 1 ==> r[0] != '0'
    ensures r[0] == '0' <==> n == 0
  {
    if n < 10 then [DigitChar(n)] else ShowNat(n / 10) + [DigitChar(n % 10)]
  }

  /** `${n}` for an integer `n`. */
  function ShowInt(n: int): (r: string)
    ensures |r| >= 1
    ensures r[0] == '-' <==> n < 0
    ensures n >= 0 ==> AllDigits(r)
  {
    if n < 0 then "-" + ShowNat(-n) else ShowNat(n)
  }

  /** Fractional digits of `f`, at most `fuel` of them, stopping once nothing remains. */
  function FracDigits(f: real, fuel: nat): (r: string)
    requires 0.0 <= f < 1.0
    ensures AllDigits(r)
    decreases fuel
  {
    if fuel == 0 || f == 0.0 then ""
    else
      var d := (f * 10.0).Floor;
      [DigitChar(d)] + FracDigits(f * 10.0 - d as real, fuel - 1)
  }

  /**
   `${x}` for a finite number: sign, integer part, and the fractional digits when
   there are any (at most twenty).
   */
  function ShowNum(x: real): (r: string)
    ensures |r| >= 1
    ensures r[0] == '-' <==> x < 0.0
    ensures x >= 0.0 ==> IsDigit(r[0])
  {
    var a := Abs(x);
    var body := ShowNat(a.Floor) + FracText(a);
    if x < 0.0 then "-" + body else body
  }

  /** The fractional part of a non-negative number as rendered: nothing for whole numbers, else a point and digits. */
  function FracText(a: real): (r: string)
    requires a >= 0.0
    ensures r == [] || r[0] == '.'
  {
    if a == a.Floor as real then "" else "." + FracDigits(a - a.Floor as real, 20)
  }

  /** `Math.trunc`: the integer part, rounding toward zero. */
  function Trunc(x: real): (r: int)
    ensures x >= 0.0 ==> r as real <= x < r as real + 1.0
    ensures x < 0.0 ==> r as real - 1.0 < x <= r as real
  {
    if x < 0.0 then -((-x).Floor) else x.Floor
  }

  /** For whole numbers the rendering is the integer rendering. */
  lemma ShowNumOfInt(n: int)
    ensures ShowNum(n as real) == ShowInt(n)
  {
    if n < 0 {
      assert Abs(n as real) == (-n) as real;
      assert (-n as real).Floor == -n;
    }
  }

  lemma ShowNumShape(x: real)
    ensures Abs(x).Floor >= 0
    ensures ShowNum(x) == (if x < 0.0 then "-" else "") + (ShowNat(Abs(x).Floor) + FracText(Abs(x)))
    ensures IsDigit((ShowNat(Abs(x).Floor) + FracText(Abs(x)))[0])
  {
    var d := ShowNat(Abs(x).Floor);
    assert (d + FracText(Abs(x)))[0] == d[0];
  }

  // ---------------------------------------------------------------------------
  // Arithmetic on numbers as the runtime performs it (without signed zero)
  // ---------------------------------------------------------------------------

  /** `a > b` on numbers: any comparison with NaN is false. */
  predicate NumGt(a: Num, b: Num) {
    match (a, b)
    case (NaN, _) => false
    case (_, NaN) => false
    case (Inf(p), Inf(q)) => !p && q
    case (Inf(p), Finite(_)) => !p
    case (Finite(_), Inf(q)) => q
    case (Finite(x), Finite(y)) => x > y
  }

  function NumAbs(a: Num): (r: Num)
    ensures a.Finite? <==> r.Finite?
    ensures r.Inf? ==> !r.negative
  {
    match a
    case NaN => NaN
    case Inf(_) => Inf(false)
    case Finite(x) => Finite(Abs(x))
  }

  function NumAdd(a: Num, b: Num): (r: Num)
    ensures a.Finite? && b.Finite? ==> r == Finite(a.v + b.v)
    ensures a.NaN? || b.NaN? ==> r.NaN?
  {
    match (a, b)
    case (NaN, _) => NaN
    case (_, NaN) => NaN
    case (Inf(p), Inf(q)) => if p == q then Inf(p) else NaN
    case (Inf(p), Finite(_)) => Inf(p)
    case (Finite(_), Inf(q)) => Inf(q)
    case (Finite(x), Finite(y)) => Finite(x + y)
  }

  function NumNeg(a: Num): (r: Num)
    ensures a.Finite? ==> r == Finite(-a.v)
    ensures a.NaN? <==> r.NaN?
  {
    match a
    case NaN => NaN
    case Inf(n) => Inf(!n)
    case Finite(x) => Finite(-x)
  }

  /** Multiplication: an infinity times 0 is NaN, times anything else an infinity of the product's sign. */
  function NumMul(a: Num, b: Num): (r: Num)
    ensures a.Finite? && b.Finite? ==> r == Finite(a.v * b.v)
    ensures a.NaN? || b.NaN? ==> r.NaN?
  {
    if a.NaN? || b.NaN? then NaN
    else if a.Finite? && b.Finite? then Finite(a.v * b.v)
    else if a.Inf? && b.Inf? then Inf(a.negative != b.negative)
    else if a.Inf? then (if b.v == 0.0 then NaN else Inf(a.negative != (b.v < 0.0)))
    else if a.v == 0.0 then NaN
    else Inf((a.v < 0.0) != b.negative)
  }

  /** Division: a non-zero number over zero is an infinity of its sign, 0 / 0 is NaN, a finite number over an infinity is 0. */
  function NumDiv(a: Num, b: Num): (r: Num)
    ensures a.Finite? && b.Finite? && b.v != 0.0 ==> r == Finite(a.v / b.v)
    ensures a.NaN? || b.NaN? ==> r.NaN?
  {
    match (a, b)
    case (NaN, _) => NaN
    case (_, NaN) => NaN
    case (Inf(_), Inf(_)) => NaN
    case (Inf(p), Finite(y)) => if y < 0.0 then Inf(!p) else Inf(p)
    case (Finite(_), Inf(_)) => Finite(0.0)
    case (Finite(x), Finite(y)) =>
      if y != 0.0 then Finite(x / y)
      else if x == 0.0 then NaN
      else Inf(x < 0.0)
  }

  // ---------------------------------------------------------------------------
  // parseInt(s) with no radix argument
  // ---------------------------------------------------------------------------

  /** The value of `c` as a digit in `radix` (10 or 16), or -1 when it is not one. */
  function DigitValue(c: char, radix: int): (d: int)
    ensures -1 <= d < 16
    ensures radix == 10 ==> (d >= 0 <==> IsDigit(c)) && (IsDigit(c) ==> d == c as int - '0' as int)
    ensures radix == 10 ==> d < 10
  {
    if IsDigit(c) then c as int - '0' as int
    else if radix == 16 && 'a' <= c <= 'f' then c as int - 'a' as int + 10
    else if radix == 16 && 'A' <= c <= 'F' then c as int - 'A' as int + 10
    else -1
  }

  /** Length of the longest prefix of `s` made of `radix` digits. */
  function DigitRun(s: string, radix: int): (k: nat)
    ensures k <= |s|
    ensures forall i :: 0 <= i < k ==> DigitValue(s[i], radix) >= 0
    ensures k < |s| ==> DigitValue(s[k], radix) < 0
  {
    if s == [] || DigitValue(s[0], radix) < 0 then 0 else 1 + DigitRun(s[1..], radix)
  }

  /** The number written by the digits `ds` in `radix`. */
  function DigitsValue(ds: string, radix: int): (v: nat)
    requires radix == 10 || radix == 16
    requires forall i :: 0 <= i < |ds| ==> DigitValue(ds[i], radix) >= 0
  {
    if ds == [] then 0
    else DigitsValue(ds[..|ds| - 1], radix) * radix + DigitValue(ds[|ds| - 1], radix)
  }

  /**
   The magnitude read by `parseInt` once white space and sign are gone: a
   `0x`/`0X` prefix switches to hexadecimal, and the longest run of digits that
   follows is the value; without any digit there is none.
   */
  function ParseMagnitude(u: string): Option<nat> {
    var hex := |u| >= 2 && u[0] == '0' && (u[1] == 'x' || u[1] == 'X');
    var radix := if hex then 16 else 10;
    var w := if hex then u[2..] else u;
    var k := DigitRun(w, radix);
    if k == 0 then None else Some(DigitsValue(w[..k], radix))
  }

  /** `parseInt(s)`: leading white space is skipped and one optional sign is read before the magnitude. */
  function ParseInt(s: string): Num {
    var t := TrimStart(s);
    var negative := |t| > 0 && t[0] == '-';
    var u := if |t| > 0 && (t[0] == '-' || t[0] == '+') then t[1..] else t;
    Signed(negative, ParseMagnitude(u))
  }

  /** A parsed magnitude with its sign; no magnitude is NaN. */
  function Signed(negative: bool, m: Option<nat>): Num {
    match m
    case None => NaN
    case Some(m) => Finite(if negative then -(m as real) else m as real)
  }

  lemma {:induction false} DigitRunOfDigits(s: string)
    requires AllDigits(s)
    ensures DigitRun(s, 10) == |s|
    decreases |s|
  {
    if s != [] {
      DigitRunOfDigits(s[1..]);
    }
  }

  lemma {:induction false} ShowNatValue(n: nat)
    ensures DigitsValue(ShowNat(n), 10) == n
    decreases n
  {
    if n >= 10 {
      var s := ShowNat(n);
      ShowNatValue(n / 10);
      assert s[..|s| - 1] == ShowNat(n / 10);
    }
  }

  lemma MagnitudeOfShowNat(n: nat)
    ensures ParseMagnitude(ShowNat(n)) == Some(n)
  {
    var d := ShowNat(n);
    assert |d| >= 2 ==> d[1] != 'x' && d[1] != 'X' by {
      if |d| >= 2 {
        assert IsDigit(d[1]);
      }
    }
    DigitRunOfDigits(d);
    ShowNatValue(n);
    assert d[..|d|] == d;
  }

  lemma {:induction false} DigitRunStops(d: string, tail: string)
    requires AllDigits(d)
    requires tail == [] || !IsDigit(tail[0])
    ensures DigitRun(d + tail, 10) == |d|
    decreases |d|
  {
    if d == [] {
      assert d + tail == tail;
    } else {
      assert (d + tail)[1..] == d[1..] + tail;
      DigitRunStops(d[1..], tail);
    }
  }

  /** `parseInt` reads the digits of `n` and stops at anything after them but a digit or (after a lone `0`) an `x`. */
  lemma MagnitudeIgnoresTail(n: nat, tail: string)
    requires tail == [] || (!IsDigit(tail[0]) && tail[0] != 'x' && tail[0] != 'X')
    ensures ParseMagnitude(ShowNat(n) + tail) == Some(n)
  {
    var d := ShowNat(n);
    var u := d + tail;
    assert |u| >= 2 ==> u[1] != 'x' && u[1] != 'X' by {
      if |u| >= 2 && |d| >= 2 {
        assert u[1] == d[1] && IsDigit(d[1]);
      }
    }
    DigitRunStops(d, tail);
    assert u[..|d|] == d;
    ShowNatValue(n);
  }

  lemma TrimStartAtNonSpace(s: string)
    requires s != [] && !IsJsSpace(s[0])
    ensures TrimStart(s) == s
  {
  }

  /** After an optional sign, a text starting with a digit is read as its magnitude. */
  lemma ParseIntOfSigned(s: string, sign: string, u: string)
    requires sign == "" || sign == "-" || sign == "+"
    requires u != [] && IsDigit(u[0])
    requires s == sign + u
    ensures ParseInt(s) == Signed(sign == "-", ParseMagnitude(u))
  {
    if sign == "" {
      assert s == u;
      TrimStartAtNonSpace(u);
      assert !(u[0] == '-' || u[0] == '+');
    } else {
      assert s[0] == sign[0] && s[1..] == u;
      TrimStartAtNonSpace(s);
      var t := TrimStart(s);
      assert t == s && |t| > 0 && (t[0] == '-' || t[0] == '+');
      assert (t[0] == '-') == (sign == "-");
    }
  }

  lemma ConcatAssoc(a: string, b: string, c: string)
    ensures a + b + c == a + (b + c)
  {
  }

  lemma ConcatEmpty(a: string)
    ensures a + "" == a && "" + a == a
  {
  }

  /**
   `parseInt` reads a sign and the digits of `n` and ignores whatever follows
   them, provided it does not start with a digit or (after a lone `0`) an `x`.
   */
  lemma ParseIntIgnoresTail(n: nat, sign: string, tail: string)
    requires sign == "" || sign == "-" || sign == "+"
    requires tail == [] || (!IsDigit(tail[0]) && tail[0] != 'x' && tail[0] != 'X')
    ensures ParseInt(sign + ShowNat(n) + tail) == Finite(if sign == "-" then -(n as real) else n as real)
  {
    DigitsThenTail(n, sign, tail);
    ParseIntOfSigned(sign + ShowNat(n) + tail, sign, ShowNat(n) + tail);
    MagnitudeIgnoresTail(n, tail);
  }

  lemma DigitsThenTail(n: nat, sign: string, tail: string)
    ensures ShowNat(n) + tail != [] && IsDigit((ShowNat(n) + tail)[0])
    ensures sign + ShowNat(n) + tail == sign + (ShowNat(n) + tail)
  {
    var d := ShowNat(n);
    assert (d + tail)[0] == d[0];
  }

  lemma ParseSignedShowNat(n: nat, sign: string)
    requires sign == "" || sign == "-" || sign == "+"
    ensures ParseInt(sign + ShowNat(n)) == Finite(if sign == "-" then -(n as real) else n as real)
  {
    ConcatEmpty(sign + ShowNat(n));
    ParseIntIgnoresTail(n, sign, "");
  }

  /** Rendering an integer and parsing it back gives the integer. */
  lemma ParseShowInt(n: int)
    ensures ParseInt(ShowInt(n)) == Finite(n as real)
  {
    if n < 0 {
      ParseShowNegative(n);
    } else {
      ParseShowNat(n);
    }
  }

  lemma ParseShowNegative(n: int)
    requires n < 0
    ensures ParseInt(ShowInt(n)) == Finite(n as real)
  {
    var m: nat := -n;
    ShowIntNegative(n);
    ParseIntOfSigned(ShowInt(n), "-", ShowNat(m));
    MagnitudeOfShowNat(m);
  }

  lemma ShowIntNegative(n: int)
    requires n < 0
    ensures ShowInt(n) == "-" + ShowNat(-n)
  {
  }

  lemma ParseShowNat(n: nat)
    ensures ParseInt(ShowInt(n)) == Finite(n as real)
  {
    var d := ShowNat(n);
    ConcatEmpty(d);
    ParseIntOfSigned(d, "", d);
    MagnitudeIgnoresTail(n, "");
  }

  /** Reading a rendered number back with `parseInt` gives the number truncated toward zero. */
  lemma ParseShowNum(x: real)
    ensures ParseInt(ShowNum(x)) == Finite(Trunc(x) as real)
  {
    var m: nat := Abs(x).Floor;
    ShowNumShape(x);
    MagnitudeIgnoresTail(m, FracText(Abs(x)));
    if x < 0.0 {
      ParseIntOfSigned(ShowNum(x), "-", ShowNat(m) + FracText(Abs(x)));
    } else {
      ParseIntOfSigned(ShowNum(x), "", ShowNat(m) + FracText(Abs(x)));
    }
  }
}
