/** The number converter of r_json.c: rjs_strtod and rjs_pow, with doubles
    idealised as reals. */
module Numbers {
  import opened JsonTypes
  import opened Lexical

  function DigitValue(c: char): nat
  {
    if IsDigit(c) then (c as int) - ('0' as int) else 0
  }

  /** The value of a run of decimal digits read left to right. */
  function DigitsValue(d: string): nat
  {
    if d == [] then 0 else DigitsValue(d[..|d| - 1]) * 10 + DigitValue(d[|d| - 1])
  }

  /** The value of the digits of an exponent field; its minus signs carry no
      digit and are skipped. */
  function ExponentDigits(x: string): nat
  {
    if x == [] then 0
    else if IsDigit(x[|x| - 1]) then ExponentDigits(x[..|x| - 1]) * 10 + DigitValue(x[|x| - 1])
    else ExponentDigits(x[..|x| - 1])
  }

  predicate AllDigits(s: string, lo: nat, hi: nat)
    requires lo <= hi <= |s|
  {
    forall k :: lo <= k < hi ==> IsDigit(s[k])
  }

  predicate IsExponentChar(c: char)
  {
    c == '-' || IsDigit(c)
  }

  predicate IsExponentMarker(c: char)
  {
    c == 'e' || c == 'E'
  }

  /** The end of the run of digits that starts at `from`. */
  function DigitRun(s: string, from: nat): (r: nat)
    requires from <= |s|
    ensures from <= r <= |s|
    ensures AllDigits(s, from, r)
    ensures r == |s| || !IsDigit(s[r])
    decreases |s| - from
  {
    if from < |s| && IsDigit(s[from]) then DigitRun(s, from + 1) else from
  }

  /** The run of digits is the only one that stops where the digits stop. */
  lemma DigitRunIs(s: string, from: nat, p: nat)
    requires from <= p <= |s| && AllDigits(s, from, p) && (p == |s| || !IsDigit(s[p]))
    ensures DigitRun(s, from) == p
  {
  }

  function Pow10(k: nat): (r: real)
    ensures r >= 1.0
  {
    if k == 0 then 1.0 else 10.0 * Pow10(k - 1)
  }

  /** x raised to a natural power, by repeated multiplication. */
  function RPow(x: real, n: nat): real
  {
    if n == 0 then 1.0 else x * RPow(x, n - 1)
  }

  /** x to the integer power e; a negative power of zero is the infinity
      that 1.0 / 0.0 yields in C. */
  function PowSpec(x: real, e: int): Num
  {
    if e >= 0 then Finite(RPow(x, e))
    else if x == 0.0 then Infinite
    else Finite(RPow(1.0 / x, -e))
  }

  lemma {:induction false} RPowSquare(x: real, k: nat)
    ensures RPow(x * x, k) == RPow(x, 2 * k)
  {
    if k > 0 {
      RPowSquare(x, k - 1);
      calc {
        RPow(x, 2 * k);
        x * RPow(x, 2 * k - 1);
        x * (x * RPow(x, 2 * (k - 1)));
        (x * x) * RPow(x * x, k - 1);
      }
    }
  }

  lemma RPowOne(x: real)
    ensures RPow(x, 1) == x
  {
    assert RPow(x, 1) == x * RPow(x, 0);
  }

  /** One round of square-and-multiply: an odd power gives up one factor,
      and the rest is half the power of the square. */
  lemma PowRound(r: real, x: real, n: nat)
    requires n > 0
    ensures r * RPow(x, n) == (if n % 2 == 1 then r * x else r) * RPow(x * x, n / 2)
  {
    RPowSquare(x, n / 2);
    if n % 2 == 1 {
      assert RPow(x, n) == x * RPow(x, 2 * (n / 2));
    }
  }

  /** rjs_pow: the fast paths for 0, 1 and -1, then square-and-multiply on
      the (reciprocal) base, halving the exponent each round. */
  method Pow(x: real, e: int) returns (r: Num)
    ensures r == PowSpec(x, e)
  {
    if e == 0 {
      return Finite(1.0);
    }
    if e == 1 {
      RPowOne(x);
      return Finite(x);
    }
    if e == -1 {
      if x == 0.0 {
        return Infinite;
      }
      RPowOne(1.0 / x);
      return Finite(1.0 / x);
    }
    var number := x;
    var exponent := e;
    if exponent < 0 {
      if number == 0.0 {
        // 1.0 / 0.0 is an infinity, and so is every product the loop forms
        return Infinite;
      }
      number := 1.0 / number;
      exponent := -exponent;
    }
    ghost var base, power := number, exponent;
    var result := 1.0;
    while exponent != 0
      invariant exponent >= 0
      invariant result * RPow(number, exponent) == RPow(base, power)
    {
      PowRound(result, number, exponent);
      if exponent % 2 == 1 {
        result := result * number;
      }
      number := number * number;
      exponent := exponent / 2;
    }
    return Finite(result);
  }

  lemma {:induction false} RPowReciprocal(x: real, n: nat)
    requires x != 0.0
    ensures RPow(x, n) * RPow(1.0 / x, n) == 1.0
  {
    if n > 0 {
      RPowReciprocal(x, n - 1);
      var a, b := RPow(x, n - 1), RPow(1.0 / x, n - 1);
      calc {
        RPow(x, n) * RPow(1.0 / x, n);
        (x * a) * ((1.0 / x) * b);
        (x * (1.0 / x)) * (a * b);
        1.0;
      }
    }
  }

  /** A negative power is the reciprocal of the positive one. */
  lemma PowNegationIsReciprocal(x: real, e: nat)
    requires x != 0.0
    ensures PowSpec(x, -(e as int)).Finite? && PowSpec(x, e).Finite?
    ensures PowSpec(x, -(e as int)).r * PowSpec(x, e).r == 1.0
  {
    RPowReciprocal(x, e);
  }

  /** The exponent field after 'e': only digits and '-' are accepted; any
      '-' makes the exponent negative; an exponent of 1 leaves the mantissa
      alone, any other one raises the mantissa to that power. */
  function ApplyExponent(mantissa: real, x: string): Option<Num>
  {
    if forall k :: 0 <= k < |x| ==> IsExponentChar(x[k]) then
      var e: int := ExponentDigits(x);
      if e == 1 then Some(Finite(mantissa))
      else Some(PowSpec(mantissa, if '-' in x then -e else e))
    else None
  }

  /** What rjs_strtod accepts and computes, by the shape of the text:
      an optional '-', digits, optionally '.' and digits, optionally an
      exponent marker and a field of digits and '-'. A text that starts with
      '0' and a digit is refused. */
  function StrToDSpec(s: string): Option<Num>
  {
    if s == [] then None
    else if s[0] == '0' && 1 < |s| && IsDigit(s[1]) then None
    else
      var start := if s[0] == '-' then 1 else 0;
      var sign := if s[0] == '-' then -1.0 else 1.0;
      var a := DigitRun(s, start);
      var intPart := DigitsValue(s[start..a]) as real;
      if a == |s| then Some(Finite(intPart * sign))
      else if s[a] == '.' then
        var b := DigitRun(s, a + 1);
        var mantissa := Mantissa(intPart, 1.0 / Pow10(b - a - 1), DigitsValue(s[a + 1..b]) as real, sign);
        if b == |s| then Some(Finite(mantissa))
        else if IsExponentMarker(s[b]) then ApplyExponent(mantissa, s[b + 1..])
        else None
      else if IsExponentMarker(s[a]) then ApplyExponent(intPart * sign, s[a + 1..])
      else None
  }

  datatype ScanState = ReadNumber | ReadFraction | ReadExponent

  lemma DigitsValueSnoc(s: string, lo: nat, hi: nat)
    requires lo <= hi < |s|
    ensures DigitsValue(s[lo..hi + 1]) == DigitsValue(s[lo..hi]) * 10 + DigitValue(s[hi])
  {
    assert s[lo..hi + 1][..hi - lo] == s[lo..hi];
  }

  lemma ExponentSnoc(s: string, lo: nat, hi: nat)
    requires lo <= hi < |s|
    ensures ExponentDigits(s[lo..hi + 1]) ==
      if IsDigit(s[hi]) then ExponentDigits(s[lo..hi]) * 10 + DigitValue(s[hi]) else ExponentDigits(s[lo..hi])
    ensures ('-' in s[lo..hi + 1]) == ('-' in s[lo..hi] || s[hi] == '-')
  {
    assert s[lo..hi + 1] == s[lo..hi] + [s[hi]];
  }

  /** Where the digits start: after a leading '-'. */
  function Start(s: string): nat
    requires |s| > 0
  {
    if s[0] == '-' then 1 else 0
  }

  /** What the scanner's accumulators hold after reading s[..pos]: in
      ReadNumber the integer digits; in ReadFraction also the fraction digits
      after the '.' at dot, with counter = 10^-k; in ReadExponent the mantissa
      before the marker at mark, and the digits and signs after it. */
  ghost predicate ScanInv(s: string, pos: nat, state: ScanState, dot: int, mark: int,
                          number: real, fraction: real, counter: real, exponent: int, negExp: int)
  {
    0 < |s| && Start(s) <= pos <= |s| &&
    (state == ReadNumber ==>
      dot == -1 && AllDigits(s, Start(s), pos) && number == DigitsValue(s[Start(s)..pos]) as real &&
      fraction == 0.0 && counter == 1.0 && exponent == 1 && negExp == 1) &&
    (state == ReadFraction ==>
      Start(s) <= dot < pos && s[dot] == '.' && DigitRun(s, Start(s)) == dot && AllDigits(s, dot + 1, pos) &&
      number == DigitsValue(s[Start(s)..dot]) as real && fraction == DigitsValue(s[dot + 1..pos]) as real &&
      counter == 1.0 / Pow10(pos - dot - 1) && exponent == 1 && negExp == 1) &&
    (state == ReadExponent ==>
      Start(s) <= mark < pos && IsExponentMarker(s[mark]) &&
      (dot == -1 ==> DigitRun(s, Start(s)) == mark && number == DigitsValue(s[Start(s)..mark]) as real &&
                     fraction == 0.0 && counter == 1.0) &&
      (dot != -1 ==> Start(s) <= dot < mark && s[dot] == '.' && DigitRun(s, Start(s)) == dot &&
                     DigitRun(s, dot + 1) == mark &&
                     number == DigitsValue(s[Start(s)..dot]) as real &&
                     fraction == DigitsValue(s[dot + 1..mark]) as real &&
                     counter == 1.0 / Pow10(mark - dot - 1)) &&
      (forall k :: mark < k < pos ==> IsExponentChar(s[k])) &&
      exponent == ExponentDigits(s[mark + 1..pos]) &&
      negExp == (if '-' in s[mark + 1..pos] then -1 else 1))
  }

  lemma ScanStart(s: string)
    requires |s| > 0
    ensures ScanInv(s, Start(s), ReadNumber, -1, -1, 0.0, 0.0, 1.0, 1, 1)
  {
    assert s[Start(s)..Start(s)] == [];
  }

  lemma ScanNumberDigit(s: string, pos: nat, dot: int, mark: int, number: real, fraction: real, counter: real,
                        exponent: int, negExp: int)
    requires ScanInv(s, pos, ReadNumber, dot, mark, number, fraction, counter, exponent, negExp)
    requires pos < |s| && IsDigit(s[pos])
    ensures ScanInv(s, pos + 1, ReadNumber, dot, mark, DigitValue(s[pos]) as real + number * 10.0,
                    fraction, counter, exponent, negExp)
  {
    DigitsValueSnoc(s, Start(s), pos);
  }

  lemma ScanNumberDot(s: string, pos: nat, dot: int, mark: int, number: real, fraction: real, counter: real,
                      exponent: int, negExp: int)
    requires ScanInv(s, pos, ReadNumber, dot, mark, number, fraction, counter, exponent, negExp)
    requires pos < |s| && s[pos] == '.'
    ensures ScanInv(s, pos + 1, ReadFraction, pos, mark, number, fraction, counter, exponent, negExp)
  {
    DigitRunIs(s, Start(s), pos);
    assert s[pos + 1..pos + 1] == [];
  }

  lemma ScanNumberMarker(s: string, pos: nat, dot: int, mark: int, number: real, fraction: real, counter: real,
                         exponent: int, negExp: int)
    requires ScanInv(s, pos, ReadNumber, dot, mark, number, fraction, counter, exponent, negExp)
    requires pos < |s| && IsExponentMarker(s[pos])
    ensures ScanInv(s, pos + 1, ReadExponent, dot, pos, number, fraction, counter, 0, negExp)
  {
    DigitRunIs(s, Start(s), pos);
    assert s[pos + 1..pos + 1] == [];
  }

  lemma ScanNumberReject(s: string, pos: nat, dot: int, mark: int, number: real, fraction: real, counter: real,
                         exponent: int, negExp: int)
    requires ScanInv(s, pos, ReadNumber, dot, mark, number, fraction, counter, exponent, negExp)
    requires pos < |s| && !IsDigit(s[pos]) && s[pos] != '.' && !IsExponentMarker(s[pos])
    requires !(s[0] == '0' && 1 < |s| && IsDigit(s[1]))
    ensures StrToDSpec(s) == None
  {
    DigitRunIs(s, Start(s), pos);
  }

  lemma ScanFractionDigit(s: string, pos: nat, dot: int, mark: int, number: real, fraction: real, counter: real,
                          exponent: int, negExp: int)
    requires ScanInv(s, pos, ReadFraction, dot, mark, number, fraction, counter, exponent, negExp)
    requires pos < |s| && IsDigit(s[pos])
    ensures ScanInv(s, pos + 1, ReadFraction, dot, mark, number, DigitValue(s[pos]) as real + fraction * 10.0,
                    counter / 10.0, exponent, negExp)
  {
    DigitsValueSnoc(s, dot + 1, pos);
    var p := Pow10(pos - dot - 1);
    assert Pow10(pos + 1 - dot - 1) == 10.0 * p;
    assert counter / 10.0 == 1.0 / (10.0 * p);
  }

  lemma ScanFractionMarker(s: string, pos: nat, dot: int, mark: int, number: real, fraction: real, counter: real,
                           exponent: int, negExp: int)
    requires ScanInv(s, pos, ReadFraction, dot, mark, number, fraction, counter, exponent, negExp)
    requires pos < |s| && IsExponentMarker(s[pos])
    ensures ScanInv(s, pos + 1, ReadExponent, dot, pos, number, fraction, counter, 0, negExp)
  {
    DigitRunIs(s, dot + 1, pos);
    assert s[pos + 1..pos + 1] == [];
  }

  lemma ScanFractionReject(s: string, pos: nat, dot: int, mark: int, number: real, fraction: real, counter: real,
                           exponent: int, negExp: int)
    requires ScanInv(s, pos, ReadFraction, dot, mark, number, fraction, counter, exponent, negExp)
    requires pos < |s| && !IsDigit(s[pos]) && !IsExponentMarker(s[pos])
    requires !(s[0] == '0' && 1 < |s| && IsDigit(s[1]))
    ensures StrToDSpec(s) == None
  {
    DigitRunIs(s, dot + 1, pos);
  }

  lemma ScanExponentChar(s: string, pos: nat, dot: int, mark: int, number: real, fraction: real, counter: real,
                         exponent: int, negExp: int)
    requires ScanInv(s, pos, ReadExponent, dot, mark, number, fraction, counter, exponent, negExp)
    requires pos < |s| && IsExponentChar(s[pos])
    ensures ScanInv(s, pos + 1, ReadExponent, dot, mark, number, fraction, counter,
                    if IsDigit(s[pos]) then DigitValue(s[pos]) + exponent * 10 else exponent,
                    if s[pos] == '-' then -1 else negExp)
  {
    ExponentSnoc(s, mark + 1, pos);
  }

  lemma ScanExponentReject(s: string, pos: nat, dot: int, mark: int, number: real, fraction: real, counter: real,
                           exponent: int, negExp: int)
    requires ScanInv(s, pos, ReadExponent, dot, mark, number, fraction, counter, exponent, negExp)
    requires pos < |s| && !IsExponentChar(s[pos])
    requires !(s[0] == '0' && 1 < |s| && IsDigit(s[1]))
    ensures StrToDSpec(s) == None
  {
    assert s[mark + 1..][pos - mark - 1] == s[pos];
  }

  /** The mantissa the scanner forms from its accumulators. */
  function Mantissa(number: real, counter: real, fraction: real, sign: real): real
  {
    (number + counter * fraction) * sign
  }

  function Sign(s: string): real
    requires |s| > 0
  {
    if s[0] == '-' then -1.0 else 1.0
  }

  /** The result the scanner returns once the text is used up. */
  function Finish(value: real, exponent: int, negExp: int): Option<Num>
  {
    if exponent != 1 then Some(PowSpec(value, exponent * negExp)) else Some(Finite(value))
  }

  lemma ScanEndNumber(s: string, dot: int, mark: int, number: real, fraction: real, counter: real,
                      exponent: int, negExp: int)
    requires ScanInv(s, |s|, ReadNumber, dot, mark, number, fraction, counter, exponent, negExp)
    requires !(s[0] == '0' && 1 < |s| && IsDigit(s[1]))
    ensures StrToDSpec(s) == Finish(Mantissa(number, counter, fraction, Sign(s)), exponent, negExp)
  {
    DigitRunIs(s, Start(s), |s|);
  }

  lemma ScanEndFraction(s: string, dot: int, mark: int, number: real, fraction: real, counter: real,
                        exponent: int, negExp: int)
    requires ScanInv(s, |s|, ReadFraction, dot, mark, number, fraction, counter, exponent, negExp)
    requires !(s[0] == '0' && 1 < |s| && IsDigit(s[1]))
    ensures StrToDSpec(s) == Finish(Mantissa(number, counter, fraction, Sign(s)), exponent, negExp)
  {
    DigitRunIs(s, dot + 1, |s|);
  }

  lemma ScanEndExponent(s: string, dot: int, mark: int, number: real, fraction: real, counter: real,
                        exponent: int, negExp: int)
    requires ScanInv(s, |s|, ReadExponent, dot, mark, number, fraction, counter, exponent, negExp)
    requires !(s[0] == '0' && 1 < |s| && IsDigit(s[1]))
    ensures StrToDSpec(s) == Finish(Mantissa(number, counter, fraction, Sign(s)), exponent, negExp)
  {
    assert s[mark + 1..] == s[mark + 1..|s|];
    if dot == -1 {
      assert Mantissa(number, counter, fraction, Sign(s)) == number * Sign(s);
    }
  }

  /** The scanner's accumulators: the state, the integer and fraction
      digits, the fraction's scale 10^-k, the exponent digits and the
      exponent's sign. */
  datatype Scan = Scan(state: ScanState, number: real, fraction: real, counter: real, exponent: int, negExp: int)

  const InitialScan := Scan(ReadNumber, 0.0, 0.0, 1.0, 1, 1)

  /** One character of rjs_strtod's loop; None when the character is
      refused in the current state. */
  function ScanChar(sc: Scan, c: char): Option<Scan>
  {
    match sc.state
    case ReadNumber =>
      if IsDigit(c) then Some(sc.(number := DigitValue(c) as real + sc.number * 10.0))
      else if c == '.' then Some(sc.(state := ReadFraction))
      else if IsExponentMarker(c) then Some(sc.(state := ReadExponent, exponent := 0))
      else None
    case ReadFraction =>
      if IsDigit(c) then
        Some(sc.(fraction := DigitValue(c) as real + sc.fraction * 10.0, counter := sc.counter / 10.0))
      else if IsExponentMarker(c) then Some(sc.(state := ReadExponent, exponent := 0))
      else None
    case ReadExponent =>
      if c == '-' then Some(sc.(negExp := -1))
      else if IsDigit(c) then Some(sc.(exponent := DigitValue(c) + sc.exponent * 10))
      else None
  }

  /** The result of running the scanner over s[pos..] from the accumulators sc. */
  function ScanFrom(s: string, pos: nat, sc: Scan, sign: real): Option<Num>
    requires pos <= |s|
    decreases |s| - pos
  {
    if pos == |s| then Finish(Mantissa(sc.number, sc.counter, sc.fraction, sign), sc.exponent, sc.negExp)
    else match ScanChar(sc, s[pos])
      case None => None
      case Some(next) => ScanFrom(s, pos + 1, next, sign)
  }

  /** At the end of the text the accumulators give the specified result. */
  lemma ScanEnd(s: string, dot: int, mark: int, sc: Scan)
    requires ScanInv(s, |s|, sc.state, dot, mark, sc.number, sc.fraction, sc.counter, sc.exponent, sc.negExp)
    requires !(s[0] == '0' && 1 < |s| && IsDigit(s[1]))
    ensures StrToDSpec(s) == Finish(Mantissa(sc.number, sc.counter, sc.fraction, Sign(s)), sc.exponent, sc.negExp)
  {
    var Scan(state, number, fraction, counter, exponent, negExp) := sc;
    match state
    case ReadNumber => ScanEndNumber(s, dot, mark, number, fraction, counter, exponent, negExp);
    case ReadFraction => ScanEndFraction(s, dot, mark, number, fraction, counter, exponent, negExp);
    case ReadExponent => ScanEndExponent(s, dot, mark, number, fraction, counter, exponent, negExp);
  }

  /** A refused character means the text is refused; an accepted one keeps
      the invariant, with the '.' or the exponent marker recorded. */
  lemma ScanStep(s: string, pos: nat, dot: int, mark: int, sc: Scan) returns (dot': int, mark': int)
    requires ScanInv(s, pos, sc.state, dot, mark, sc.number, sc.fraction, sc.counter, sc.exponent, sc.negExp)
    requires pos < |s| && !(s[0] == '0' && 1 < |s| && IsDigit(s[1]))
    ensures ScanChar(sc, s[pos]).None? ==> StrToDSpec(s) == None
    ensures ScanChar(sc, s[pos]).Some? ==>
      var n := ScanChar(sc, s[pos]).value;
      ScanInv(s, pos + 1, n.state, dot', mark', n.number, n.fraction, n.counter, n.exponent, n.negExp)
  {
    var Scan(state, number, fraction, counter, exponent, negExp) := sc;
    var c := s[pos];
    dot', mark' := dot, mark;
    match state
    case ReadNumber => dot', mark' := ScanStepNumber(s, pos, dot, mark, sc);
    case ReadFraction => dot', mark' := ScanStepFraction(s, pos, dot, mark, sc);
    case ReadExponent => dot', mark' := ScanStepExponent(s, pos, dot, mark, sc);
  }

  /** ScanStep in the integer part: a digit, '.', a marker or a refusal. */
  lemma ScanStepNumber(s: string, pos: nat, dot: int, mark: int, sc: Scan) returns (dot': int, mark': int)
    requires ScanInv(s, pos, sc.state, dot, mark, sc.number, sc.fraction, sc.counter, sc.exponent, sc.negExp)
    requires pos < |s| && !(s[0] == '0' && 1 < |s| && IsDigit(s[1]))
    requires sc.state == ReadNumber
    ensures ScanChar(sc, s[pos]).None? ==> StrToDSpec(s) == None
    ensures ScanChar(sc, s[pos]).Some? ==>
      var n := ScanChar(sc, s[pos]).value;
      ScanInv(s, pos + 1, n.state, dot', mark', n.number, n.fraction, n.counter, n.exponent, n.negExp)
  {
    var Scan(state, number, fraction, counter, exponent, negExp) := sc;
    var c := s[pos];
    dot', mark' := dot, mark;
    if IsDigit(c) {
      ScanNumberDigit(s, pos, dot, mark, number, fraction, counter, exponent, negExp);
    } else if c == '.' {
      ScanNumberDot(s, pos, dot, mark, number, fraction, counter, exponent, negExp);
      dot' := pos;
    } else if IsExponentMarker(c) {
      ScanNumberMarker(s, pos, dot, mark, number, fraction, counter, exponent, negExp);
      mark' := pos;
    } else {
      ScanNumberReject(s, pos, dot, mark, number, fraction, counter, exponent, negExp);
    }
  }

  /** ScanStep in the fraction: a digit, a marker or a refusal. */
  lemma ScanStepFraction(s: string, pos: nat, dot: int, mark: int, sc: Scan) returns (dot': int, mark': int)
    requires ScanInv(s, pos, sc.state, dot, mark, sc.number, sc.fraction, sc.counter, sc.exponent, sc.negExp)
    requires pos < |s| && !(s[0] == '0' && 1 < |s| && IsDigit(s[1]))
    requires sc.state == ReadFraction
    ensures ScanChar(sc, s[pos]).None? ==> StrToDSpec(s) == None
    ensures ScanChar(sc, s[pos]).Some? ==>
      var n := ScanChar(sc, s[pos]).value;
      ScanInv(s, pos + 1, n.state, dot', mark', n.number, n.fraction, n.counter, n.exponent, n.negExp)
  {
    var Scan(state, number, fraction, counter, exponent, negExp) := sc;
    var c := s[pos];
    dot', mark' := dot, mark;
    if IsDigit(c) {
      ScanFractionDigit(s, pos, dot, mark, number, fraction, counter, exponent, negExp);
    } else if IsExponentMarker(c) {
      ScanFractionMarker(s, pos, dot, mark, number, fraction, counter, exponent, negExp);
      mark' := pos;
    } else {
      ScanFractionReject(s, pos, dot, mark, number, fraction, counter, exponent, negExp);
    }
  }

  /** ScanStep in the exponent field: a digit or '-', or a refusal. */
  lemma ScanStepExponent(s: string, pos: nat, dot: int, mark: int, sc: Scan) returns (dot': int, mark': int)
    requires ScanInv(s, pos, sc.state, dot, mark, sc.number, sc.fraction, sc.counter, sc.exponent, sc.negExp)
    requires pos < |s| && !(s[0] == '0' && 1 < |s| && IsDigit(s[1]))
    requires sc.state == ReadExponent
    ensures ScanChar(sc, s[pos]).None? ==> StrToDSpec(s) == None
    ensures ScanChar(sc, s[pos]).Some? ==>
      var n := ScanChar(sc, s[pos]).value;
      ScanInv(s, pos + 1, n.state, dot', mark', n.number, n.fraction, n.counter, n.exponent, n.negExp)
  {
    var Scan(state, number, fraction, counter, exponent, negExp) := sc;
    var c := s[pos];
    dot', mark' := dot, mark;
    if IsExponentChar(c) {
      ScanExponentChar(s, pos, dot, mark, number, fraction, counter, exponent, negExp);
    } else {
      ScanExponentReject(s, pos, dot, mark, number, fraction, counter, exponent, negExp);
    }
  }

  /** From any point the invariant describes, the scanner ends with the
      result the grammar assigns to the whole text. */
  lemma {:induction false} ScanFromIsSpec(s: string, pos: nat, dot: int, mark: int, sc: Scan)
    requires ScanInv(s, pos, sc.state, dot, mark, sc.number, sc.fraction, sc.counter, sc.exponent, sc.negExp)
    requires !(s[0] == '0' && 1 < |s| && IsDigit(s[1]))
    ensures ScanFrom(s, pos, sc, Sign(s)) == StrToDSpec(s)
    decreases |s| - pos, 1
  {
    if pos == |s| {
      ScanEnd(s, dot, mark, sc);
    } else {
      ScanOnIsSpec(s, pos, dot, mark, sc);
    }
  }

  /** The same, from a point before the end of the text. */
  lemma {:induction false} ScanOnIsSpec(s: string, pos: nat, dot: int, mark: int, sc: Scan)
    requires ScanInv(s, pos, sc.state, dot, mark, sc.number, sc.fraction, sc.counter, sc.exponent, sc.negExp)
    requires !(s[0] == '0' && 1 < |s| && IsDigit(s[1])) && pos < |s|
    ensures ScanFrom(s, pos, sc, Sign(s)) == StrToDSpec(s)
    decreases |s| - pos, 0
  {
    var dot', mark' := ScanStep(s, pos, dot, mark, sc);
    var next := ScanChar(sc, s[pos]);
    if next.Some? {
      assert ScanFrom(s, pos, sc, Sign(s)) == ScanFrom(s, pos + 1, next.value, Sign(s));
      ScanFromIsSpec(s, pos + 1, dot', mark', next.value);
    }
  }

  /** rjs_strtod: a three-state scanner over local accumulators. */
  method StrToD(s: string) returns (r: Option<Num>)
    ensures r == StrToDSpec(s)
  {
    if |s| == 0 {
      return None;
    }
    if s[0] == '0' && 1 < |s| && IsDigit(s[1]) {
      return None;
    }
    var pos := 0;
    var state := ReadNumber;
    var isNegative := 1;
    var number := 0.0;
    var fraction := 0.0;
    var counterFraction := 1.0;
    var exponent := 1;
    var isNegativeExponent := 1;
    if s[0] == '-' {
      pos := pos + 1;
      isNegative := -1;
    }
    ScanStart(s);
    ScanFromIsSpec(s, pos, -1, -1, InitialScan);
    while pos < |s|
      invariant pos <= |s|
      invariant ScanFrom(s, pos, Scan(state, number, fraction, counterFraction, exponent, isNegativeExponent),
                         isNegative as real) == StrToDSpec(s)
      decreases |s| - pos
    {
      var c := s[pos];
      match state {
        case ReadNumber =>
          if IsDigit(c) {
            number := DigitValue(c) as real + number * 10.0;
          } else if c == '.' {
            state := ReadFraction;
          } else if IsExponentMarker(c) {
            state := ReadExponent;
            exponent := 0;
          } else {
            return None;
          }
        case ReadFraction =>
          if IsDigit(c) {
            fraction := DigitValue(c) as real + fraction * 10.0;
            counterFraction := counterFraction / 10.0;
          } else if IsExponentMarker(c) {
            state := ReadExponent;
            exponent := 0;
          } else {
            return None;
          }
        case ReadExponent =>
          if c == '-' {
            isNegativeExponent := -1;
          } else if IsDigit(c) {
            exponent := DigitValue(c) + exponent * 10;
          } else {
            return None;
          }
      }
      pos := pos + 1;
    }
    var value := Mantissa(number, counterFraction, fraction, isNegative as real);
    if exponent != 1 {
      var powered := Pow(value, exponent * isNegativeExponent);
      return Some(powered);
    }
    return Some(Finite(value));
  }

  /** An accepted exponent field holds only digits and '-'. */
  lemma ExponentFieldChars(s: string, b: nat, m: real)
    requires b < |s| && ApplyExponent(m, s[b + 1..]).Some?
    ensures forall k :: b < k < |s| ==> IsExponentChar(s[k])
  {
    var x := s[b + 1..];
    forall k | b < k < |s| ensures IsExponentChar(s[k]) {
      assert x[k - b - 1] == s[k];
    }
  }

  /** Where an accepted text splits: the integer digits end at a, the
      fraction digits (if s[a] is '.') end at b, and everything after the
      exponent marker at b is a digit or '-'. With no '.', b == a. */
  lemma AcceptedLayout(s: string) returns (a: nat, b: nat)
    requires StrToDSpec(s).Some?
    ensures Start(s) <= a <= b <= |s|
    ensures a < |s| && s[a] == '.' ==> a < b
    ensures AllDigits(s, Start(s), a) && AllDigits(s, if a < |s| && s[a] == '.' then a + 1 else a, b)
    ensures a < |s| && s[a] != '.' ==> a == b
    ensures a < |s| ==> s[a] == '.' || IsExponentMarker(s[a])
    ensures b < |s| ==> IsExponentMarker(s[b]) && forall k :: b < k < |s| ==> IsExponentChar(s[k])
  {
    a := DigitRun(s, Start(s));
    b := a;
    if a < |s| && s[a] == '.' {
      b := DigitRun(s, a + 1);
      if b < |s| {
        ExponentFieldChars(s, b, Mantissa(DigitsValue(s[Start(s)..a]) as real, 1.0 / Pow10(b - a - 1),
                                          DigitsValue(s[a + 1..b]) as real, Sign(s)));
      }
    } else if a < |s| {
      ExponentFieldChars(s, a, DigitsValue(s[Start(s)..a]) as real * Sign(s));
    }
  }

  /** Every character of an accepted number is a digit, '-', '.', 'e' or
      'E', and at most one '.' appears: "1.2.3" is refused. */
  lemma StrToDAcceptedChars(s: string)
    requires StrToDSpec(s).Some?
    ensures forall k :: 0 <= k < |s| ==> IsExponentChar(s[k]) || s[k] == '.' || IsExponentMarker(s[k])
    ensures forall i, j :: 0 <= i < j < |s| && s[i] == '.' ==> s[j] != '.'
  {
    var a, b := AcceptedLayout(s);
  }

  /** A '-' other than the first character comes after the exponent marker:
      "1-2" is refused. */
  lemma StrToDMinusPlacement(s: string, k: nat)
    requires StrToDSpec(s).Some? && 0 < k < |s| && s[k] == '-'
    ensures exists m :: 0 <= m < k && IsExponentMarker(s[m])
  {
    var a, b := AcceptedLayout(s);
    assert IsExponentMarker(s[b]) && b < k;
  }

  /** The exponent raises the mantissa to a power: "2e3" is 2^3. */
  lemma StrToDExponentIsPower()
    ensures StrToDSpec("2e3") == Some(Finite(8.0))
  {
    assert DigitRun("2e3", 0) == 1;
    assert "2e3"[2..] == "3";
    assert "2e3"[0..1] == "2";
    assert DigitsValue("2") == 2 by { assert "2"[..0] == []; }
    assert ExponentDigits("3") == 3 by { assert "3"[..0] == []; }
    assert RPow(2.0, 3) == 8.0 by {
      RPowOne(2.0);
      assert RPow(2.0, 2) == 2.0 * RPow(2.0, 1);
    }
  }

  /** The power applies to the signed mantissa: "-0.5e2" is (-0.5)^2, not
      -0.5 * 10^2. */
  lemma StrToDPowerOfSignedMantissa()
    ensures StrToDSpec("-0.5e2") == Some(Finite(0.25))
  {
    var s := "-0.5e2";
    assert DigitRun(s, 1) == 2;
    assert s[2] == '.';
    assert DigitRun(s, 3) == 4;
    assert s[1..2] == "0" && s[3..4] == "5" && s[5..] == "2";
    assert DigitsValue("0") == 0 by { assert "0"[..0] == []; }
    assert DigitsValue("5") == 5 by { assert "5"[..0] == []; }
    assert ExponentDigits("2") == 2 by { assert "2"[..0] == []; }
    assert Pow10(1) == 10.0;
    assert RPow(-0.5, 2) == 0.25 by {
      RPowOne(-0.5);
      assert RPow(-0.5, 2) == -0.5 * RPow(-0.5, 1);
    }
  }

  /** An exponent whose digits read 1 is skipped, even when negative. */
  lemma StrToDExponentOneIsSkipped()
    ensures StrToDSpec("2e-1") == Some(Finite(2.0))
  {
    assert DigitRun("2e-1", 0) == 1;
    assert "2e-1"[2..] == "-1";
    assert "2e-1"[0..1] == "2";
    assert DigitsValue("2") == 2 by { assert "2"[..0] == []; }
    assert ExponentDigits("-1") == 1 by { assert "-1"[..1] == "-"; assert "-"[..0] == []; }
  }

  /** An empty exponent is the power 0. */
  lemma StrToDEmptyExponent()
    ensures StrToDSpec("2e") == Some(Finite(1.0))
  {
    assert DigitRun("2e", 0) == 1;
  }

  /** An empty text is refused, and so is a leading zero, but only at the
      very start: "01" fails, "-01" is -1. */
  lemma StrToDLeadingZero()
    ensures StrToDSpec("") == None
    ensures StrToDSpec("01") == None
    ensures StrToDSpec("-01") == Some(Finite(-1.0))
  {
    assert DigitRun("-01", 1) == 3;
    assert "-01"[1..3] == "01";
    assert DigitsValue("01") == 1 by { assert "01"[..1] == "0"; assert "0"[..0] == []; }
  }

  /** A lone minus sign is zero, and '+' is not an exponent character. */
  lemma StrToDSignQuirks()
    ensures StrToDSpec("-") == Some(Finite(0.0))
    ensures StrToDSpec("1e+2") == None
  {
    assert DigitRun("-", 1) == 1;
    assert DigitRun("1e+2", 0) == 1;
    assert "1e+2"[2..][0] == '+';
  }
}
