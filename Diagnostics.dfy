/** rjs_log: the error message the parser leaves in error_log, made of the
    message, the label " Line: " and the line number in decimal. */
module Diagnostics {
  import opened JsonTypes
  import opened Lexical
  import opened Numbers

  const LINE_LABEL: string := " Line: "

  /** The decimal conversion starts at the divisor 100000, so it writes
      proper digits only for line numbers below 10^6. */
  const LINE_LIMIT: nat := 1000000

  /** The longest message that leaves room for the label, six digits and the
      terminator in the 256-character log. */
  const MAX_MESSAGE: nat := MAX_STRING_SIZE - 1 - 7 - 6

  function Digit(d: nat): (c: char)
    requires d <= 9
    ensures IsDigit(c) && DigitValue(c) == d
  {
    ('0' as int + d) as char
  }

  /** The decimal digits of n, most significant first, with no leading zero
      (no digits at all for 0). */
  function Decimal(n: nat): (r: string)
    ensures forall k :: 0 <= k < |r| ==> IsDigit(r[k])
    ensures n > 0 <==> r != []
    ensures r != [] ==> r[0] != '0'
  {
    if n == 0 then [] else Decimal(n / 10) + [Digit(n % 10)]
  }

  /** Reading the written digits back gives the line number. */
  lemma {:induction false} DecimalRoundTrip(n: nat)
    ensures DigitsValue(Decimal(n)) == n
  {
    if n > 0 {
      DecimalRoundTrip(n / 10);
      var d := Decimal(n);
      assert d[..|d| - 1] == Decimal(n / 10);
    }
  }

  lemma {:induction false} DecimalLength(n: nat, k: nat)
    requires n < Pow10Int(k)
    ensures |Decimal(n)| <= k
  {
    if n > 0 {
      DecimalLength(n / 10, k - 1);
    }
  }

  function Pow10Int(k: nat): (r: nat)
    ensures r >= 1
  {
    if k == 0 then 1 else 10 * Pow10Int(k - 1)
  }

  /** The text rjs_log stores: message, label, decimal line number. */
  function ErrorText(msg: string, line: nat): string
  {
    msg + LINE_LABEL + Decimal(line)
  }

  lemma ErrorTextFits(msg: string, line: nat)
    requires |msg| <= MAX_MESSAGE && line < LINE_LIMIT
    ensures |ErrorText(msg, line)| < MAX_STRING_SIZE
  {
    assert LINE_LIMIT == Pow10Int(6);
    DecimalLength(line, 6);
  }

  /** The log buffer after rjs_log: the error text, its terminator, and the
      rest of the old contents. */
  function Logged(buf: seq<char>, msg: string, line: nat): (r: seq<char>)
    requires |buf| == MAX_STRING_SIZE && |msg| <= MAX_MESSAGE && NUL !in msg && line < LINE_LIMIT
    ensures |r| == MAX_STRING_SIZE
    ensures CString(r) == ErrorText(msg, line)
  {
    ErrorTextFits(msg, line);
    var t := ErrorText(msg, line);
    var r := t + [NUL] + buf[|t| + 1..];
    assert r[..|t|] == t;
    CStringAt(r, |t|);
    r
  }

  /** Division with remainder has one answer. */
  lemma DivUnique(n: int, d: int, q: int, r: int)
    requires d > 0 && n == q * d + r && 0 <= r < d
    ensures n / d == q && n % d == r
  {
    var k := q - n / d;
    assert k * d == n % d - r;
  }

  /** One round of the digit loop: the digits above divisor d are the digits
      above 10d followed by one more digit, the one the remainder below 10d
      holds. */
  lemma DigitRound(n: nat, d: nat)
    requires d > 0
    ensures (n / d) / 10 == n / (10 * d)
    ensures (n / d) % 10 == (n % (10 * d)) / d
    ensures (n % (10 * d)) % d == n % d
  {
    var q := n / (10 * d);
    var r := n % (10 * d);
    assert n == q * (10 * d) + r && 0 <= r < 10 * d;
    var a := r / d;
    var b := r % d;
    assert r == a * d + b && 0 <= b < d;
    assert 0 <= a < 10;
    assert n == (q * 10 + a) * d + b;
    DivUnique(n, d, q * 10 + a, b);
  }

  lemma ShortDecimal(line: nat, d: nat)
    requires line < LINE_LIMIT && d >= 1
    ensures |Decimal(line / d)| <= 6
  {
    assert LINE_LIMIT == Pow10Int(6);
    DecimalLength(line / d, 6);
  }

  /** The state of the digit loop of rjs_log before the round with divisor
      d: p is 10d (1 once d is 0), rest the part of line below p, found
      whether a nonzero digit has been met, and the digits above p, which
      are the digits written so far. */
  predicate DigitsSoFar(line: nat, d: nat, p: nat, rest: nat, found: bool)
  {
    line < LINE_LIMIT && d in {100000, 10000, 1000, 100, 10, 1, 0} &&
    p == (if d == 0 then 1 else 10 * d) && rest == line % p &&
    (found <==> line / p != 0) && |Decimal(line / p)| <= 6
  }

  /** One round of the digit loop: it writes the digit rest / d unless it
      and all digits before it are zero, and the digits above the next
      divisor are the digits so far with that digit appended. */
  lemma DigitStep(line: nat, d: nat, p: nat, rest: nat, found: bool)
    requires DigitsSoFar(line, d, p, rest, found) && d != 0
    ensures rest / d <= 9
    ensures DigitsSoFar(line, d / 10, p / 10, rest % d, rest / d != 0 || found)
    ensures Decimal(line / (p / 10)) ==
      if rest / d != 0 || found then Decimal(line / p) + [Digit(rest / d)] else Decimal(line / p)
  {
    DigitRound(line, d);
    ShortDecimal(line, d);
    assert p / 10 == d;
  }

  /** buf with text written over it from position pos on. */
  function Placed(buf: seq<char>, pos: nat, text: string): (r: seq<char>)
    requires pos + |text| <= |buf|
    ensures |r| == |buf|
  {
    buf[..pos] + text + buf[pos + |text|..]
  }

  /** Writing one more character after the placed text places the longer
      text. */
  lemma PlacedStep(buf: seq<char>, pos: nat, text: string, c: char)
    requires pos + |text| < |buf|
    ensures Placed(buf, pos, text)[pos + |text| := c] == Placed(buf, pos, text + [c])
  {
    var a := Placed(buf, pos, text)[pos + |text| := c];
    var b := Placed(buf, pos, text + [c]);
    assert forall k :: 0 <= k < |a| ==> a[k] == b[k] by {
      forall k | 0 <= k < |a|
        ensures a[k] == b[k]
      {
        if k < pos {
          assert a[k] == buf[..pos][k];
        } else if k < pos + |text| {
          assert a[k] == Placed(buf, pos, text)[pos..pos + |text|][k - pos];
          assert b[k] == b[pos..pos + |text| + 1][k - pos];
        } else if k > pos + |text| {
          assert a[k] == Placed(buf, pos, text)[pos + |text|..][k - pos - |text|];
          assert b[k] == b[pos + |text| + 1..][k - pos - |text| - 1];
        }
      }
    }
  }

  /** Placing two texts one after the other places their concatenation. */
  lemma PlacedTwice(buf: seq<char>, pos: nat, t1: string, t2: string)
    requires pos + |t1| + |t2| <= |buf|
    ensures Placed(Placed(buf, pos, t1), pos + |t1|, t2) == Placed(buf, pos, t1 + t2)
  {
    var m := Placed(buf, pos, t1);
    assert m[..pos + |t1|] == buf[..pos] + t1;
    assert m[pos + |t1| + |t2|..] == buf[pos + |t1| + |t2|..];
  }

  /** The first two loops of rjs_log: copy a text into the log from pos. */
  method CopyText(log: array<char>, pos: nat, text: string) returns (end: nat)
    requires pos + |text| < log.Length
    modifies log
    ensures end == pos + |text|
    ensures log[..] == Placed(old(log[..]), pos, text)
  {
    end := pos;
    var i := 0;
    while i < |text|
      invariant 0 <= i <= |text| && end == pos + i
      invariant log[..] == Placed(old(log[..]), pos, text[..i])
    {
      PlacedStep(old(log[..]), pos, text[..i], text[i]);
      assert text[..i] + [text[i]] == text[..i + 1];
      log[end] := text[i];
      end := end + 1;
      i := i + 1;
    }
    assert text[..i] == text;
  }

  /** The third loop of rjs_log: the digits of line from the divisor 100000
      down, leading zeros skipped. */
  method WriteDigits(log: array<char>, pos: nat, line: nat) returns (end: nat)
    requires line < LINE_LIMIT && pos + 6 < log.Length
    modifies log
    ensures end == pos + |Decimal(line)| && end <= pos + 6
    ensures log[..] == Placed(old(log[..]), pos, Decimal(line))
  {
    end := pos;
    var lineCount: nat := line;
    var div10: nat := 100000;
    var foundNumber := false;
    ghost var p: nat := 1000000;
    ghost var written: string := [];
    ShortDecimal(line, p);
    while div10 != 0
      invariant DigitsSoFar(line, div10, p, lineCount, foundNumber)
      invariant written == Decimal(line / p) && end == pos + |written|
      invariant log[..] == Placed(old(log[..]), pos, written)
      decreases div10
    {
      DigitStep(line, div10, p, lineCount, foundNumber);
      var c := lineCount / div10;
      if c != 0 || foundNumber {
        PlacedStep(old(log[..]), pos, written, Digit(c));
        log[end] := Digit(c);
        end := end + 1;
        foundNumber := true;
        written := written + [Digit(c)];
      }
      lineCount := lineCount % div10;
      div10 := div10 / 10;
      p := p / 10;
    }
  }

  /** The log after rjs_log is the old buffer with the error text and its
      terminator placed at the start. */
  lemma LoggedIsPlaced(buf: seq<char>, msg: string, line: nat)
    requires |buf| == MAX_STRING_SIZE && |msg| <= MAX_MESSAGE && NUL !in msg && line < LINE_LIMIT
    ensures |ErrorText(msg, line)| < MAX_STRING_SIZE
    ensures Logged(buf, msg, line) == Placed(buf, 0, ErrorText(msg, line) + [NUL])
  {
    ErrorTextFits(msg, line);
    var t := ErrorText(msg, line);
    assert buf[..0] + (t + [NUL]) == t + [NUL];
  }

  /** rjs_log: the message, the label, the digits of the line number, and
      the terminator. */
  method WriteLog(log: array<char>, msg: string, line: nat)
    requires log.Length == MAX_STRING_SIZE
    requires |msg| <= MAX_MESSAGE && NUL !in msg && line < LINE_LIMIT
    modifies log
    ensures log[..] == Logged(old(log[..]), msg, line)
  {
    LoggedIsPlaced(log[..], msg, line);
    ghost var buf := log[..];
    ghost var t := ErrorText(msg, line);
    var pos := CopyText(log, 0, msg);
    pos := CopyText(log, pos, LINE_LABEL);
    PlacedTwice(buf, 0, msg, LINE_LABEL);
    pos := WriteDigits(log, pos, line);
    PlacedTwice(buf, 0, msg + LINE_LABEL, Decimal(line));
    PlacedStep(buf, 0, t, NUL);
    log[pos] := NUL;
  }
}
