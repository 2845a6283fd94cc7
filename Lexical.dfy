/** The character and string helpers of r_json.c: rjs_isspace,
    rjs_isstartnumber, rjs_strncmp, rjs_strcmp and rjs_add_character, plus
    the C-string view of a fixed buffer that rjs_pushstring reads.
    Input text is a string without NUL characters; reading past its end
    yields the terminator NUL. */
module Lexical {
  import opened JsonTypes

  /** rjs_isspace: space, newline, tab or carriage return. */
  predicate IsSpace(c: char)
  {
    c == ' ' || c == '\n' || c == '\t' || c == '\r'
  }

  predicate IsDigit(c: char)
  {
    '0' <= c <= '9'
  }

  /** rjs_isstartnumber: a digit or a minus sign. */
  predicate IsStartNumber(c: char)
  {
    IsDigit(c) || c == '-'
  }

  /** The character at offset k of a NUL-terminated copy of s. */
  function CChar(s: string, k: nat): char
  {
    if k < |s| then s[k] else NUL
  }

  /** rjs_strncmp compares n characters and returns 0 when they are equal. */
  method StrNCmp(a: string, b: string, n: nat) returns (r: int)
    ensures r == 0 <==> forall k :: 0 <= k < n ==> CChar(a, k) == CChar(b, k)
  {
    var i := 0;
    while i < n
      invariant 0 <= i <= n
      invariant forall k :: 0 <= k < i ==> CChar(a, k) == CChar(b, k)
    {
      if CChar(a, i) != CChar(b, i) {
        return CChar(a, i) as int - CChar(b, i) as int;
      }
      i := i + 1;
    }
    return 0;
  }

  /** s begins with the literal lit. */
  predicate StartsWith(s: string, lit: string)
  {
    |lit| <= |s| && s[..|lit|] == lit
  }

  /** Comparing |lit| characters against a literal without NUL succeeds
      exactly when the text begins with the literal: a text that ends early
      meets its terminator, which differs from every character of lit. */
  lemma StrNCmpIsStartsWith(s: string, lit: string)
    requires NUL !in s && NUL !in lit
    ensures (forall k :: 0 <= k < |lit| ==> CChar(s, k) == CChar(lit, k)) <==> StartsWith(s, lit)
  {
    if forall k :: 0 <= k < |lit| ==> CChar(s, k) == CChar(lit, k) {
      if |lit| > 0 {
        // the last character of lit is not NUL, so s is long enough
        assert CChar(s, |lit| - 1) == lit[|lit| - 1];
      }
      forall k | 0 <= k < |lit|
        ensures s[k] == lit[k]
      {
        assert CChar(s, k) == CChar(lit, k);
      }
    }
  }

  /** rjs_strcmp returns 0 exactly when the two texts are equal. */
  method StrCmp(a: string, b: string) returns (r: int)
    requires NUL !in a && NUL !in b
    ensures r == 0 <==> a == b
  {
    var i := 0;
    while CChar(a, i) == CChar(b, i)
      invariant i <= |a| && i <= |b|
      invariant a[..i] == b[..i]
      decreases |a| - i
    {
      if CChar(a, i) == NUL {
        assert a == a[..i] && b == b[..i];
        return 0;
      }
      i := i + 1;
    }
    r := CChar(a, i) as int - CChar(b, i) as int;
  }

  /** rjs_add_character: writes ch at pos while pos < RJS_MAX_STRING_SIZE-1;
      otherwise writes the terminator in the last slot and reports 0. The C
      position is unsigned, so a negative int stands for a huge position. */
  function AddCharacter(buf: seq<char>, pos: int, ch: char): (r: (seq<char>, bool))
    requires |buf| == MAX_STRING_SIZE
    ensures |r.0| == MAX_STRING_SIZE
  {
    if pos < 0 || pos >= MAX_STRING_SIZE - 1 then (buf[MAX_STRING_SIZE - 1 := NUL], false)
    else (buf[pos := ch], true)
  }

  /** rjs_add_character on the parser's fixed buffer. */
  method AddChar(buf: array<char>, pos: int, ch: char) returns (ok: bool)
    requires buf.Length == MAX_STRING_SIZE
    modifies buf
    ensures (buf[..], ok) == AddCharacter(old(buf[..]), pos, ch)
  {
    if pos < 0 || pos >= MAX_STRING_SIZE - 1 {
      buf[MAX_STRING_SIZE - 1] := NUL;
      return false;
    }
    buf[pos] := ch;
    return true;
  }

  /** The text a C string function sees in a buffer: everything before the
      first NUL (the whole buffer when it holds none). */
  function CString(buf: seq<char>): (r: string)
    ensures |r| <= |buf| && r == buf[..|r|]
    ensures NUL !in r
    ensures |r| < |buf| ==> buf[|r|] == NUL
  {
    if buf == [] || buf[0] == NUL then [] else [buf[0]] + CString(buf[1..])
  }

  /** A buffer whose first NUL is at j holds the text buf[..j]. */
  lemma CStringAt(buf: seq<char>, j: nat)
    requires j < |buf| && buf[j] == NUL && NUL !in buf[..j]
    ensures CString(buf) == buf[..j]
  {
    var r := CString(buf);
    assert forall k :: 0 <= k < |r| ==> buf[k] != NUL;
    assert forall k :: 0 <= k < j ==> buf[k] != NUL;
  }

  /** The buffer after rjs_add_character has stored cs[k] at position k for
      every k in order, as the parser does with tmp_token and tmp_value. */
  function Fill(buf: seq<char>, cs: string): (r: seq<char>)
    requires |buf| == MAX_STRING_SIZE
    ensures |r| == MAX_STRING_SIZE
  {
    if cs == [] then buf
    else AddCharacter(Fill(buf, cs[..|cs| - 1]), |cs| - 1, cs[|cs| - 1]).0
  }

  lemma {:induction false} FillShape(buf: seq<char>, cs: string)
    requires |buf| == MAX_STRING_SIZE
    ensures forall k :: 0 <= k < |cs| && k < MAX_STRING_SIZE - 1 ==> Fill(buf, cs)[k] == cs[k]
    ensures |cs| >= MAX_STRING_SIZE ==> Fill(buf, cs)[MAX_STRING_SIZE - 1] == NUL
  {
    if cs != [] {
      var init := cs[..|cs| - 1];
      FillShape(buf, init);
      forall k | 0 <= k < |cs| && k < MAX_STRING_SIZE - 1
        ensures Fill(buf, cs)[k] == cs[k]
      {
        if k < |cs| - 1 {
          assert init[k] == cs[k];
        }
      }
    }
  }

  /** Once terminated, a pending name or value holds the first
      min(n, RJS_MAX_STRING_SIZE - 1) characters read into it. */
  lemma PendingTextIsTruncatedInput(buf: seq<char>, cs: string)
    requires |buf| == MAX_STRING_SIZE && NUL !in cs
    ensures var n := if |cs| < MAX_STRING_SIZE - 1 then |cs| else MAX_STRING_SIZE - 1;
            CString(AddCharacter(Fill(buf, cs), |cs|, NUL).0) == cs[..n]
  {
    var n := if |cs| < MAX_STRING_SIZE - 1 then |cs| else MAX_STRING_SIZE - 1;
    var filled := Fill(buf, cs);
    FillShape(buf, cs);
    var done := AddCharacter(filled, |cs|, NUL).0;
    assert done[n] == NUL;
    assert done[..n] == cs[..n];
    CStringAt(done, n);
  }
}
