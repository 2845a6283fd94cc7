/** The parsing state machine of r_json.c on the value mirror of the parser:
    one rjs_parse_object_step per state, the rjs_parse_object loop,
    rjs_clean_parser and rjs_parse_string.
    The input is a C string without its terminator: reading at |s| is
    reading the NUL, which ends the loop. */
module Machine {
  import opened JsonTypes
  import opened Lexical
  import opened Numbers
  import opened Diagnostics
  import opened Arena

  const MSG_OPEN_BRACKET: string := "Expected open bracket."
  const MSG_QUOTE: string := "Expected quote."
  const MSG_COLON: string := "Expected colon."
  const MSG_VALUE: string := "Expected value: number, array, " + "object, boolean or null."
  const MSG_CONTROL: string := "Expected control character."
  const MSG_NUMBER: string := "Error while parsing number."
  const MSG_SQUARE: string := "Expected square bracket."
  const MSG_CLOSE: string := "Expected close bracket."
  const MSG_CLOSE_OR_COMMA: string := "Expected close bracket or " + "comma character."
  const MSG_OOM: string := "Out of memory."

  /** Every message the parser can leave in error_log. */
  const MESSAGES: seq<string> := [MSG_OPEN_BRACKET, MSG_QUOTE, MSG_COLON, MSG_VALUE, MSG_CONTROL,
                                  MSG_NUMBER, MSG_SQUARE, MSG_CLOSE, MSG_CLOSE_OR_COMMA, MSG_OOM]

  /** A message rjs_log writes in full. */
  predicate Message(msg: string)
  {
    |msg| <= MAX_MESSAGE && NUL !in msg
  }

  lemma {:induction false} MessagesFit()
    ensures forall m :: m in MESSAGES ==> Message(m)
  {
    ShortMessagesFit();
    LongMessagesFit();
  }

  lemma {:induction false} ShortMessagesFit()
    ensures Message(MSG_OPEN_BRACKET) && Message(MSG_QUOTE) && Message(MSG_COLON)
    ensures Message(MSG_CONTROL) && Message(MSG_NUMBER) && Message(MSG_SQUARE)
    ensures Message(MSG_CLOSE) && Message(MSG_OOM)
  {
  }

  lemma {:induction false} LongMessagesFit()
    ensures Message(MSG_VALUE) && Message(MSG_CLOSE_OR_COMMA)
  {
    assert NUL !in "Expected value: number, array, " && NUL !in "object, boolean or null.";
    assert NUL !in "Expected close bracket or " && NUL !in "comma character.";
  }

  /** rjs_log on the parser: error_log holds the message and the current
      line number; nothing else changes. */
  function Log(ps: PState, msg: string): (r: PState)
    requires WF(ps) && 0 <= ps.lineCount < LINE_LIMIT && msg in MESSAGES
    ensures WF(r) && r == ps.(errorLog := r.errorLog)
    ensures CString(r.errorLog) == ErrorText(msg, ps.lineCount)
  {
    MessagesFit();
    ps.(errorLog := Logged(ps.errorLog, msg, ps.lineCount))
  }

  /** error_log holds one of the parser's messages with the current line. */
  predicate Reported(ps: PState)
  {
    ps.lineCount >= 0 && exists m :: m in MESSAGES && CString(ps.errorLog) == ErrorText(m, ps.lineCount)
  }

  /** What a step may rely on: the loop only calls it on a character of the
      text while the object stack has a non-NULL top. */
  predicate Ready(ps: PState, s: string, i: nat)
  {
    WF(ps) && NUL !in s && i < |s| && StackTop(ps) != NULL_ID && 0 <= ps.lineCount < LINE_LIMIT
  }

  /** The termination measure for steps that do not consume a character. */
  function Rank(st: State): nat
  {
    match st
    case SearchValue => 3
    case SearchTokenString => 2
    case ReadValueNumber => 2
    case SearchEnd => 1
    case SearchOpenBracket => 1
    case _ => 0
  }

  /** The new parser, the new index and the value rjs_parse_object_step
      returns. */
  datatype StepResult = StepResult(ps: PState, index: nat, ok: bool)

  /** What every step keeps: the shape of the parser, the fields only the
      loop sets, an arena that only grows, and progress:
      a successful step that consumes nothing moves to a lower rank. A failed
      step has raised the out-of-memory flag or reported a message. */
  predicate Steps(ps: PState, s: string, i: nat, r: StepResult)
    requires WF(ps)
  {
    WF(r.ps) && i <= r.index <= |s| &&
    r.ps.state == ps.state && r.ps.lineCount == ps.lineCount && r.ps.memSize == ps.memSize &&
    r.ps.startObject == ps.startObject &&
    ps.top <= r.ps.top && (ps.oom ==> r.ps.oom) &&
    |ps.heap.objects| <= |r.ps.heap.objects| &&
    (r.ok ==> r.ps.errorLog == ps.errorLog) &&
    (!r.ok ==> r.ps.oom || Reported(r.ps)) &&
    (r.ok && r.index == i ==> Rank(r.ps.nextState) < Rank(ps.state))
  }

  /** RJS_SEARCH_OPEN_BRACKET: skips blanks; `{` is consumed and a name is
      expected next; anything else is an error. */
  function OpenBracket(ps: PState, s: string, i: nat): (r: StepResult)
    requires Ready(ps, s, i) && ps.state == SearchOpenBracket
    ensures Steps(ps, s, i, r)
    ensures r.ok <==> IsSpace(s[i]) || s[i] == '{'
    ensures r.ok ==> r.index == i + 1 && r.ps == ps.(nextState := r.ps.nextState)
    ensures s[i] == '{' ==> r.ps.nextState == SearchTokenString
    ensures !r.ok ==> r.index == i && r.ps == Log(ps, MSG_OPEN_BRACKET)
  {
    var c := s[i];
    if IsSpace(c) then StepResult(ps, i + 1, true)
    else if c == '{' then StepResult(ps.(nextState := SearchTokenString), i + 1, true)
    else StepResult(Log(ps, MSG_OPEN_BRACKET), i, false)
  }

  /** RJS_SEARCH_TOKEN_STRING: skips blanks; `"` starts a name (the name
      position is reset and the value position set to -1); `}` is left for
      SEARCH_END, which closes an empty object or one with a trailing comma;
      anything else is an error. */
  function TokenString(ps: PState, s: string, i: nat): (r: StepResult)
    requires Ready(ps, s, i) && ps.state == SearchTokenString
    ensures Steps(ps, s, i, r)
    ensures r.ok <==> IsSpace(s[i]) || s[i] == '"' || s[i] == '}'
    ensures s[i] == '"' ==>
      r.index == i + 1 && r.ps == ps.(nextState := ReadValueString, tokenPos := 0, valuePos := -1)
    ensures s[i] == '}' ==> r.index == i && r.ps == ps.(nextState := SearchEnd)
    ensures !r.ok ==> r.index == i && r.ps == Log(ps, MSG_QUOTE)
  {
    var c := s[i];
    if IsSpace(c) then StepResult(ps, i + 1, true)
    else if c == '"' then StepResult(ps.(nextState := ReadValueString, tokenPos := 0, valuePos := -1), i + 1, true)
    else if c == '}' then StepResult(ps.(nextState := SearchEnd), i, true)
    else StepResult(Log(ps, MSG_QUOTE), i, false)
  }

  /** RJS_SEARCH_COLON: skips blanks; `:` is consumed and a value is
      expected next; anything else is an error. */
  function Colon(ps: PState, s: string, i: nat): (r: StepResult)
    requires Ready(ps, s, i) && ps.state == SearchColon
    ensures Steps(ps, s, i, r)
    ensures r.ok <==> IsSpace(s[i]) || s[i] == ':'
    ensures r.ok ==> r.index == i + 1 && r.ps == ps.(nextState := r.ps.nextState)
    ensures s[i] == ':' ==> r.ps.nextState == SearchValue
    ensures !r.ok ==> r.index == i && r.ps == Log(ps, MSG_COLON)
  {
    var c := s[i];
    if IsSpace(c) then StepResult(ps, i + 1, true)
    else if c == ':' then StepResult(ps.(nextState := SearchValue), i + 1, true)
    else StepResult(Log(ps, MSG_COLON), i, false)
  }

  /** A failed rjs_obj_pushkey_* call in a step raises the out-of-memory
      flag. */
  function Flagged(ps: PState, ok: bool): (r: PState)
  {
    if ok then ps else ps.(oom := true)
  }

  /** rjs_create_obj followed, for `[`, by marking the new object as an
      array (skipped when the object could not be created). */
  function NewChild(ps: PState, isArray: bool): (r: (PState, int))
    requires WF(ps)
    ensures WF(r.0) && Touched(ps, r.0) && -1 <= r.1 < |r.0.heap.objects|
    ensures r.1 == NULL_ID <==> ps.top + OBJECT_SIZE > ps.memSize
    ensures r.1 == NULL_ID ==> r.0 == ps.(oom := true)
    ensures r.1 != NULL_ID ==>
      r.1 == |ps.heap.objects| && |r.0.heap.objects| == r.1 + 1 && r.0.oom == ps.oom &&
      r.0.heap.objects[r.1].isArray == isArray && r.0.heap.lists[r.1] == []
    ensures GraphInv(ps.heap) ==> GraphInv(r.0.heap)
    ensures CNames(ps.heap) ==> CNames(r.0.heap)
  {
    var (ps1, child) := CreateObj(ps);
    if child == NULL_ID then (ps1, child)
    else
      assert GraphInv(ps.heap) ==> GraphInv(ps1.heap) by {
        if GraphInv(ps.heap) {
          NewObjectKeepsGraph(ps.heap);
        }
      }
      if !isArray then (ps1, child)
      else
        assert GraphInv(ps1.heap) ==> GraphInv(SetArray(ps1, child).heap) by {
          if GraphInv(ps1.heap) {
            SetArrayKeepsGraph(ps1, child);
          }
        }
        (SetArray(ps1, child), child)
  }

  /** The new child, NULL included, pushed on the object stack. */
  function PushChild(ps: PState, isArray: bool): (r: (PState, int))
    requires WF(ps)
    ensures WF(r.0) && -1 <= r.1 < |r.0.heap.objects|
    ensures r.0 == ps.(top := r.0.top, oom := r.0.oom, heap := r.0.heap, stack := r.0.stack, stackTop := r.0.stackTop)
    ensures ps.top <= r.0.top && (ps.oom ==> r.0.oom) && |ps.heap.objects| <= |r.0.heap.objects|
    ensures r.1 == NULL_ID <==> ps.top + OBJECT_SIZE > ps.memSize
    ensures r.1 == NULL_ID ==> r.0.oom && r.0.heap == ps.heap
    ensures r.1 != NULL_ID ==>
      r.1 == |ps.heap.objects| && |r.0.heap.objects| == r.1 + 1 && r.0.oom == ps.oom &&
      r.0.heap.objects[r.1].isArray == isArray && r.0.heap.lists[r.1] == []
    ensures |Live(ps)| < OBJECT_STACK_SIZE ==> Live(r.0) == Live(ps) + [r.1]
    ensures |Live(ps)| == OBJECT_STACK_SIZE ==> Live(r.0) == Live(ps)
    ensures GraphInv(ps.heap) ==> GraphInv(r.0.heap)
    ensures CNames(ps.heap) ==> CNames(r.0.heap)
  {
    var (ps1, child) := NewChild(ps, isArray);
    (StackPush(ps1, child).0, child)
  }

  /** `{` or `[` in value position: a new object (marked as an array for
      `[`) is created and pushed, whatever the outcome of either, and a key
      holding it is added to the enclosing object. `[` is consumed and a
      value is expected next; `{` is left for SEARCH_OPEN_BRACKET. */
  function OpenValue(ps: PState, s: string, i: nat, isArray: bool): (r: StepResult)
    requires Ready(ps, s, i) && ps.state == SearchValue
    ensures Steps(ps, s, i, r)
    ensures GraphInv(ps.heap) ==> GraphInv(r.ps.heap)
    ensures CNames(ps.heap) ==> CNames(r.ps.heap)
    ensures r.ps.nextState == (if isArray then SearchValue else SearchOpenBracket)
    ensures r.index == if isArray then i + 1 else i
  {
    var top := StackTop(ps);
    var (ps1, child) := PushChild(ps, isArray);
    var (ps2, ok) := PushKeyObj(ps1, top, CString(ps1.tmpToken), child);
    StepResult(Flagged(ps2, ok).(nextState := if isArray then SearchValue else SearchOpenBracket),
               if isArray then i + 1 else i, ok)
  }

  /** Opening a child fails exactly when the arena cannot hold both the
      object and its key, and then raises the flag. This relies on
      KEY_SIZE >= OBJECT_SIZE: when the object does not fit, neither does the
      key, so a failed child is never linked as a NULL object value. */
  lemma {:induction false} OpenValueNeedsRoom(ps: PState, s: string, i: nat, isArray: bool)
    requires Ready(ps, s, i) && ps.state == SearchValue
    ensures var r := OpenValue(ps, s, i, isArray);
      (r.ok <==> ps.top + OBJECT_SIZE + KEY_SIZE <= ps.memSize) && (!r.ok ==> r.ps.oom)
  {
  }

  /** With room for both, `{` or `[` in value position creates the child
      (an array for `[`), makes it the top of the stack unless the stack is
      full, and appends a key holding it to the enclosing object; for `{`
      this happens before the brace is consumed. */
  lemma {:induction false} OpenValueAddsChild(ps: PState, s: string, i: nat, isArray: bool)
    requires Ready(ps, s, i) && ps.state == SearchValue && ps.top + OBJECT_SIZE + KEY_SIZE <= ps.memSize
    ensures var r := OpenValue(ps, s, i, isArray);
      var child := |ps.heap.objects|;
      var top := StackTop(ps);
      r.ok && |r.ps.heap.objects| == child + 1 && r.ps.heap.objects[child].isArray == isArray &&
      |r.ps.heap.keys| == |ps.heap.keys| + 1 && r.ps.heap.keys[|ps.heap.keys|].value == Obj(child) &&
      r.ps.heap.lists[top] == ps.heap.lists[top] + [|ps.heap.keys|] &&
      (|Live(ps)| < OBJECT_STACK_SIZE ==> Live(r.ps) == Live(ps) + [child])
  {
    var top := StackTop(ps);
    var (ps1, child) := PushChild(ps, isArray);
    var (ps2, ok) := PushKeyObj(ps1, top, CString(ps1.tmpToken), child);
    assert ps2.heap.objects[child] == ps1.heap.objects[child];
  }

  /** `t`, `f` or `n` in value position: when the text continues with the
      literal, a boolean or null key is added; in every case the cursor
      skips the literal's length (stopping at the end of the text) and the
      end of a value is expected next. */
  function Literal(ps: PState, s: string, i: nat, lit: string, value: Value): (r: StepResult)
    requires Ready(ps, s, i) && ps.state == SearchValue && |lit| > 0 && (value.Bool? || value.Null?)
    ensures Steps(ps, s, i, r)
    ensures GraphInv(ps.heap) ==> GraphInv(r.ps.heap)
    ensures CNames(ps.heap) ==> CNames(r.ps.heap)
  {
    var top := StackTop(ps);
    var skip := if i + |lit| <= |s| then i + |lit| else |s|;
    if StartsWith(s[i..], lit) then
      var (ps1, ok) := if value.Bool? then PushKeyBool(ps, top, CString(ps.tmpToken), value.b)
                       else PushKeyNull(ps, top, CString(ps.tmpToken));
      StepResult(Flagged(ps1, ok).(nextState := SearchEnd), skip, ok)
    else StepResult(ps.(nextState := SearchEnd), skip, true)
  }

  /** A literal moves the cursor past its length, stopping at the end of
      the text, and expects the end of a value next; text that does not
      spell it changes nothing else, and text that does adds its key to the
      open object when the arena has room. */
  lemma {:induction false} LiteralAddsKey(ps: PState, s: string, i: nat, lit: string, value: Value)
    requires Ready(ps, s, i) && ps.state == SearchValue && |lit| > 0 && (value.Bool? || value.Null?)
    ensures var r := Literal(ps, s, i, lit, value);
      r.index == (if i + |lit| <= |s| then i + |lit| else |s|) &&
      r.ps.nextState == SearchEnd &&
      (!StartsWith(s[i..], lit) ==> r.ok && r.ps == ps.(nextState := SearchEnd)) &&
      (StartsWith(s[i..], lit) ==>
        (r.ok <==> ps.top + KEY_SIZE <= ps.memSize) &&
        (r.ok ==> |r.ps.heap.keys| == |ps.heap.keys| + 1 && r.ps.heap.keys[|ps.heap.keys|].value == value &&
                  r.ps.heap.lists == ps.heap.lists[StackTop(ps) := ps.heap.lists[StackTop(ps)] + [|ps.heap.keys|]]))
  {
  }

  /** RJS_SEARCH_VALUE: skips blanks; `"` starts a string value (value
      position 0, name position -1); a digit or `-` starts a number, left
      for READ_VALUE_NUMBER; `{` and `[` open a child; `t`, `f`, `n` try
      the literals; `}` and `]` are "no value" and are left for SEARCH_END;
      anything else is an error. */
  function SearchValueStep(ps: PState, s: string, i: nat): (r: StepResult)
    requires Ready(ps, s, i) && ps.state == SearchValue
    ensures Steps(ps, s, i, r)
    ensures GraphInv(ps.heap) ==> GraphInv(r.ps.heap)
    ensures CNames(ps.heap) ==> CNames(r.ps.heap)
  {
    var c := s[i];
    if IsSpace(c) then StepResult(ps, i + 1, true)
    else if c == '"' then StepResult(ps.(nextState := ReadValueString, valuePos := 0, tokenPos := -1), i + 1, true)
    else if IsStartNumber(c) then StepResult(ps.(nextState := ReadValueNumber, valuePos := 0), i, true)
    else if c == '{' then OpenValue(ps, s, i, false)
    else if c == '[' then OpenValue(ps, s, i, true)
    else if c == 't' then Literal(ps, s, i, "true", Bool(true))
    else if c == 'f' then Literal(ps, s, i, "false", Bool(false))
    else if c == 'n' then Literal(ps, s, i, "null", Null)
    else if c == ']' || c == '}' then StepResult(ps.(nextState := SearchEnd), i, true)
    else StepResult(Log(ps, MSG_VALUE), i, false)
  }

  /** In SEARCH_VALUE a blank is consumed; `"` is consumed and starts a
      string value; a number is left for READ_VALUE_NUMBER; a closer is
      left for SEARCH_END; none of these touch the arena or fail. */
  lemma {:induction false} SearchValueMoves(ps: PState, s: string, i: nat)
    requires Ready(ps, s, i) && ps.state == SearchValue
    ensures var r := SearchValueStep(ps, s, i);
      (IsSpace(s[i]) ==> r == StepResult(ps, i + 1, true)) &&
      (s[i] == '"' ==> r == StepResult(ps.(nextState := ReadValueString, valuePos := 0, tokenPos := -1), i + 1, true)) &&
      (IsStartNumber(s[i]) ==> r == StepResult(ps.(nextState := ReadValueNumber, valuePos := 0), i, true)) &&
      (s[i] == '}' || s[i] == ']' ==> r == StepResult(ps.(nextState := SearchEnd), i, true))
  {
  }

  /** In SEARCH_VALUE a character that cannot start a value fails the
      step with "Expected value: ...". */
  lemma {:induction false} SearchValueRejects(ps: PState, s: string, i: nat)
    requires Ready(ps, s, i) && ps.state == SearchValue
    requires !(IsSpace(s[i]) || IsStartNumber(s[i]) || s[i] in "\"{[tfn]}")
    ensures SearchValueStep(ps, s, i) == StepResult(Log(ps, MSG_VALUE), i, false)
  {
  }

  /** In SEARCH_VALUE every other failure is an out-of-memory failure. */
  lemma {:induction false} SearchValueFailsOnlyOn(ps: PState, s: string, i: nat)
    requires Ready(ps, s, i) && ps.state == SearchValue
    requires IsSpace(s[i]) || IsStartNumber(s[i]) || s[i] in "\"{[tfn]}"
    ensures var r := SearchValueStep(ps, s, i);
      !r.ok ==> r.ps.oom
  {
  }

  /** A character of a string goes to the pending name while the value
      position is -1, otherwise to the pending value; the position used
      advances either way. */
  function AddPending(ps: PState, c: char): (r: PState)
    requires WF(ps)
    ensures WF(r) && r.heap == ps.heap && r.errorLog == ps.errorLog
  {
    if ps.valuePos == -1 then
      ps.(tmpToken := AddCharacter(ps.tmpToken, ps.tokenPos, c).0, tokenPos := ps.tokenPos + 1)
    else
      ps.(tmpValue := AddCharacter(ps.tmpValue, ps.valuePos, c).0, valuePos := ps.valuePos + 1)
  }

  /** RJS_READ_VALUE_STRING: `"` terminates the pending text; a name then
      waits for its colon, a value becomes a string key. `\` starts an
      escape; any other character is stored. Every character is
      consumed. */
  function ReadString(ps: PState, s: string, i: nat): (r: StepResult)
    requires Ready(ps, s, i) && ps.state == ReadValueString
    ensures Steps(ps, s, i, r)
    ensures GraphInv(ps.heap) ==> GraphInv(r.ps.heap)
    ensures CNames(ps.heap) ==> CNames(r.ps.heap)
    ensures r.index == i + 1
    ensures r.ok <==> s[i] != '"' || ps.valuePos == -1 || ps.top + KEY_SIZE <= ps.memSize
    ensures s[i] == '"' && ps.valuePos == -1 ==> r.ps == AddPending(ps, NUL).(nextState := SearchColon)
    ensures s[i] == '"' && ps.valuePos != -1 && r.ok ==>
      |r.ps.heap.keys| == |ps.heap.keys| + 1 &&
      var text := CString(AddCharacter(ps.tmpValue, ps.valuePos, NUL).0);
      var key := r.ps.heap.keys[|ps.heap.keys|];
      r.ps.nextState == SearchEnd && key.value.Str? && (key.value.str.Some? ==> key.value.str == Some(text)) &&
      r.ps.heap.lists == ps.heap.lists[StackTop(ps) := ps.heap.lists[StackTop(ps)] + [|ps.heap.keys|]]
    ensures s[i] == '\\' ==> r.ps == ps.(nextState := ReadValueStringControl)
    ensures s[i] != '"' && s[i] != '\\' ==> r.ps == AddPending(ps, s[i])
  {
    var c := s[i];
    if c == '"' then
      if ps.valuePos == -1 then StepResult(AddPending(ps, NUL).(nextState := SearchColon), i + 1, true)
      else
        var ps1 := AddPending(ps, NUL).(nextState := SearchEnd);
        var (ps2, ok) := PushKeyString(ps1, StackTop(ps), CString(ps1.tmpToken), CString(ps1.tmpValue));
        StepResult(Flagged(ps2, ok), i + 1, ok)
    else if c == '\\' then StepResult(ps.(nextState := ReadValueStringControl), i + 1, true)
    else StepResult(AddPending(ps, c), i + 1, true)
  }

  /** The character an escape letter stands for, NUL for a letter with no
      escape (`u` among them). */
  function Escape(c: char): (r: char)
    ensures r != NUL <==> c in "\"\\/bfnrt"
  {
    if c == '"' then '"'
    else if c == '\\' then '\\'
    else if c == '/' then '/'
    else if c == 'b' then 8 as char
    else if c == 'f' then 12 as char
    else if c == 'n' then '\n'
    else if c == 'r' then '\r'
    else if c == 't' then '\t'
    else NUL
  }

  /** RJS_READ_VALUE_STRING_CONTROL: a known escape letter stores the
      character it stands for and returns to the string; anything else is
      an error. */
  function Control(ps: PState, s: string, i: nat): (r: StepResult)
    requires Ready(ps, s, i) && ps.state == ReadValueStringControl
    ensures Steps(ps, s, i, r)
    ensures r.ok <==> s[i] in "\"\\/bfnrt"
    ensures r.ok ==> r.index == i + 1 && r.ps == AddPending(ps, Escape(s[i])).(nextState := ReadValueString)
    ensures !r.ok ==> r.index == i && r.ps == Log(ps, MSG_CONTROL)
  {
    var ctl := Escape(s[i]);
    if ctl == NUL then StepResult(Log(ps, MSG_CONTROL), i, false)
    else StepResult(AddPending(ps, ctl).(nextState := ReadValueString), i + 1, true)
  }

  /** The end of a number: the pending text is terminated, the end of a
      value is expected next, and a number key is added when rjs_strtod
      accepts the text; the terminating character is left for SEARCH_END. */
  function EndNumber(ps: PState, s: string, i: nat): (r: StepResult)
    requires Ready(ps, s, i) && ps.state == ReadValueNumber
    ensures Steps(ps, s, i, r)
    ensures GraphInv(ps.heap) ==> GraphInv(r.ps.heap)
    ensures CNames(ps.heap) ==> CNames(r.ps.heap)
  {
    var ps1 := ps.(tmpValue := AddCharacter(ps.tmpValue, ps.valuePos, NUL).0, valuePos := ps.valuePos + 1,
                   nextState := SearchEnd);
    var (ps2, ok) := PushKeyNumber(ps1, StackTop(ps), CString(ps1.tmpToken), CString(ps1.tmpValue));
    if ok then StepResult(ps2, i, true) else StepResult(Log(ps2, MSG_NUMBER), i, false)
  }

  /** The end of a number adds a number key with the value rjs_strtod reads
      from the pending text, when the arena has room and the text is a
      number; otherwise it reports "Error while parsing number.". */
  lemma {:induction false} EndNumberAddsKey(ps: PState, s: string, i: nat)
    requires Ready(ps, s, i) && ps.state == ReadValueNumber
    ensures var r := EndNumber(ps, s, i);
      var text := CString(AddCharacter(ps.tmpValue, ps.valuePos, NUL).0);
      r.index == i && (r.ok <==> ps.top + KEY_SIZE <= ps.memSize && StrToDSpec(text).Some?) &&
      (r.ok ==> r.ps.nextState == SearchEnd && |r.ps.heap.keys| == |ps.heap.keys| + 1 &&
                r.ps.heap.keys[|ps.heap.keys|].value == Number(StrToDSpec(text).value)) &&
      (!r.ok ==> CString(r.ps.errorLog) == ErrorText(MSG_NUMBER, ps.lineCount))
  {
  }

  /** RJS_READ_VALUE_NUMBER: a blank, `,`, `}` or `]` ends the number;
      other characters are stored and consumed. */
  function ReadNumber(ps: PState, s: string, i: nat): (r: StepResult)
    requires Ready(ps, s, i) && ps.state == ReadValueNumber
    ensures Steps(ps, s, i, r)
    ensures GraphInv(ps.heap) ==> GraphInv(r.ps.heap)
    ensures CNames(ps.heap) ==> CNames(r.ps.heap)
    ensures IsSpace(s[i]) || s[i] in ",}]" ==> r == EndNumber(ps, s, i)
    ensures !(IsSpace(s[i]) || s[i] in ",}]") ==>
      r.ok && r.index == i + 1 && r.ps == ps.(tmpValue := AddCharacter(ps.tmpValue, ps.valuePos, s[i]).0,
                                              valuePos := ps.valuePos + 1)
  {
    var c := s[i];
    if IsSpace(c) || c == ',' || c == '}' || c == ']' then EndNumber(ps, s, i)
    else
      StepResult(ps.(tmpValue := AddCharacter(ps.tmpValue, ps.valuePos, c).0, valuePos := ps.valuePos + 1), i + 1, true)
  }

  /** RJS_SEARCH_END: skips blanks; `,` expects the next name, or the next
      value inside an array; `}` closes an object and `]` an array, popping
      it; a closer of the wrong kind or any other character is an error. */
  function SearchEndStep(ps: PState, s: string, i: nat): (r: StepResult)
    requires Ready(ps, s, i) && ps.state == SearchEnd
    ensures Steps(ps, s, i, r)
    ensures var isArray := ps.heap.objects[StackTop(ps)].isArray;
      (r.ok <==> IsSpace(s[i]) || s[i] == ',' || (s[i] == '}' && !isArray) || (s[i] == ']' && isArray)) &&
      (r.ok ==> r.index == i + 1) &&
      (s[i] == ',' ==> r.ps == ps.(nextState := if isArray then SearchValue else SearchTokenString)) &&
      (r.ok && (s[i] == '}' || s[i] == ']') ==> r.ps == StackPop(ps).0 && Live(r.ps) == Live(ps)[..|Live(ps)| - 1])
    ensures !r.ok ==> (r.index == i &&
      r.ps == Log(ps, if s[i] == '}' then MSG_SQUARE else if s[i] == ']' then MSG_CLOSE else MSG_CLOSE_OR_COMMA))
  {
    var c := s[i];
    var isArray := ps.heap.objects[StackTop(ps)].isArray;
    if IsSpace(c) then StepResult(ps, i + 1, true)
    else if c == ',' then StepResult(ps.(nextState := if isArray then SearchValue else SearchTokenString), i + 1, true)
    else if c == '}' then
      if isArray then StepResult(Log(ps, MSG_SQUARE), i, false) else StepResult(StackPop(ps).0, i + 1, true)
    else if c == ']' then
      if !isArray then StepResult(Log(ps, MSG_CLOSE), i, false) else StepResult(StackPop(ps).0, i + 1, true)
    else StepResult(Log(ps, MSG_CLOSE_OR_COMMA), i, false)
  }

  /** rjs_parse_object_step: the step of the current state. */
  function Step(ps: PState, s: string, i: nat): (r: StepResult)
    requires Ready(ps, s, i)
    ensures Steps(ps, s, i, r)
  {
    match ps.state
    case SearchOpenBracket => OpenBracket(ps, s, i)
    case SearchTokenString => TokenString(ps, s, i)
    case SearchColon => Colon(ps, s, i)
    case SearchValue => SearchValueStep(ps, s, i)
    case ReadValueString => ReadString(ps, s, i)
    case ReadValueStringControl => Control(ps, s, i)
    case ReadValueNumber => ReadNumber(ps, s, i)
    case SearchEnd => SearchEndStep(ps, s, i)
  }

  // ---------------------------------------------------------------- loop

  /** The number of newlines in s from position `from` on. */
  function Newlines(s: string, from: nat): (n: nat)
    ensures n <= |s| - from || from > |s|
    decreases |s| - from
  {
    if from >= |s| then 0 else (if s[from] == '\n' then 1 else 0) + Newlines(s, from + 1)
  }

  lemma {:induction false} NewlinesMonotone(s: string, a: nat, b: nat)
    requires a <= b
    ensures Newlines(s, b) <= Newlines(s, a)
    decreases b - a
  {
    if a < b {
      NewlinesMonotone(s, a + 1, b);
    }
  }

  /** The outcome of rjs_parse_object: the final parser, the final index and
      the value returned. */
  datatype Outcome = Outcome(ps: PState, index: nat, ok: bool)

  /** What the loop may rely on at its head: state equals next_state, the
      previous break pb lies at or before the cursor, and the line count
      stays below a million whatever newlines follow pb. */
  predicate Looping(ps: PState, s: string, i: nat, pb: nat)
  {
    WF(ps) && NUL !in s && i <= |s| && pb <= i && ps.state == ps.nextState &&
    0 <= ps.lineCount && ps.lineCount + Newlines(s, pb + 1) < LINE_LIMIT
  }

  /** One turn of the loop body: the step; the end of the parse when it
      failed or raised the flag (then with "Out of memory."); otherwise
      state takes next_state, and a newline under the cursor that is not
      the previous break adds a line and becomes the previous break. The
      result is the outcome, to be continued when ok, and the new previous
      break. */
  function Turn(ps: PState, s: string, i: nat, pb: nat): (t: (Outcome, nat))
    requires Looping(ps, s, i, pb) && i < |s| && StackTop(ps) != NULL_ID
  {
    Settle(ps, s, i, pb, Step(ps, s, i))
  }

  /** The turn around the step result st. */
  function Settle(ps: PState, s: string, i: nat, pb: nat, st: StepResult): (t: (Outcome, nat))
    requires Looping(ps, s, i, pb) && i < |s| && StackTop(ps) != NULL_ID && Steps(ps, s, i, st)
    ensures var (o, pb') := t;
      o.ps.memSize == ps.memSize && o.ps.startObject == ps.startObject && ps.top <= o.ps.top &&
      o.ps.heap == st.ps.heap && i <= o.index <= |s| && WF(o.ps)
    ensures var (o, pb') := t;
      o.ok ==> Looping(o.ps, s, o.index, pb') && !o.ps.oom && o.ps.errorLog == ps.errorLog &&
               (i < o.index || Rank(o.ps.state) < Rank(ps.state)) &&
               ps.lineCount <= o.ps.lineCount &&
               o.ps.lineCount + Newlines(s, pb' + 1) <= ps.lineCount + Newlines(s, pb + 1)
    ensures var (o, pb') := t;
      !o.ok ==> o.ps.lineCount == ps.lineCount && Reported(o.ps) &&
                (o.ps.oom ==> CString(o.ps.errorLog) == ErrorText(MSG_OOM, o.ps.lineCount))
  {
    if !st.ok || st.ps.oom then (Halt(st), pb) else Proceed(ps, s, i, pb, st)
  }

  /** The end of the parse after a failed step, or after a step that raised
      the flag, which then reports "Out of memory.". */
  function Halt(st: StepResult): (o: Outcome)
    requires WF(st.ps) && 0 <= st.ps.lineCount < LINE_LIMIT && (!st.ok || st.ps.oom)
    requires !st.ok ==> st.ps.oom || Reported(st.ps)
    ensures !o.ok && o.index == st.index && o.ps == st.ps.(errorLog := o.ps.errorLog)
    ensures WF(o.ps) && Reported(o.ps)
    ensures o.ps.oom ==> CString(o.ps.errorLog) == ErrorText(MSG_OOM, o.ps.lineCount)
  {
    if st.ps.oom then
      assert MESSAGES[9] == MSG_OOM;
      Outcome(Log(st.ps, MSG_OOM), st.index, false)
    else Outcome(st.ps, st.index, false)
  }

  /** The rest of a turn after a successful step: state takes next_state
      and a newline under the cursor that is not the previous break counts
      a line. */
  function Proceed(ps: PState, s: string, i: nat, pb: nat, st: StepResult): (t: (Outcome, nat))
    requires Looping(ps, s, i, pb) && i < |s| && StackTop(ps) != NULL_ID
    requires Steps(ps, s, i, st) && st.ok && !st.ps.oom
    ensures var (o, pb') := t;
      o.ok && o.index == st.index && o.ps.heap == st.ps.heap && WF(o.ps) &&
      o.ps.memSize == ps.memSize && o.ps.startObject == ps.startObject && ps.top <= o.ps.top &&
      Looping(o.ps, s, o.index, pb') && !o.ps.oom && o.ps.errorLog == ps.errorLog &&
      (i < o.index || Rank(o.ps.state) < Rank(ps.state)) &&
      ps.lineCount <= o.ps.lineCount &&
      o.ps.lineCount + Newlines(s, pb' + 1) <= ps.lineCount + Newlines(s, pb + 1)
  {
    var next := st.ps.(state := st.ps.nextState);
    var j := st.index;
    if j < |s| && s[j] == '\n' && pb != j then
      NewlinesMonotone(s, pb + 1, j);
      (Outcome(next.(lineCount := next.lineCount + 1), j, true), j)
    else (Outcome(next, j, true), pb)
  }

  /** What the loop guarantees from index i with previous break pb: the
      shape of the parser and the fields it does not touch are kept, the
      line count only grows, by at most the newlines after pb; success
      means the object stack has no top and error_log is untouched;
      failure leaves a message, "Out of memory." when the flag went up. */
  predicate Finished(ps: PState, s: string, i: nat, pb: nat, r: Outcome)
  {
    WF(r.ps) && i <= r.index <= |s| &&
    r.ps.memSize == ps.memSize && r.ps.startObject == ps.startObject && ps.top <= r.ps.top &&
    ps.lineCount <= r.ps.lineCount <= ps.lineCount + Newlines(s, pb + 1) &&
    (r.ok ==> StackTop(r.ps) == NULL_ID && r.ps.errorLog == ps.errorLog) &&
    (!r.ok ==> Reported(r.ps)) &&
    (r.ps.oom && !ps.oom ==> !r.ok && CString(r.ps.errorLog) == ErrorText(MSG_OOM, r.ps.lineCount))
  }

  /** rjs_parse_object from index i with previous_break pb: turns of the
      loop until the end of the text or until the object stack has no top.
      Stopping with objects still open is an error. */
  function Run(ps: PState, s: string, i: nat, pb: nat): (r: Outcome)
    requires Looping(ps, s, i, pb)
    ensures Finished(ps, s, i, pb, r)
    decreases |s| - i, Rank(ps.state), 1
  {
    if i == |s| || StackTop(ps) == NULL_ID then
      if StackTop(ps) != NULL_ID then Outcome(Log(ps, MSG_CLOSE_OR_COMMA), i, false)
      else Outcome(ps, i, true)
    else Advance(ps, s, i, pb)
  }

  /** The body of the loop at index i: one turn, and the rest of the loop
      when the turn succeeded. */
  function Advance(ps: PState, s: string, i: nat, pb: nat): (r: Outcome)
    requires Looping(ps, s, i, pb) && i < |s| && StackTop(ps) != NULL_ID
    ensures Finished(ps, s, i, pb, r)
    decreases |s| - i, Rank(ps.state), 0
  {
    var (o, pb') := Turn(ps, s, i, pb);
    if !o.ok then o else Run(o.ps, s, o.index, pb')
  }

  /** A step keeps the object graph. */
  lemma {:induction false} StepKeepsGraph(ps: PState, s: string, i: nat)
    requires Ready(ps, s, i) && GraphInv(ps.heap)
    ensures GraphInv(Step(ps, s, i).ps.heap)
  {
  }

  /** The loop keeps the object graph. */
  lemma {:induction false} RunKeepsGraph(ps: PState, s: string, i: nat, pb: nat)
    requires Looping(ps, s, i, pb) && GraphInv(ps.heap)
    ensures GraphInv(Run(ps, s, i, pb).ps.heap)
    decreases |s| - i, Rank(ps.state)
  {
    if i < |s| && StackTop(ps) != NULL_ID {
      StepKeepsGraph(ps, s, i);
      var (o, pb') := Turn(ps, s, i, pb);
      if o.ok {
        RunKeepsGraph(o.ps, s, o.index, pb');
      }
    }
  }

  /** A step stores only names taken from the pending token, so every
      stored name stays a C string. */
  lemma {:induction false} StepKeepsNames(ps: PState, s: string, i: nat)
    requires Ready(ps, s, i) && CNames(ps.heap)
    ensures CNames(Step(ps, s, i).ps.heap)
  {
  }

  /** The loop keeps every stored name a C string. */
  lemma {:induction false} RunKeepsNames(ps: PState, s: string, i: nat, pb: nat)
    requires Looping(ps, s, i, pb) && CNames(ps.heap)
    ensures CNames(Run(ps, s, i, pb).ps.heap)
    decreases |s| - i, Rank(ps.state)
  {
    if i < |s| && StackTop(ps) != NULL_ID {
      StepKeepsNames(ps, s, i);
      var (o, pb') := Turn(ps, s, i, pb);
      if o.ok {
        RunKeepsNames(o.ps, s, o.index, pb');
      }
    }
  }

  // ------------------------------------------------------------ entry

  /** rjs_clean_parser: the arena is emptied (top back to 0, so nothing
      from an earlier parse survives), there is no main object, the flag is
      down, both positions are 0, the stack is empty and the line is 1.
      The buffers, error_log, the state fields and the arena size stay. */
  function Clean(ps: PState): (r: PState)
    requires WF(ps)
    ensures WF(r) && GraphInv(r.heap) && r.heap.objects == [] && Live(r) == []
    ensures r == ps.(top := 0, startObject := NULL_ID, oom := false, tokenPos := 0, valuePos := 0,
                     stackTop := -1, lineCount := 1, heap := r.heap)
  {
    ps.(top := 0, startObject := NULL_ID, oom := false, tokenPos := 0, valuePos := 0,
        stackTop := -1, lineCount := 1, heap := Heap([], [], []))
  }

  /** The parser rjs_parse_string hands to the loop: cleaned, the root
      object created (NULL when it does not fit) and pushed, both state
      fields at SEARCH_OPEN_BRACKET. */
  function Started(ps: PState): (r: PState)
    requires WF(ps)
    ensures WF(r) && r.state == SearchOpenBracket && r.nextState == SearchOpenBracket && r.lineCount == 1
  {
    var c := Clean(ps);
    var (ps1, root) := CreateObj(c);
    var (ps2, _) := StackPush(ps1.(startObject := root), root);
    ps2.(state := SearchOpenBracket, nextState := SearchOpenBracket)
  }

  /** After the start the arena holds the root alone, which is the main
      object and the only entry of the stack, and the flag is down; or,
      when the arena is too small, no object at all, a NULL main object on
      the stack and the flag up. */
  lemma {:induction false} StartedShape(ps: PState)
    requires WF(ps)
    ensures var r := Started(ps);
      GraphInv(r.heap) && r.memSize == ps.memSize && r.errorLog == ps.errorLog && r.top <= ps.memSize &&
      StackTop(r) == r.startObject && (r.oom <==> ps.memSize < OBJECT_SIZE)
    ensures var r := Started(ps);
      ps.memSize < OBJECT_SIZE ==> r.startObject == NULL_ID && Live(r) == [NULL_ID] && r.heap.objects == []
    ensures var r := Started(ps);
      OBJECT_SIZE <= ps.memSize ==>
        r.startObject == 0 && Live(r) == [0] && r.heap.objects == [ObjectNode(NULL_ID, NULL_ID, false)] &&
        r.heap.lists == [[]] && r.top == OBJECT_SIZE
  {
    NewObjectKeepsGraph(Clean(ps).heap);
  }

  /** rjs_parse_string: clean, create and push the root, run the loop from
      index 0. */
  function ParseString(ps: PState, s: string): (r: Outcome)
    requires WF(ps) && NUL !in s && 1 + Newlines(s, 1) < LINE_LIMIT
    ensures WF(r.ps)
  {
    Run(Started(ps), s, 0, 0)
  }

  /** rjs_parse_string reports success only with every object closed (text
      after the root's closing brace is never read) and leaves error_log
      alone then; a failure leaves one of the messages with its line, "Out
      of memory." whenever the flag went up. When the arena cannot hold the
      root object, NULL is pushed, the loop never runs and the parse
      succeeds with no main object. The line count never passes one plus
      the newlines after index 0. */
  lemma {:induction false} ParseOutcome(ps: PState, s: string)
    requires WF(ps) && NUL !in s && 1 + Newlines(s, 1) < LINE_LIMIT
    ensures var r := ParseString(ps, s);
      r.ps.memSize == ps.memSize && 1 <= r.ps.lineCount <= 1 + Newlines(s, 1) &&
      (r.ok ==> StackTop(r.ps) == NULL_ID && r.ps.errorLog == ps.errorLog) &&
      (!r.ok ==> Reported(r.ps))
    ensures var r := ParseString(ps, s);
      ps.memSize < OBJECT_SIZE ==> r.ok && r.ps.startObject == NULL_ID && r.ps.heap.objects == [] && r.index == 0
    ensures var r := ParseString(ps, s);
      OBJECT_SIZE <= ps.memSize ==>
        r.ps.startObject == 0 && (r.ps.oom ==> !r.ok && CString(r.ps.errorLog) == ErrorText(MSG_OOM, r.ps.lineCount))
  {
    StartedShape(ps);
    StartedLoops(ps, s);
  }

  /** The object graph rjs_parse_string leaves is always well formed. */
  lemma {:induction false} ParseKeepsGraph(ps: PState, s: string)
    requires WF(ps) && NUL !in s && 1 + Newlines(s, 1) < LINE_LIMIT
    ensures GraphInv(ParseString(ps, s).ps.heap)
  {
    StartedShape(ps);
    StartedLoops(ps, s);
    RunKeepsGraph(Started(ps), s, 0, 0);
  }

  /** Whatever the arena held before, every name in the graph a parse leaves
      is a C string, so the graph meets what Queries.GetKey asks of it. */
  lemma {:induction false} ParseKeepsNames(ps: PState, s: string)
    requires WF(ps) && NUL !in s && 1 + Newlines(s, 1) < LINE_LIMIT
    ensures GraphInv(ParseString(ps, s).ps.heap) && CNames(ParseString(ps, s).ps.heap)
  {
    StartedShape(ps);
    StartedLoops(ps, s);
    RunKeepsGraph(Started(ps), s, 0, 0);
    RunKeepsNames(Started(ps), s, 0, 0);
  }

  // ------------------------------------------------------------ lemmas

  /** The loop starts from the parser rjs_parse_string prepares, with the
      root on top of the stack when it fits. */
  lemma {:induction false} StartedLoops(ps: PState, s: string)
    requires WF(ps) && NUL !in s && 1 + Newlines(s, 1) < LINE_LIMIT
    ensures var p0 := Started(ps);
      Looping(p0, s, 0, 0) && p0.state == SearchOpenBracket &&
      (OBJECT_SIZE <= ps.memSize ==> StackTop(p0) != NULL_ID && !p0.oom && |Live(p0)| == 1)
  {
    StartedShape(ps);
  }

  /** In SEARCH_OPEN_BRACKET a blank is consumed and the loop carries on in
      the same state with the same stack. */
  lemma {:induction false} OpenBracketBlankTurn(ps: PState, s: string, i: nat, pb: nat)
    requires Looping(ps, s, i, pb) && i < |s| && StackTop(ps) != NULL_ID
    requires ps.state == SearchOpenBracket && !ps.oom && IsSpace(s[i])
    ensures var (o, pb') := Turn(ps, s, i, pb);
      o.ok && o.index == i + 1 && o.ps.state == SearchOpenBracket && StackTop(o.ps) != NULL_ID
  {
    var st := OpenBracket(ps, s, i);
    assert st.ps == ps;
  }

  /** In SEARCH_OPEN_BRACKET a character that is neither a blank nor `{`
      ends the loop with "Expected open bracket.". */
  lemma {:induction false} OpenBracketBadTurn(ps: PState, s: string, i: nat, pb: nat)
    requires Looping(ps, s, i, pb) && i < |s| && StackTop(ps) != NULL_ID
    requires ps.state == SearchOpenBracket && !ps.oom && !IsSpace(s[i]) && s[i] != '{'
    ensures var (o, pb') := Turn(ps, s, i, pb);
      !o.ok && CString(o.ps.errorLog) == ErrorText(MSG_OPEN_BRACKET, o.ps.lineCount)
  {
    var st := OpenBracket(ps, s, i);
    assert st.ps == Log(ps, MSG_OPEN_BRACKET);
  }

  /** A blank before the root's `{` leaves the rest of the parse to the
      loop from the next character, in the same state. */
  lemma {:induction false} OpenBracketBlankRun(ps: PState, s: string, i: nat, pb: nat)
    requires Looping(ps, s, i, pb) && ps.state == SearchOpenBracket && StackTop(ps) != NULL_ID && !ps.oom
    requires i < |s| && IsSpace(s[i])
    ensures var t := Turn(ps, s, i, pb);
      Looping(t.0.ps, s, i + 1, t.1) && t.0.ps.state == SearchOpenBracket && StackTop(t.0.ps) != NULL_ID &&
      !t.0.ps.oom && Run(ps, s, i, pb) == Run(t.0.ps, s, i + 1, t.1)
  {
    OpenBracketBlankTurn(ps, s, i, pb);
  }

  /** A character that is neither a blank nor `{` before the root's `{`
      fails the parse with "Expected open bracket.". */
  lemma {:induction false} OpenBracketBadRun(ps: PState, s: string, i: nat, pb: nat)
    requires Looping(ps, s, i, pb) && ps.state == SearchOpenBracket && StackTop(ps) != NULL_ID && !ps.oom
    requires i < |s| && !IsSpace(s[i]) && s[i] != '{'
    ensures var r := Run(ps, s, i, pb);
      !r.ok && CString(r.ps.errorLog) == ErrorText(MSG_OPEN_BRACKET, r.ps.lineCount)
  {
    OpenBracketBadTurn(ps, s, i, pb);
  }

  /** Before the root's `{` only blanks may appear: the first other
      character fails the parse with "Expected open bracket.". */
  lemma {:induction false} RootMustOpenWithBrace(ps: PState, s: string, i: nat, pb: nat, k: nat)
    requires Looping(ps, s, i, pb) && ps.state == SearchOpenBracket && StackTop(ps) != NULL_ID && !ps.oom
    requires i <= k < |s| && (forall j :: i <= j < k ==> IsSpace(s[j])) && !IsSpace(s[k]) && s[k] != '{'
    ensures var r := Run(ps, s, i, pb);
      !r.ok && CString(r.ps.errorLog) == ErrorText(MSG_OPEN_BRACKET, r.ps.lineCount)
    decreases k - i, 1
  {
    if i < k {
      SkipBlankBeforeRoot(ps, s, i, pb, k);
    } else {
      OpenBracketBadRun(ps, s, i, pb);
    }
  }

  /** The inductive step of RootMustOpenWithBrace: skip one blank. */
  lemma {:induction false} SkipBlankBeforeRoot(ps: PState, s: string, i: nat, pb: nat, k: nat)
    requires Looping(ps, s, i, pb) && ps.state == SearchOpenBracket && StackTop(ps) != NULL_ID && !ps.oom
    requires i < k < |s| && (forall j :: i <= j < k ==> IsSpace(s[j])) && !IsSpace(s[k]) && s[k] != '{'
    ensures var r := Run(ps, s, i, pb);
      !r.ok && CString(r.ps.errorLog) == ErrorText(MSG_OPEN_BRACKET, r.ps.lineCount)
    decreases k - i, 0
  {
    OpenBracketBlankRun(ps, s, i, pb);
    var t := Turn(ps, s, i, pb);
    RootMustOpenWithBrace(t.0.ps, s, i + 1, t.1, k);
  }

  lemma {:induction false} StartedNeedsOpenBrace(ps: PState, s: string, k: nat)
    requires WF(ps) && NUL !in s && 1 + Newlines(s, 1) < LINE_LIMIT && OBJECT_SIZE <= ps.memSize
    requires k < |s| && (forall j :: 0 <= j < k ==> IsSpace(s[j])) && !IsSpace(s[k]) && s[k] != '{'
    ensures Looping(Started(ps), s, 0, 0)
    ensures var r := Run(Started(ps), s, 0, 0);
      !r.ok && CString(r.ps.errorLog) == ErrorText(MSG_OPEN_BRACKET, r.ps.lineCount)
  {
    StartedLoops(ps, s);
    RootMustOpenWithBrace(Started(ps), s, 0, 0, k);
  }

  /** A turn that succeeds hands the rest of the parse to the loop. */
  lemma {:induction false} RunTurn(ps: PState, s: string, i: nat, pb: nat)
    requires Looping(ps, s, i, pb) && i < |s| && StackTop(ps) != NULL_ID && Turn(ps, s, i, pb).0.ok
    ensures var t := Turn(ps, s, i, pb);
      Looping(t.0.ps, s, t.0.index, t.1) && Run(ps, s, i, pb) == Run(t.0.ps, s, t.0.index, t.1)
  {
  }

  /** `{` in SEARCH_OPEN_BRACKET is consumed and a name is expected next. */
  lemma {:induction false} OpenBraceTurn(ps: PState, s: string, i: nat, pb: nat)
    requires Looping(ps, s, i, pb) && i + 1 < |s| && StackTop(ps) != NULL_ID && !ps.oom
    requires ps.state == SearchOpenBracket && s[i] == '{' && s[i + 1] != '\n'
    ensures Turn(ps, s, i, pb) == (Outcome(ps.(state := SearchTokenString, nextState := SearchTokenString), i + 1, true), pb)
  {
    assert OpenBracket(ps, s, i).ps == ps.(nextState := SearchTokenString);
  }

  /** `}` where a name is expected is left for SEARCH_END. */
  lemma {:induction false} NoNameTurn(ps: PState, s: string, i: nat, pb: nat)
    requires Looping(ps, s, i, pb) && i < |s| && StackTop(ps) != NULL_ID && !ps.oom
    requires ps.state == SearchTokenString && s[i] == '}'
    ensures Turn(ps, s, i, pb) == (Outcome(ps.(state := SearchEnd, nextState := SearchEnd), i, true), pb)
  {
    assert TokenString(ps, s, i).ps == ps.(nextState := SearchEnd);
  }

  /** `}` in SEARCH_END closes the object on top of the stack when it is
      not an array: the stack loses its top and nothing else changes but
      the line count. */
  lemma {:induction false} CloseBraceTurn(ps: PState, s: string, i: nat, pb: nat)
    requires Looping(ps, s, i, pb) && i < |s| && StackTop(ps) != NULL_ID && !ps.oom
    requires ps.state == SearchEnd && s[i] == '}' && !ps.heap.objects[StackTop(ps)].isArray
    ensures var t := Turn(ps, s, i, pb);
      t.0.ok && t.0.index == i + 1 && Live(t.0.ps) == Live(ps)[..|Live(ps)| - 1] &&
      t.0.ps.heap == ps.heap && t.0.ps.startObject == ps.startObject
  {
    assert SearchEndStep(ps, s, i).ps == StackPop(ps).0;
  }

  /** `}` closing the only open object ends the loop with success, right
      after the brace. */
  lemma {:induction false} LastCloseRun(ps: PState, s: string, i: nat, pb: nat)
    requires Looping(ps, s, i, pb) && i < |s| && |Live(ps)| == 1 && StackTop(ps) != NULL_ID && !ps.oom
    requires ps.state == SearchEnd && s[i] == '}' && !ps.heap.objects[StackTop(ps)].isArray
    ensures var r := Run(ps, s, i, pb);
      r.ok && r.index == i + 1 && r.ps.heap == ps.heap && r.ps.startObject == ps.startObject
  {
    CloseBraceTurn(ps, s, i, pb);
    RunTurn(ps, s, i, pb);
  }

  /** `}` where the only open object expects its first name closes it. */
  lemma {:induction false} EmptyLastRun(ps: PState, s: string, i: nat, pb: nat)
    requires Looping(ps, s, i, pb) && i < |s| && |Live(ps)| == 1 && StackTop(ps) != NULL_ID && !ps.oom
    requires ps.state == SearchTokenString && s[i] == '}' && !ps.heap.objects[StackTop(ps)].isArray
    ensures var r := Run(ps, s, i, pb);
      r.ok && r.index == i + 1 && r.ps.heap == ps.heap && r.ps.startObject == ps.startObject
  {
    NoNameTurn(ps, s, i, pb);
    RunTurn(ps, s, i, pb);
    LastCloseRun(ps.(state := SearchEnd, nextState := SearchEnd), s, i, pb);
  }

  /** "{}" opening and closing the only open object. */
  lemma {:induction false} BracedEmptyRun(ps: PState, s: string, i: nat, pb: nat)
    requires Looping(ps, s, i, pb) && i + 1 < |s| && |Live(ps)| == 1 && StackTop(ps) != NULL_ID && !ps.oom
    requires ps.state == SearchOpenBracket && s[i] == '{' && s[i + 1] == '}' && !ps.heap.objects[StackTop(ps)].isArray
    ensures var r := Run(ps, s, i, pb);
      r.ok && r.index == i + 2 && r.ps.heap == ps.heap && r.ps.startObject == ps.startObject
  {
    OpenBraceTurn(ps, s, i, pb);
    RunTurn(ps, s, i, pb);
    EmptyLastRun(ps.(state := SearchTokenString, nextState := SearchTokenString), s, i + 1, pb);
  }

  /** `,` in SEARCH_END is consumed; a name is expected next in an object,
      a value in an array. */
  lemma {:induction false} CommaTurn(ps: PState, s: string, i: nat, pb: nat)
    requires Looping(ps, s, i, pb) && i + 1 < |s| && StackTop(ps) != NULL_ID && !ps.oom
    requires ps.state == SearchEnd && s[i] == ',' && s[i + 1] != '\n'
    ensures var next := if ps.heap.objects[StackTop(ps)].isArray then SearchValue else SearchTokenString;
      Turn(ps, s, i, pb) == (Outcome(ps.(state := next, nextState := next), i + 1, true), pb)
  {
    var next := if ps.heap.objects[StackTop(ps)].isArray then SearchValue else SearchTokenString;
    assert SearchEndStep(ps, s, i).ps == ps.(nextState := next);
  }

  /** `}` or `]` where a value is expected is "no value": it is left for
      SEARCH_END and nothing is added. */
  lemma {:induction false} NoValueTurn(ps: PState, s: string, i: nat, pb: nat)
    requires Looping(ps, s, i, pb) && i < |s| && StackTop(ps) != NULL_ID && !ps.oom
    requires ps.state == SearchValue && (s[i] == '}' || s[i] == ']')
    ensures Turn(ps, s, i, pb) == (Outcome(ps.(state := SearchEnd, nextState := SearchEnd), i, true), pb)
  {
    SearchValueMoves(ps, s, i);
  }

  /** The closer that matches the open object or array is consumed and
      pops it; nothing else changes. */
  lemma {:induction false} CloserTurn(ps: PState, s: string, i: nat, pb: nat)
    requires Looping(ps, s, i, pb) && i < |s| && StackTop(ps) != NULL_ID && !ps.oom && ps.state == SearchEnd
    requires s[i] == (if ps.heap.objects[StackTop(ps)].isArray then ']' else '}')
    requires i + 1 < |s| ==> s[i + 1] != '\n'
    ensures Turn(ps, s, i, pb) == (Outcome(StackPop(ps).0, i + 1, true), pb)
  {
    assert SearchEndStep(ps, s, i).ps == StackPop(ps).0;
  }

  /** A comma followed by the matching closer leaves the loop where it was,
      at the closer. */
  lemma {:induction false} TrailingCommaSkipped(ps: PState, s: string, i: nat, pb: nat)
    requires Looping(ps, s, i, pb) && i + 1 < |s| && StackTop(ps) != NULL_ID && !ps.oom && ps.state == SearchEnd
    requires s[i] == ',' && s[i + 1] == (if ps.heap.objects[StackTop(ps)].isArray then ']' else '}')
    ensures Looping(ps, s, i + 1, pb) && Run(ps, s, i, pb) == Run(ps, s, i + 1, pb)
  {
    var isArray := ps.heap.objects[StackTop(ps)].isArray;
    var next := if isArray then SearchValue else SearchTokenString;
    CommaTurn(ps, s, i, pb);
    RunTurn(ps, s, i, pb);
    var p1 := ps.(state := next, nextState := next);
    if isArray {
      NoValueTurn(p1, s, i + 1, pb);
    } else {
      NoNameTurn(p1, s, i + 1, pb);
    }
    RunTurn(p1, s, i + 1, pb);
    assert p1.(state := SearchEnd, nextState := SearchEnd) == ps;
  }

  /** A trailing comma is accepted in objects and arrays alike: `,}` in an
      object, or `,]` in an array, closes it exactly as the closer alone
      would. */
  lemma {:induction false} TrailingCommaCloses(ps: PState, s: string, i: nat, pb: nat)
    requires Looping(ps, s, i, pb) && i + 1 < |s| && StackTop(ps) != NULL_ID && !ps.oom && ps.state == SearchEnd
    requires s[i] == ',' && s[i + 1] == (if ps.heap.objects[StackTop(ps)].isArray then ']' else '}')
    requires i + 2 < |s| ==> s[i + 2] != '\n'
    ensures Looping(StackPop(ps).0, s, i + 2, pb) && Run(ps, s, i, pb) == Run(StackPop(ps).0, s, i + 2, pb)
  {
    TrailingCommaSkipped(ps, s, i, pb);
    CloserTurn(ps, s, i + 1, pb);
    RunTurn(ps, s, i + 1, pb);
  }

  /** A closer where a value is expected (`{"a":}`) closes the object with
      no key added: the arena is untouched. */
  lemma {:induction false} MissingValueCloses(ps: PState, s: string, i: nat, pb: nat)
    requires Looping(ps, s, i, pb) && i < |s| && StackTop(ps) != NULL_ID && !ps.oom && ps.state == SearchValue
    requires s[i] == (if ps.heap.objects[StackTop(ps)].isArray then ']' else '}')
    requires i + 1 < |s| ==> s[i + 1] != '\n'
    ensures var p := StackPop(ps).0.(state := SearchEnd, nextState := SearchEnd);
      Looping(p, s, i + 1, pb) && p.heap == ps.heap && p.top == ps.top && Run(ps, s, i, pb) == Run(p, s, i + 1, pb)
  {
    NoValueTurn(ps, s, i, pb);
    RunTurn(ps, s, i, pb);
    var p1 := ps.(state := SearchEnd, nextState := SearchEnd);
    CloserTurn(p1, s, i, pb);
    RunTurn(p1, s, i, pb);
    assert StackPop(p1).0 == StackPop(ps).0.(state := SearchEnd, nextState := SearchEnd);
  }

  /** "{}" parses to an empty root, and whatever follows the closing brace
      is never read. */
  lemma {:induction false} EmptyObjectParses(ps: PState, t: string)
    requires WF(ps) && OBJECT_SIZE <= ps.memSize && NUL !in t && 1 + Newlines("{}" + t, 1) < LINE_LIMIT
    ensures var r := ParseString(ps, "{}" + t);
      r.ok && r.index == 2 && r.ps.startObject == 0 && r.ps.heap.lists == [[]]
  {
    var s := "{}" + t;
    assert s[0] == '{' && s[1] == '}' && NUL !in s;
    StartedShape(ps);
    StartedLoops(ps, s);
    BracedEmptyRun(Started(ps), s, 0, 0);
  }

  /** rjs_parse_string fails with "Expected open bracket." when the first
      character that is not a blank is not `{`, provided the root object
      fits in the arena. */
  lemma {:induction false} ParseRejectsLeadingJunk(ps: PState, s: string, k: nat)
    requires WF(ps) && NUL !in s && 1 + Newlines(s, 1) < LINE_LIMIT && OBJECT_SIZE <= ps.memSize
    requires k < |s| && (forall j :: 0 <= j < k ==> IsSpace(s[j])) && !IsSpace(s[k]) && s[k] != '{'
    ensures var r := ParseString(ps, s);
      !r.ok && CString(r.ps.errorLog) == ErrorText(MSG_OPEN_BRACKET, r.ps.lineCount)
  {
    StartedNeedsOpenBrace(ps, s, k);
  }

}
