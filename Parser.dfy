/** rjs_parser_t as an object whose methods update it in place, as the C
    functions do: the arena (rjs_alloc, rjs_pushstring, rjs_create_obj and
    the rjs_obj_pushkey family), the object stack, rjs_log, the steps of
    rjs_parse_object_step, the rjs_parse_object loop, rjs_clean_parser and
    rjs_parse_string. Each method is proved to leave the parser in the
    state the value model of the Machine and Arena modules gives. */
module Parser {
  import opened JsonTypes
  import opened Lexical
  import opened Numbers
  import opened Diagnostics
  import opened Arena
  import opened Machine

  /** OpenValue as the sequence of arena calls a method makes. */
  lemma OpenValueIs(ps: PState, s: string, i: nat, isArray: bool, ps1: PState, child: int, ps2: PState, ok: bool)
    requires Ready(ps, s, i) && ps.state == SearchValue
    requires (ps1, child) == PushChild(ps, isArray)
    requires (ps2, ok) == Arena.PushKeyObj(ps1, StackTop(ps), CString(ps1.tmpToken), child)
    ensures OpenValue(ps, s, i, isArray) ==
      StepResult(Flagged(ps2, ok).(nextState := if isArray then SearchValue else SearchOpenBracket),
                 if isArray then i + 1 else i, ok)
  {
  }

  /** EndNumber as the sequence of calls a method makes. */
  lemma EndNumberIs(ps: PState, s: string, i: nat, ps1: PState, ps2: PState, ok: bool)
    requires Ready(ps, s, i) && ps.state == ReadValueNumber
    requires ps1 == ps.(tmpValue := AddCharacter(ps.tmpValue, ps.valuePos, NUL).0, valuePos := ps.valuePos + 1,
                        nextState := SearchEnd)
    requires (ps2, ok) == Arena.PushKeyNumber(ps1, StackTop(ps), CString(ps1.tmpToken), CString(ps1.tmpValue))
    ensures EndNumber(ps, s, i) == if ok then StepResult(ps2, i, true) else StepResult(Log(ps2, MSG_NUMBER), i, false)
  {
  }

  /** The closing quote of a string value, as the calls a method makes. */
  lemma CloseValueIs(ps: PState, s: string, i: nat, ps1: PState, ps2: PState, ok: bool)
    requires Ready(ps, s, i) && ps.state == ReadValueString && s[i] == '"' && ps.valuePos != -1
    requires ps1 == AddPending(ps, NUL).(nextState := SearchEnd)
    requires (ps2, ok) == Arena.PushKeyString(ps1, StackTop(ps), CString(ps1.tmpToken), CString(ps1.tmpValue))
    ensures ReadString(ps, s, i) == StepResult(Flagged(ps2, ok), i + 1, ok)
  {
  }

  /** The loop from a parser is one turn around its step, and the rest
      of the loop when the turn succeeded. */
  lemma RunTurns(ps: PState, s: string, i: nat, pb: nat, st: StepResult)
    requires Looping(ps, s, i, pb) && i < |s| && StackTop(ps) != NULL_ID && st == Step(ps, s, i)
    ensures Steps(ps, s, i, st)
    ensures var (o, pb') := Machine.Settle(ps, s, i, pb, st);
      Run(ps, s, i, pb) == if !o.ok then o else Run(o.ps, s, o.index, pb')
  {
  }

  class JsonParser {
    /** memory.size and memory.top; the bytes of the block are not kept,
        only the object and key tables they hold. */
    var memSize: nat
    var top: nat
    var heap: Heap
    var startObject: int
    const tmpToken: array<char>
    var tokenPos: int
    const tmpValue: array<char>
    var valuePos: int
    const errorLog: array<char>
    const objectStack: array<int>
    var stackTop: int
    var oom: bool
    var state: State
    var nextState: State
    var lineCount: int

    /** The parser as a value. */
    function Abs(): PState
      reads this, tmpToken, tmpValue, errorLog, objectStack
    {
      PState(memSize, top, startObject, tmpToken[..], tokenPos, tmpValue[..], valuePos, errorLog[..],
             objectStack[..], stackTop, oom, state, nextState, lineCount, heap)
    }

    ghost predicate Valid()
      reads this, tmpToken, tmpValue, errorLog, objectStack
    {
      tmpToken != tmpValue && tmpToken != errorLog && tmpValue != errorLog && WF(Abs())
    }

    /** rjs_create_parser on a block of `size` bytes: the arena is empty and
        there is no main object. The C function leaves the other fields
        unset; here the buffers hold NULs and the rest starts as
        rjs_clean_parser would leave it. */
    constructor (size: nat)
      ensures fresh(tmpToken) && fresh(tmpValue) && fresh(errorLog) && fresh(objectStack) && Valid()
      ensures memSize == size && top == 0 && startObject == NULL_ID && heap == Heap([], [], [])
    {
      memSize := size;
      top := 0;
      heap := Heap([], [], []);
      startObject := NULL_ID;
      tmpToken := new char[MAX_STRING_SIZE](_ => NUL);
      tokenPos := 0;
      tmpValue := new char[MAX_STRING_SIZE](_ => NUL);
      valuePos := 0;
      errorLog := new char[MAX_STRING_SIZE](_ => NUL);
      objectStack := new int[OBJECT_STACK_SIZE](_ => NULL_ID);
      stackTop := -1;
      oom := false;
      state := SearchOpenBracket;
      nextState := SearchOpenBracket;
      lineCount := 1;
    }

    // ------------------------------------------------------------ arena

    /** rjs_alloc. */
    method Alloc(size: nat) returns (loc: int)
      requires Valid()
      modifies this
      ensures (Abs(), loc) == Arena.Alloc(old(Abs()), size) && Valid()
    {
      if top + size > memSize {
        oom := true;
        return NULL_ID;
      }
      loc := top;
      top := top + size;
    }

    /** rjs_pushstring: the padded block for the text and its terminator;
        the copy of the characters into the block is not kept. */
    method PushString(str: string) returns (copy: Option<string>)
      requires Valid()
      modifies this
      ensures (Abs(), copy) == Arena.PushString(old(Abs()), str) && Valid()
    {
      var loc := Alloc(Padded(|str| + 1));
      if loc == NULL_ID {
        return None;
      }
      return Some(str);
    }

    /** rjs_create_obj. */
    method CreateObj() returns (obj: int)
      requires Valid()
      modifies this
      ensures (Abs(), obj) == Arena.CreateObj(old(Abs())) && Valid()
    {
      var loc := Alloc(OBJECT_SIZE);
      if loc == NULL_ID {
        return NULL_ID;
      }
      obj := |heap.objects|;
      heap := Heap(heap.objects + [ObjectNode(NULL_ID, NULL_ID, false)], heap.keys, heap.lists + [[]]);
    }

    /** new_obj->is_array = 1. */
    method SetArray(obj: int)
      requires Valid() && 0 <= obj < |heap.objects|
      modifies this
      ensures Abs() == Arena.SetArray(old(Abs()), obj) && Valid()
    {
      heap := heap.(objects := heap.objects[obj := heap.objects[obj].(isArray := true)]);
    }

    // ------------------------------------------------------ object stack

    /** rjs_stack_pushobject, refused when the 256 slots are in use. */
    method StackPush(obj: int) returns (ok: bool)
      requires Valid() && -1 <= obj < |heap.objects|
      modifies this, objectStack
      ensures (Abs(), ok) == Arena.StackPush(old(Abs()), obj) && Valid()
    {
      if stackTop == OBJECT_STACK_SIZE - 1 {
        return false;
      }
      stackTop := stackTop + 1;
      objectStack[stackTop] := obj;
      return true;
    }

    /** rjs_stack_popobject. */
    method StackPop() returns (ok: bool)
      requires Valid()
      modifies this
      ensures (Abs(), ok) == Arena.StackPop(old(Abs())) && Valid()
    {
      if stackTop == -1 {
        return false;
      }
      stackTop := stackTop - 1;
      return true;
    }

    /** rjs_stack_top. */
    function TopObject(): (r: int)
      requires Valid()
      reads this, tmpToken, tmpValue, errorLog, objectStack
      ensures r == StackTop(Abs())
    {
      if stackTop == -1 then NULL_ID else objectStack[stackTop]
    }

    // ------------------------------------------------------------- keys

    /** The key allocation and name copy that begin every
        rjs_obj_pushkey_* function. */
    method NewKey(obj: int, token: string, always: bool) returns (ok: bool, name: Option<string>)
      requires Valid() && 0 <= obj < |heap.objects|
      modifies this
      ensures (Abs(), ok, name) == Arena.NewKey(old(Abs()), obj, token, always) && Valid()
    {
      var loc := Alloc(KEY_SIZE);
      if loc == NULL_ID {
        return false, None;
      }
      if !always && heap.objects[obj].isArray {
        return true, None;
      }
      name := PushString(token);
      ok := true;
    }

    /** rjs_obj_pushkey: the new key becomes start_key of an empty object,
        or the next of end_key; either way it becomes end_key. */
    method ObjPushKey(obj: int, name: Option<string>, value: Value)
      requires Valid() && 0 <= obj < |heap.objects|
      requires value.Obj? ==> -1 <= value.obj < |heap.objects|
      requires heap.objects[obj].isArray ==> name.None? || value.Null?
      modifies this
      ensures Abs() == AddKey(old(Abs()), obj, name, value) && Valid()
    {
      var k := |heap.keys|;
      var o := heap.objects[obj];
      var keys := heap.keys + [KeyNode(name, value, NULL_ID)];
      if o.startKey == NULL_ID {
        o := o.(startKey := k, endKey := k);
      } else {
        keys := keys[o.endKey := keys[o.endKey].(next := k)];
        o := o.(endKey := k);
      }
      heap := Heap(heap.objects[obj := o], keys, heap.lists[obj := heap.lists[obj] + [k]]);
    }

    /** rjs_obj_pushkey_string. */
    method PushKeyString(obj: int, token: string, text: string) returns (ok: bool)
      requires Valid() && 0 <= obj < |heap.objects|
      modifies this
      ensures (Abs(), ok) == Arena.PushKeyString(old(Abs()), obj, token, text) && Valid()
    {
      var name;
      ok, name := NewKey(obj, token, false);
      if !ok {
        return;
      }
      var copy := PushString(text);
      ObjPushKey(obj, name, Str(copy));
    }

    /** rjs_obj_pushkey_number: the key and its name are allocated before
        the text is converted, and a text rjs_strtod rejects links
        nothing. */
    method PushKeyNumber(obj: int, token: string, text: string) returns (ok: bool)
      requires Valid() && 0 <= obj < |heap.objects|
      modifies this
      ensures (Abs(), ok) == Arena.PushKeyNumber(old(Abs()), obj, token, text) && Valid()
    {
      var name;
      ok, name := NewKey(obj, token, false);
      if !ok {
        return;
      }
      var x := StrToD(text);
      if x.None? {
        return false;
      }
      ObjPushKey(obj, name, Number(x.value));
    }

    /** rjs_obj_pushkey_obj. */
    method PushKeyObj(obj: int, token: string, newObj: int) returns (ok: bool)
      requires Valid() && 0 <= obj < |heap.objects| && -1 <= newObj < |heap.objects|
      modifies this
      ensures (Abs(), ok) == Arena.PushKeyObj(old(Abs()), obj, token, newObj) && Valid()
    {
      var name;
      ok, name := NewKey(obj, token, false);
      if !ok {
        return;
      }
      ObjPushKey(obj, name, Obj(newObj));
    }

    /** rjs_obj_pushkey_bool. */
    method PushKeyBool(obj: int, token: string, b: bool) returns (ok: bool)
      requires Valid() && 0 <= obj < |heap.objects|
      modifies this
      ensures (Abs(), ok) == Arena.PushKeyBool(old(Abs()), obj, token, b) && Valid()
    {
      var name;
      ok, name := NewKey(obj, token, false);
      if !ok {
        return;
      }
      ObjPushKey(obj, name, Bool(b));
    }

    /** rjs_obj_pushkey_null, which copies the name even in an array. */
    method PushKeyNull(obj: int, token: string) returns (ok: bool)
      requires Valid() && 0 <= obj < |heap.objects|
      modifies this
      ensures (Abs(), ok) == Arena.PushKeyNull(old(Abs()), obj, token) && Valid()
    {
      var name;
      ok, name := NewKey(obj, token, true);
      if !ok {
        return;
      }
      ObjPushKey(obj, name, Null);
    }

    // ---------------------------------------------------- log and text

    /** rjs_log with the current line. */
    method Log(msg: string)
      requires Valid() && 0 <= lineCount < LINE_LIMIT && msg in MESSAGES
      modifies errorLog
      ensures Abs() == Machine.Log(old(Abs()), msg) && Valid()
    {
      MessagesFit();
      WriteLog(errorLog, msg, lineCount);
    }

    /** A character of a string: rjs_add_character into the pending name
        while the value position is -1, otherwise into the pending value. */
    method AddPending(c: char)
      requires Valid()
      modifies this, tmpToken, tmpValue
      ensures Abs() == Machine.AddPending(old(Abs()), c) && Valid()
    {
      if valuePos == -1 {
        var _ := AddChar(tmpToken, tokenPos, c);
        tokenPos := tokenPos + 1;
      } else {
        var _ := AddChar(tmpValue, valuePos, c);
        valuePos := valuePos + 1;
      }
    }

    // ------------------------------------------------------------ steps

    /** RJS_SEARCH_OPEN_BRACKET. */
    method StepOpenBracket(s: string, i: nat) returns (index: nat, ok: bool)
      requires Valid() && Ready(Abs(), s, i) && state == SearchOpenBracket
      modifies this, errorLog
      ensures StepResult(Abs(), index, ok) == OpenBracket(old(Abs()), s, i) && Valid()
    {
      var c := s[i];
      if IsSpace(c) {
        return i + 1, true;
      } else if c == '{' {
        nextState := SearchTokenString;
        return i + 1, true;
      }
      Log(MSG_OPEN_BRACKET);
      return i, false;
    }

    /** RJS_SEARCH_TOKEN_STRING. */
    method StepTokenString(s: string, i: nat) returns (index: nat, ok: bool)
      requires Valid() && Ready(Abs(), s, i) && state == SearchTokenString
      modifies this, errorLog
      ensures StepResult(Abs(), index, ok) == TokenString(old(Abs()), s, i) && Valid()
    {
      var c := s[i];
      if IsSpace(c) {
        return i + 1, true;
      } else if c == '"' {
        nextState := ReadValueString;
        tokenPos := 0;
        valuePos := -1;
        return i + 1, true;
      } else if c == '}' {
        nextState := SearchEnd;
        return i, true;
      }
      Log(MSG_QUOTE);
      return i, false;
    }

    /** RJS_SEARCH_COLON. */
    method StepColon(s: string, i: nat) returns (index: nat, ok: bool)
      requires Valid() && Ready(Abs(), s, i) && state == SearchColon
      modifies this, errorLog
      ensures StepResult(Abs(), index, ok) == Colon(old(Abs()), s, i) && Valid()
    {
      var c := s[i];
      if IsSpace(c) {
        return i + 1, true;
      } else if c == ':' {
        nextState := SearchValue;
        return i + 1, true;
      }
      Log(MSG_COLON);
      return i, false;
    }

    /** The child of `{` or `[`: created, marked as an array for `[` when
        it exists, and pushed whatever the outcome. */
    method PushChild(isArray: bool) returns (child: int)
      requires Valid()
      modifies this, objectStack
      ensures (Abs(), child) == Machine.PushChild(old(Abs()), isArray) && Valid()
    {
      child := CreateObj();
      if child != NULL_ID && isArray {
        SetArray(child);
      }
      var _ := StackPush(child);
    }

    /** `{` or `[` in value position: the child is created (and marked as
        an array for `[`), pushed whatever the outcome, and linked under
        the pending name to the object on top of the stack. */
    method StepOpenValue(s: string, i: nat, isArray: bool) returns (index: nat, ok: bool)
      requires Valid() && Ready(Abs(), s, i) && state == SearchValue
      modifies this, objectStack
      ensures StepResult(Abs(), index, ok) == OpenValue(old(Abs()), s, i, isArray) && Valid()
    {
      ghost var ps := Abs();
      var topObject := TopObject();
      var child := PushChild(isArray);
      ghost var ps1 := Abs();
      ok := PushKeyObj(topObject, CString(tmpToken[..]), child);
      ghost var ps2 := Abs();
      if !ok {
        oom := true;
      }
      nextState := if isArray then SearchValue else SearchOpenBracket;
      index := if isArray then i + 1 else i;
      OpenValueIs(ps, s, i, isArray, ps1, child, ps2, ok);
    }

    /** `t`, `f` or `n` in value position: rjs_strncmp against the literal
        decides whether a key is added; the cursor skips the literal's
        length either way, stopping at the end of the text. */
    method StepLiteral(s: string, i: nat, lit: string, value: Value) returns (index: nat, ok: bool)
      requires Valid() && Ready(Abs(), s, i) && state == SearchValue
      requires |lit| > 0 && NUL !in lit && (value.Bool? || value.Null?)
      modifies this
      ensures StepResult(Abs(), index, ok) == Literal(old(Abs()), s, i, lit, value) && Valid()
    {
      var topObject := TopObject();
      var same := StrNCmp(s[i..], lit, |lit|);
      StrNCmpIsStartsWith(s[i..], lit);
      ok := true;
      if same == 0 {
        if value.Bool? {
          ok := PushKeyBool(topObject, CString(tmpToken[..]), value.b);
        } else {
          ok := PushKeyNull(topObject, CString(tmpToken[..]));
        }
        if !ok {
          oom := true;
        }
      }
      index := if i + |lit| <= |s| then i + |lit| else |s|;
      nextState := SearchEnd;
    }

    /** RJS_SEARCH_VALUE. */
    method StepValue(s: string, i: nat) returns (index: nat, ok: bool)
      requires Valid() && Ready(Abs(), s, i) && state == SearchValue
      modifies this, errorLog, objectStack
      ensures StepResult(Abs(), index, ok) == SearchValueStep(old(Abs()), s, i) && Valid()
    {
      var c := s[i];
      if IsSpace(c) {
        return i + 1, true;
      } else if c == '"' {
        nextState := ReadValueString;
        valuePos := 0;
        tokenPos := -1;
        return i + 1, true;
      } else if IsStartNumber(c) {
        nextState := ReadValueNumber;
        valuePos := 0;
        return i, true;
      } else if c == '{' {
        index, ok := StepOpenValue(s, i, false);
      } else if c == '[' {
        index, ok := StepOpenValue(s, i, true);
      } else if c == 't' {
        index, ok := StepLiteral(s, i, "true", Bool(true));
      } else if c == 'f' {
        index, ok := StepLiteral(s, i, "false", Bool(false));
      } else if c == 'n' {
        index, ok := StepLiteral(s, i, "null", Null);
      } else if c == ']' || c == '}' {
        nextState := SearchEnd;
        return i, true;
      } else {
        Log(MSG_VALUE);
        return i, false;
      }
    }

    /** The closing quote of a string value: the value is terminated and
        stored as a string key under the pending name. */
    method StoreValue(s: string, i: nat) returns (index: nat, ok: bool)
      requires Valid() && Ready(Abs(), s, i) && state == ReadValueString && s[i] == '"' && valuePos != -1
      modifies this, tmpToken, tmpValue
      ensures StepResult(Abs(), index, ok) == ReadString(old(Abs()), s, i) && Valid()
    {
      ghost var ps := Abs();
      var topObject := TopObject();
      nextState := SearchEnd;
      AddPending(NUL);
      ghost var ps1 := Abs();
      ok := PushKeyString(topObject, CString(tmpToken[..]), CString(tmpValue[..]));
      ghost var ps2 := Abs();
      if !ok {
        oom := true;
      }
      CloseValueIs(ps, s, i, ps1, ps2, ok);
      index := i + 1;
    }

    /** The closing quote of a string: a name then waits for its colon; a
        value is stored. */
    method StepQuote(s: string, i: nat) returns (index: nat, ok: bool)
      requires Valid() && Ready(Abs(), s, i) && state == ReadValueString && s[i] == '"'
      modifies this, tmpToken, tmpValue
      ensures StepResult(Abs(), index, ok) == ReadString(old(Abs()), s, i) && Valid()
    {
      if valuePos == -1 {
        ghost var ps := Abs();
        nextState := SearchColon;
        AddPending(NUL);
        assert Abs() == Machine.AddPending(ps, NUL).(nextState := SearchColon);
        return i + 1, true;
      }
      index, ok := StoreValue(s, i);
    }

    /** RJS_READ_VALUE_STRING. */
    method StepString(s: string, i: nat) returns (index: nat, ok: bool)
      requires Valid() && Ready(Abs(), s, i) && state == ReadValueString
      modifies this, tmpToken, tmpValue
      ensures StepResult(Abs(), index, ok) == ReadString(old(Abs()), s, i) && Valid()
    {
      ghost var ps := Abs();
      var c := s[i];
      if c == '"' {
        index, ok := StepQuote(s, i);
      } else if c == '\\' {
        nextState := ReadValueStringControl;
        assert Abs() == ps.(nextState := ReadValueStringControl);
        return i + 1, true;
      } else {
        AddPending(c);
        assert Abs() == Machine.AddPending(ps, c);
        return i + 1, true;
      }
    }

    /** RJS_READ_VALUE_STRING_CONTROL. */
    method StepControl(s: string, i: nat) returns (index: nat, ok: bool)
      requires Valid() && Ready(Abs(), s, i) && state == ReadValueStringControl
      modifies this, tmpToken, tmpValue, errorLog
      ensures StepResult(Abs(), index, ok) == Control(old(Abs()), s, i) && Valid()
    {
      var control := Escape(s[i]);
      if control == NUL {
        Log(MSG_CONTROL);
        return i, false;
      }
      AddPending(control);
      nextState := ReadValueString;
      return i + 1, true;
    }

    /** The end of a number: the pending text is terminated and converted
        into a number key; a text rjs_strtod rejects is reported. */
    method EndNumber(s: string, i: nat) returns (index: nat, ok: bool)
      requires Valid() && Ready(Abs(), s, i) && state == ReadValueNumber
      modifies this, tmpValue, errorLog
      ensures StepResult(Abs(), index, ok) == Machine.EndNumber(old(Abs()), s, i) && Valid()
    {
      ghost var ps := Abs();
      var topObject := TopObject();
      var _ := AddChar(tmpValue, valuePos, NUL);
      valuePos := valuePos + 1;
      nextState := SearchEnd;
      ghost var ps1 := Abs();
      ok := PushKeyNumber(topObject, CString(tmpToken[..]), CString(tmpValue[..]));
      ghost var ps2 := Abs();
      if !ok {
        Log(MSG_NUMBER);
      }
      EndNumberIs(ps, s, i, ps1, ps2, ok);
      return i, ok;
    }

    /** RJS_READ_VALUE_NUMBER. */
    method StepNumber(s: string, i: nat) returns (index: nat, ok: bool)
      requires Valid() && Ready(Abs(), s, i) && state == ReadValueNumber
      modifies this, tmpValue, errorLog
      ensures StepResult(Abs(), index, ok) == Machine.ReadNumber(old(Abs()), s, i) && Valid()
    {
      var c := s[i];
      if IsSpace(c) || c == ',' || c == '}' || c == ']' {
        index, ok := EndNumber(s, i);
        return;
      }
      var _ := AddChar(tmpValue, valuePos, c);
      valuePos := valuePos + 1;
      return i + 1, true;
    }

    /** RJS_SEARCH_END. */
    method StepEnd(s: string, i: nat) returns (index: nat, ok: bool)
      requires Valid() && Ready(Abs(), s, i) && state == SearchEnd
      modifies this, errorLog
      ensures StepResult(Abs(), index, ok) == SearchEndStep(old(Abs()), s, i) && Valid()
    {
      var topObject := TopObject();
      var c := s[i];
      if IsSpace(c) {
        return i + 1, true;
      } else if c == ',' {
        nextState := SearchTokenString;
        if heap.objects[topObject].isArray {
          nextState := SearchValue;
        }
        return i + 1, true;
      } else if c == '}' {
        if heap.objects[topObject].isArray {
          Log(MSG_SQUARE);
          return i, false;
        }
        var _ := StackPop();
        return i + 1, true;
      } else if c == ']' {
        if !heap.objects[topObject].isArray {
          Log(MSG_CLOSE);
          return i, false;
        }
        var _ := StackPop();
        return i + 1, true;
      }
      Log(MSG_CLOSE_OR_COMMA);
      return i, false;
    }

    /** rjs_parse_object_step: the step of the current state. */
    method Step(s: string, i: nat) returns (index: nat, ok: bool)
      requires Valid() && Ready(Abs(), s, i)
      modifies this, tmpToken, tmpValue, errorLog, objectStack
      ensures StepResult(Abs(), index, ok) == Machine.Step(old(Abs()), s, i) && Valid()
    {
      match state
      case SearchOpenBracket => index, ok := StepOpenBracket(s, i);
      case SearchTokenString => index, ok := StepTokenString(s, i);
      case SearchColon => index, ok := StepColon(s, i);
      case SearchValue => index, ok := StepValue(s, i);
      case ReadValueString => index, ok := StepString(s, i);
      case ReadValueStringControl => index, ok := StepControl(s, i);
      case ReadValueNumber => index, ok := StepNumber(s, i);
      case SearchEnd => index, ok := StepEnd(s, i);
    }

    // ------------------------------------------------------------- loop

    /** One turn of the rjs_parse_object loop: the step, then what the
        loop body does with its outcome. The loop from the new state ends
        as the loop from the old one does. */
    method Turn(s: string, i: nat, pb: nat) returns (next: nat, pb': nat, more: bool)
      requires Valid() && Looping(Abs(), s, i, pb) && i < |s| && StackTop(Abs()) != NULL_ID
      modifies this, tmpToken, tmpValue, errorLog, objectStack
      ensures Valid()
      ensures more ==> Looping(Abs(), s, next, pb') && Run(Abs(), s, next, pb') == Run(old(Abs()), s, i, pb)
      ensures more ==> i < next || (i == next && Rank(state) < Rank(old(state)))
      ensures !more ==> Outcome(Abs(), next, false) == Run(old(Abs()), s, i, pb)
    {
      ghost var ps := Abs();
      var index, stepOk := Step(s, i);
      ghost var st := StepResult(Abs(), index, stepOk);
      RunTurns(ps, s, i, pb, st);
      next, pb', more := Settle(s, i, pb, ps, index, stepOk);
    }

    /** The loop body after the step that took ps to the current state: on
        a failed step, or one that raised the flag, the end of the parse
        (with "Out of memory." when the flag is up); otherwise state takes
        next_state, and a newline under the cursor that is not the
        previous break counts a line and becomes the previous break. */
    method Settle(s: string, i: nat, pb: nat, ghost ps: PState, index: nat, stepOk: bool)
      returns (next: nat, pb': nat, more: bool)
      requires Valid() && Looping(ps, s, i, pb) && i < |s| && StackTop(ps) != NULL_ID
      requires Steps(ps, s, i, StepResult(Abs(), index, stepOk))
      modifies this, errorLog
      ensures (Outcome(Abs(), next, more), pb') == Machine.Settle(ps, s, i, pb, old(StepResult(Abs(), index, stepOk)))
      ensures Valid()
    {
      if !stepOk {
        if oom {
          Log(MSG_OOM);
        }
        return index, pb, false;
      }
      if oom {
        Log(MSG_OOM);
        return index, pb, false;
      }
      state := nextState;
      pb' := pb;
      if index < |s| && s[index] == '\n' && pb != index {
        pb' := index;
        lineCount := lineCount + 1;
      }
      next, more := index, true;
    }

    /** rjs_parse_object from index i0: turns while there is text and an
        object on the stack. Stopping with objects still open is an
        error. */
    method ParseObject(s: string, i0: nat) returns (index: nat, ok: bool)
      requires Valid() && Looping(Abs(), s, i0, 0)
      modifies this, tmpToken, tmpValue, errorLog, objectStack
      ensures Outcome(Abs(), index, ok) == Run(old(Abs()), s, i0, 0) && Valid()
    {
      var previousBreak: nat := 0;
      index := i0;
      while index < |s| && TopObject() != NULL_ID
        invariant Valid() && Looping(Abs(), s, index, previousBreak)
        invariant Run(Abs(), s, index, previousBreak) == Run(old(Abs()), s, i0, 0)
        decreases |s| - index, Rank(state)
      {
        var next, pb, more := Turn(s, index, previousBreak);
        if !more {
          return next, false;
        }
        index, previousBreak := next, pb;
      }
      if TopObject() != NULL_ID {
        Log(MSG_CLOSE_OR_COMMA);
        return index, false;
      }
      return index, true;
    }

    // ------------------------------------------------------------ entry

    /** rjs_clean_parser. */
    method Clean()
      requires Valid()
      modifies this
      ensures Abs() == Machine.Clean(old(Abs())) && Valid()
    {
      ghost var ps := Abs();
      top := 0;
      startObject := NULL_ID;
      oom := false;
      tokenPos, valuePos := 0, 0;
      stackTop := -1;
      lineCount := 1;
      heap := Heap([], [], []);
      assert Abs() == ps.(top := 0, startObject := NULL_ID, oom := false, tokenPos := 0, valuePos := 0,
                          stackTop := -1, lineCount := 1, heap := Heap([], [], []));
    }

    /** The start of rjs_parse_string: clean, create the root object, make
        it the main object, push it, and set both state fields to
        SEARCH_OPEN_BRACKET. */
    method Start()
      requires Valid()
      modifies this, objectStack
      ensures Abs() == Started(old(Abs())) && Valid()
    {
      ghost var ps := Abs();
      Clean();
      var root := CreateObj();
      ghost var ps1 := Abs();
      startObject := root;
      var _ := StackPush(root);
      assert Abs() == Arena.StackPush(ps1.(startObject := root), root).0;
      state := SearchOpenBracket;
      nextState := SearchOpenBracket;
    }

    /** rjs_parse_string: the start, then the loop from index 0. */
    method ParseString(s: string) returns (ok: bool)
      requires Valid() && NUL !in s && 1 + Newlines(s, 1) < LINE_LIMIT
      modifies this, tmpToken, tmpValue, errorLog, objectStack
      ensures Abs() == Machine.ParseString(old(Abs()), s).ps && ok == Machine.ParseString(old(Abs()), s).ok && Valid()
    {
      ghost var ps := Abs();
      Start();
      StartedLoops(ps, s);
      var index;
      index, ok := ParseObject(s, 0);
    }
  }
}
