# r_json in Dafny

A model of r_json. r_json is a small JSON reader written in C with no libc
dependency. It parses a document into an object graph. The graph lives in a
memory block that the caller hands over, and the parser hands out space from
it as a bump arena. The model covers the core of `r_json.c` and the
declarations of `r_json.h`:

- **Arena and object graph.** `rjs_alloc`, `rjs_pushstring`, `rjs_create_obj`,
  the object stack and the `rjs_obj_pushkey*` family. The arena is an offset
  counter. Objects and keys live in tables indexed by id, with -1 for NULL,
  and every object carries the ids of its keys in list order.
- **Lexical helpers.** `rjs_isspace`, `rjs_isstartnumber`, `rjs_strncmp`,
  `rjs_strcmp`, `rjs_add_character`, the number converter `rjs_strtod` and
  `rjs_pow`. Doubles are idealised as reals.
- **The parsing state machine.** One `rjs_parse_object_step` per state, the
  `rjs_parse_object` loop, `rjs_clean_parser` and `rjs_parse_string`. Each is
  first written as a function on a value copy of `rjs_parser_t` (`PState`).
  Then the class `Parser.JsonParser` mirrors `rjs_parser_t`: its fields hold
  the scalar members, and arrays hold `tmp_token`, `tmp_value`, `error_log`
  and `object_stack`. Every method of the class updates the fields in place,
  as the C function does. Its contract is that the new state is what the
  value function gives for the old state.
- **Diagnostics.** `rjs_log` writes the message, `" Line: "` and the line
  number in decimal into `error_log`.
- **Read-only queries.** `rjs_get_key`, `rjs_get_key_index`, `rjs_istype` and
  the `rjs_get_v*` getters over a finished graph.

The input text is a string with no NUL. Reading at its length reads the
terminator, which ends the loop.

Files:
- `JsonTypes.dfy`: the declarations of `r_json.h`.
- `Lexical.dfy`: the character and string helpers.
- `Numbers.dfy`: the number converter and the power function.
- `Diagnostics.dfy`: `rjs_log`.
- `Arena.dfy`: the parser record as a value, and the arena, stack and key-list operations.
- `Machine.dfy`: the step functions, the loop and `rjs_parse_string` on values.
- `Parser.dfy`: the class that updates the parser in place.
- `Queries.dfy`: the accessors.

## Model

| member | source | states |
|---|---|---|
| JsonTypes.TypeCode | r_json.h:32-38 | every key type has one of the enumerator codes 0 to 4 |
| JsonTypes.TagIsUnique | r_json.h:84-97 | a value carries exactly one tag, and that tag names the payload it holds |
| Lexical.StrNCmp | r_json.c:405-415 | the result is 0 exactly when the first n characters agree, reading the terminator past the end of a text |
| Lexical.StrNCmpIsStartsWith | r_json.c:405-415 | comparing a literal's length of characters succeeds exactly when the text begins with the literal, even when the text is shorter |
| Lexical.StrCmp | r_json.c:417-427 | the result is 0 exactly when the two texts are equal |
| Lexical.AddChar | r_json.c:265-274 | the buffer and result are those of `AddCharacter`: the character is stored only below position 255; otherwise slot 255 gets the terminator and the result is 0 |
| Lexical.CString | r_json.c:450 | the text a C string function reads is the prefix before the first NUL, with no NUL in it |
| Lexical.FillShape | r_json.c:802-809 | after storing characters one per position, positions below 255 hold them, and a long text leaves the terminator at 255 |
| Lexical.PendingTextIsTruncatedInput | r_json.c:265-274 | a terminated pending name or value holds the first min(n, 255) characters read into it |
| Numbers.Pow | r_json.c:290-325 | square-and-multiply (fast paths for 0, 1 and -1; a negative power goes through the reciprocal) computes x to the power e; the negative power of zero is infinite |
| Numbers.PowRound | r_json.c:314-322 | one round of the loop keeps result times the remaining power unchanged |
| Numbers.PowNegationIsReciprocal | r_json.c:307-310 | a negative power is the reciprocal of the positive one |
| Numbers.StrToD | r_json.c:327-403 | the three-state scanner returns exactly what the grammar function `StrToDSpec` gives for the text |
| Numbers.ScanStart | r_json.c:337-343 | after an optional `-`, the accumulators describe the empty prefix |
| Numbers.ScanNumberDigit | r_json.c:348-350 | a digit of the integer part extends the integer value |
| Numbers.ScanNumberDot | r_json.c:351-353 | `.` moves to the fraction |
| Numbers.ScanNumberMarker | r_json.c:354-357 | `e` or `E` moves to the exponent with exponent 0 |
| Numbers.ScanNumberReject | r_json.c:358-360 | any other character in the integer part means the text is refused |
| Numbers.ScanFractionDigit | r_json.c:365-368 | a fraction digit extends the fraction and divides the scale by 10 |
| Numbers.ScanFractionMarker | r_json.c:369-372 | `e` or `E` ends the fraction |
| Numbers.ScanFractionReject | r_json.c:373-375 | a second `.` or any other character in the fraction means the text is refused |
| Numbers.ScanExponentChar | r_json.c:380-385 | a digit extends the exponent, and a `-` anywhere makes it negative |
| Numbers.ScanExponentReject | r_json.c:386-388 | anything but a digit or `-` after the marker means the text is refused (`+` included) |
| Numbers.ScanEnd | r_json.c:396-400 | at the end of the text the mantissa, raised to the signed exponent unless the exponent is 1, is the specified value |
| Numbers.ScanStep | r_json.c:345-394 | a refused character means the text is refused; an accepted one keeps the scanner invariant |
| Numbers.ScanStepNumber | r_json.c:347-362 | the same for a character of the integer part: a digit, `.`, `e`/`E`, or a refusal |
| Numbers.ScanStepFraction | r_json.c:364-377 | the same for a character of the fraction: a digit, `e`/`E`, or a refusal |
| Numbers.ScanStepExponent | r_json.c:379-390 | the same for a character of the exponent field: a digit, `-`, or a refusal |
| Numbers.ScanFromIsSpec | r_json.c:345-400 | from any point the invariant describes, the scanner ends with the value the grammar assigns to the whole text |
| Numbers.ScanOnIsSpec | r_json.c:345-400 | the same from a point before the end of the text |
| Numbers.ExponentFieldChars | r_json.c:379-390 | an accepted exponent field holds only digits and `-` |
| Numbers.AcceptedLayout | r_json.c:345-394 | an accepted text splits into sign, integer digits, optional `.` and fraction digits, and an optional marker followed by digits and `-` |
| Numbers.StrToDAcceptedChars | r_json.c:345-394 | every character of an accepted number is a digit, `-`, `.`, `e` or `E`, and at most one `.` appears |
| Numbers.StrToDMinusPlacement | r_json.c:340-388 | a `-` that is not the first character comes after an exponent marker |
| Numbers.StrToDExponentIsPower | r_json.c:398-400 | "2e3" is 8: the exponent raises the mantissa to a power |
| Numbers.StrToDPowerOfSignedMantissa | r_json.c:396-400 | "-0.5e2" is 0.25: the power applies to the signed mantissa |
| Numbers.StrToDExponentOneIsSkipped | r_json.c:398 | "2e-1" is 2: an exponent whose digits read 1 is skipped, even when negative |
| Numbers.StrToDEmptyExponent | r_json.c:354-357 | "2e" is 1: an empty exponent is the power 0 |
| Numbers.StrToDLeadingZero | r_json.c:337-338 | the empty text and "01" are refused, while "-01" is -1 |
| Numbers.StrToDSignQuirks | r_json.c:340-345 | a lone "-" is 0, and "1e+2" is refused |
| Diagnostics.Decimal | r_json.c:247-260 | the digits of the line number have no leading zero, and there are none for 0 |
| Diagnostics.DecimalRoundTrip | r_json.c:247-260 | reading the written digits back gives the line number |
| Diagnostics.DigitStep | r_json.c:247-256 | one round of the digit loop writes the next digit, unless it and all digits before it are zero |
| Diagnostics.ErrorTextFits | r_json.c:226-263 | a message of at most 242 characters, with the label and a line below 10^6, fits in the 256-character log with its terminator |
| Diagnostics.Logged | r_json.c:226-263 | the C string left in the log is the message, " Line: " and the decimal line number |
| Diagnostics.CopyText | r_json.c:233-245 | the copy loops write the text from the given position and return its end |
| Diagnostics.WriteDigits | r_json.c:247-260 | the digit loop writes exactly the decimal digits of the line, at most six |
| Diagnostics.LoggedIsPlaced | r_json.c:226-263 | the log after the call is the old buffer with the error text and its terminator placed at the start |
| Diagnostics.WriteLog | r_json.c:226-263 | the three loops and the terminator leave exactly the `Logged` buffer |
| Arena.Alloc | r_json.c:429-441 | fails exactly when top + size exceeds the size, and then only raises the flag; otherwise returns the old top and advances it by exactly size |
| Arena.AllocRegionsDisjoint | r_json.c:429-441 | two successive allocations hand out disjoint regions, and top never moves backwards |
| Arena.Padded | r_json.c:453 | the padded size is a multiple of 4, larger than the text, by at most 4 |
| Arena.PushString | r_json.c:443-464 | the copy is the text itself; it fails exactly when the padded block does not fit, and then raises the flag |
| Arena.CreateObj | r_json.c:466-478 | a new empty non-array object with the next id, or NULL with the flag raised exactly when it does not fit |
| Arena.NewObject | r_json.c:474-475 | the new object has no keys, is not an array, and no existing object changes |
| Arena.SetArray | r_json.c:724 | only the array flag of that object changes |
| Arena.StackPush | r_json.c:480-487 | refused, with nothing changed, exactly when all slots are in use; otherwise the object becomes the new top, and only the stack and its top index change |
| Arena.StackPop | r_json.c:489-496 | refused, with nothing changed, exactly when the stack is empty; otherwise the top is dropped, and only the top index changes |
| Arena.StackTop | r_json.c:498-503 | NULL exactly for an empty stack, otherwise the last object pushed |
| Arena.StackPushPop | r_json.c:480-503 | on a stack with room, a push puts the object on top, and a pop then restores the old stack |
| Arena.LinkKey | r_json.c:505-517 | the key list becomes the old list plus the new key; start_key changes only for an empty object; end_key becomes the new key; other objects are unchanged |
| Arena.LinkKeepsChains | r_json.c:505-517 | after linking, every start_key chain still lists exactly its object's keys |
| Arena.LinkKeepsUnique | r_json.c:505-517 | lists stay free of repeats and no key is shared by two objects |
| Arena.LinkKeepsGraph | r_json.c:505-517 | linking keeps the whole object-graph invariant |
| Arena.NewObjectKeepsGraph | r_json.c:466-478 | creating an object keeps the graph invariant |
| Arena.SetArrayKeepsGraph | r_json.c:722-724 | marking a fresh object as an array keeps the graph invariant |
| Arena.NewKey | r_json.c:519-528 | the key allocation fails exactly when the key does not fit; an array element gets a NULL name, and so does a name whose copy fails, which raises the flag |
| Arena.AddKey | r_json.c:505-517 | the new key goes at the tail of the object's list, and the graph invariant is kept |
| Arena.PushKeyString | r_json.c:519-535 | fails exactly when the key does not fit; otherwise adds a string key holding the text (or NULL when its copy fails, which raises the flag) |
| Arena.PushKeyNumber | r_json.c:537-556 | succeeds exactly when the key fits and the text is a number; a rejected text links nothing, although top has advanced by the key and, for an object whose name copy fit, by the padded name, and the flag is then raised exactly when that name copy was attempted and failed |
| Arena.PushKeyObj | r_json.c:558-574 | fails exactly when the key does not fit; otherwise adds a key whose value refers to the new object |
| Arena.PushKeyBool | r_json.c:576-592 | fails exactly when the key does not fit; otherwise adds a boolean key |
| Arena.PushKeyNull | r_json.c:594-605 | fails exactly when the key does not fit; the name is copied even inside an array |
| Machine.MessagesFit | r_json.c:226-263 | every message the parser logs fits in the log, with the label and six digits |
| Machine.Log | r_json.c:226-263 | only error_log changes, and it holds the message with the current line |
| Machine.OpenBracket | r_json.c:646-659 | blanks and `{` succeed and are consumed, and `{` expects a name next; anything else fails with "Expected open bracket." and leaves the cursor where it was |
| Machine.TokenString | r_json.c:661-680 | `"` starts a name (name position 0, value position -1), `}` is left for SEARCH_END, and anything but a blank fails with "Expected quote." |
| Machine.Colon | r_json.c:682-695 | `:` expects a value next; anything but a blank fails with "Expected colon." |
| Machine.NewChild | r_json.c:722-724 | the child exists exactly when an object fits; it is empty and has the requested array flag |
| Machine.PushChild | r_json.c:711-725 | the child, NULL included, is pushed onto the stack unless all slots are in use; only the arena, the flag and the stack change |
| Machine.OpenValue | r_json.c:711-734 | `[` is consumed and expects a value next; `{` is not consumed and expects its open bracket next; the graph invariant is kept |
| Machine.OpenValueNeedsRoom | r_json.c:711-734 | opening a child fails exactly when the arena cannot hold both the object and its key, and then the flag is up |
| Machine.OpenValueAddsChild | r_json.c:711-721 | with room, the child exists, is on top of the stack, and is linked as the last key of the enclosing object before the brace is consumed |
| Machine.Literal | r_json.c:735-767 | a literal step keeps the graph invariant |
| Machine.LiteralAddsKey | r_json.c:735-767 | the cursor skips the literal's length (stopping at the end of the text); a word that differs changes nothing else; the literal adds its key when the arena has room |
| Machine.SearchValueStep | r_json.c:697-776 | the value step keeps the graph invariant |
| Machine.SearchValueMoves | r_json.c:698-710 | blanks are consumed, `"` starts a string value, a digit or `-` is left for the number state, and `}` or `]` is left for SEARCH_END; none of these touch the arena |
| Machine.SearchValueRejects | r_json.c:771-774 | a character that cannot start a value fails with "Expected value: ..." |
| Machine.SearchValueFailsOnlyOn | r_json.c:711-767 | every other failure of the value step comes with the out-of-memory flag |
| Machine.AddPending | r_json.c:805-808 | only the pending buffers change |
| Machine.ReadString | r_json.c:778-811 | every character is consumed; a closing quote ends a name (which then expects its colon) or stores the value as a string key; failure only when the key does not fit |
| Machine.Escape | r_json.c:815-824 | exactly the letters `" \ / b f n r t` have an escape (`u` has none) |
| Machine.Control | r_json.c:813-841 | a known escape stores its character and returns to the string; anything else fails with "Expected control character." |
| Machine.EndNumber | r_json.c:844-853 | the end of a number keeps the graph invariant |
| Machine.EndNumberAddsKey | r_json.c:844-853 | the number key holds the value the converter reads from the pending text; failure, exactly when the key does not fit or the text is not a number, logs "Error while parsing number." |
| Machine.ReadNumber | r_json.c:843-860 | a blank, `,`, `}` or `]` ends the number without being consumed; any other character is stored and consumed |
| Machine.SearchEndStep | r_json.c:862-899 | `,` expects a name in an object and a value in an array; the matching closer pops; a mismatched closer fails with "Expected square bracket." or "Expected close bracket."; anything else fails |
| Machine.Step | r_json.c:640-903 | every step keeps the parser's shape and the fields the loop owns; it only grows the arena; a step that consumes nothing moves to a lower rank; a failed step has logged a message or raised the flag |
| Machine.NewlinesMonotone | r_json.c:626-629 | fewer newlines lie ahead of a later position |
| Machine.Settle | r_json.c:612-629 | after the step, a failure or a raised flag ends the parse ("Out of memory." when the flag is up); otherwise state takes next_state, and a newline counts once per position |
| Machine.Halt | r_json.c:612-623 | an ended parse returns 0, with "Out of memory." in the log whenever the flag is up |
| Machine.Proceed | r_json.c:625-629 | the line count grows only by newlines under the cursor, bounded by the newlines ahead; the cursor or the rank makes progress |
| Machine.Run | r_json.c:607-638 | the loop ends; success means the stack has no top and error_log is untouched; a failure leaves a message; the line count grows by at most the newlines after the previous break |
| Machine.Advance | r_json.c:610-630 | one turn, and the rest of the loop when it succeeded, ends as `Run` promises |
| Machine.StepKeepsGraph | r_json.c:640-903 | a step keeps the object-graph invariant |
| Machine.RunKeepsGraph | r_json.c:607-638 | the loop keeps the object-graph invariant |
| Machine.StepKeepsNames | r_json.c:640-903 | a step stores only names copied from the pending token, so every stored name stays free of NUL |
| Machine.RunKeepsNames | r_json.c:607-638 | the loop keeps every stored name free of NUL |
| Machine.Clean | r_json.c:137-148 | top goes back to 0 (nothing from an earlier parse survives), with no main object, the flag down, both positions 0, an empty stack and line 1; everything else stays |
| Machine.Started | r_json.c:150-159 | the loop starts in SEARCH_OPEN_BRACKET on line 1 |
| Machine.StartedShape | r_json.c:153-159 | after the start the arena holds only the root, which is the main object and the only stack entry; with too little room NULL is pushed and the flag is up |
| Machine.ParseString | r_json.c:150-161 | the parse leaves a well-formed parser |
| Machine.ParseOutcome | r_json.c:150-161 | success only with every object closed and error_log untouched; a failure leaves a message; too small an arena for the root gives success with no main object; a raised flag means failure with "Out of memory."; the line count stays between 1 and one plus the newlines after index 0 |
| Machine.ParseKeepsGraph | r_json.c:150-161 | the graph the parse leaves is well formed, and array elements have no name unless they are null |
| Machine.ParseKeepsNames | r_json.c:150-161 | whatever the arena held before, the graph a parse leaves is well formed and all its names are C strings: it meets what `Queries.GetKey` requires |
| Machine.StartedLoops | r_json.c:150-160 | the loop starts from the prepared parser with the root on top of the stack |
| Machine.OpenBracketBlankTurn | r_json.c:646-649 | a blank before `{` is consumed and the state stays |
| Machine.OpenBracketBadTurn | r_json.c:654-657 | a character other than a blank or `{` ends the loop with "Expected open bracket." |
| Machine.OpenBracketBlankRun | r_json.c:646-649 | after a blank before `{`, the loop carries on from the next character |
| Machine.OpenBracketBadRun | r_json.c:654-657 | a bad character before `{` fails the parse with "Expected open bracket." |
| Machine.RootMustOpenWithBrace | r_json.c:646-657 | only blanks may come before the root's `{`; the first other character fails the parse |
| Machine.SkipBlankBeforeRoot | r_json.c:646-649 | the inductive step of the root rule: one blank is skipped |
| Machine.StartedNeedsOpenBrace | r_json.c:153-159 | the started parser fails on leading text other than blanks and `{` |
| Machine.RunTurn | r_json.c:610-630 | a successful turn hands the rest of the parse to the loop |
| Machine.OpenBraceTurn | r_json.c:650-653 | `{` is consumed and a name is expected next |
| Machine.NoNameTurn | r_json.c:672-674 | `}` where a name is expected is left for SEARCH_END |
| Machine.CloseBraceTurn | r_json.c:874-883 | `}` closing a non-array pops it, and nothing else changes but the line count |
| Machine.LastCloseRun | r_json.c:632-637 | `}` closing the only open object ends the parse with success right after it |
| Machine.EmptyLastRun | r_json.c:672-674 | `}` where the first name of the only open object is expected closes it with success |
| Machine.BracedEmptyRun | r_json.c:646-674 | "{}" opens and closes the only open object |
| Machine.CommaTurn | r_json.c:866-873 | `,` is consumed and expects a name in an object, a value in an array |
| Machine.NoValueTurn | r_json.c:768-770 | `}` or `]` where a value is expected is left for SEARCH_END and adds nothing |
| Machine.CloserTurn | r_json.c:874-893 | the matching closer is consumed and pops, and nothing else changes |
| Machine.TrailingCommaSkipped | r_json.c:866-893 | a comma followed by the matching closer brings the loop back to SEARCH_END at the closer, with nothing else changed |
| Machine.TrailingCommaCloses | r_json.c:866-893 | a trailing comma before the matching closer is accepted, in objects and arrays alike |
| Machine.MissingValueCloses | r_json.c:768-770 | a closer where a value is expected, as in `{"a":}`, closes the object with no key added |
| Machine.EmptyObjectParses | r_json.c:150-161 | "{}" parses to an empty root, and text after the closing brace is never read |
| Machine.ParseRejectsLeadingJunk | r_json.c:646-657 | a parse whose first non-blank character is not `{` fails with "Expected open bracket." |
| Queries.FirstNamedIsFirst | r_json.h:141-144 | the search result is NULL exactly when no key has the name; otherwise it is the first key that has it |
| Queries.GetKey | r_json.c:171-184 | the walk along the next pointers returns the first key with the name, or NULL |
| Queries.GetKeyIndex | r_json.c:186-198 | returns the key at the zero-based position, and NULL exactly when the position is past the last key |
| Queries.IsTypeExactlyOne | r_json.c:200-204 | a key answers to exactly the code of its payload's type, and a NULL key to none |
| Queries.GetVObj | r_json.c:210-212 | an object key gives the object it holds |
| Queries.GetVString | r_json.c:214-216 | a string key gives the text it holds |
| Queries.GetVNumber | r_json.c:218-220 | a number key gives the number it holds |
| Queries.GetVBool | r_json.c:222-224 | a boolean key gives the boolean it holds |
| Queries.LookupsAgree | r_json.h:141-148 | the key at a position is the one found by its name, unless an earlier key has the same name |
| Parser.JsonParser.constructor | r_json.c:124-135 | the arena has the given size and is empty, and there is no main object |
| Parser.JsonParser.Alloc | r_json.c:429-441 | updates the parser in place to `Arena.Alloc` of the old state |
| Parser.JsonParser.PushString | r_json.c:443-464 | updates the parser in place to `Arena.PushString` of the old state |
| Parser.JsonParser.CreateObj | r_json.c:466-478 | updates the parser in place to `Arena.CreateObj` of the old state |
| Parser.JsonParser.SetArray | r_json.c:724 | updates the parser in place to `Arena.SetArray` of the old state |
| Parser.JsonParser.StackPush | r_json.c:480-487 | writes the stack array and its top as `Arena.StackPush` does |
| Parser.JsonParser.StackPop | r_json.c:489-496 | the new stack top is that of `Arena.StackPop` |
| Parser.JsonParser.TopObject | r_json.c:498-503 | reads the top of the stack array, as `Arena.StackTop` describes |
| Parser.JsonParser.NewKey | r_json.c:519-528 | the key allocation and name copy, as `Arena.NewKey` gives them |
| Parser.JsonParser.ObjPushKey | r_json.c:505-517 | the key is linked at the tail, as `Arena.AddKey` gives it |
| Parser.JsonParser.PushKeyString | r_json.c:519-535 | the new state is `Arena.PushKeyString` of the old one |
| Parser.JsonParser.PushKeyNumber | r_json.c:537-556 | the new state is `Arena.PushKeyNumber` of the old one, using the converter method |
| Parser.JsonParser.PushKeyObj | r_json.c:558-574 | the new state is `Arena.PushKeyObj` of the old one |
| Parser.JsonParser.PushKeyBool | r_json.c:576-592 | the new state is `Arena.PushKeyBool` of the old one |
| Parser.JsonParser.PushKeyNull | r_json.c:594-605 | the new state is `Arena.PushKeyNull` of the old one |
| Parser.JsonParser.Log | r_json.c:226-263 | error_log is written in place to `Machine.Log` of the old state |
| Parser.JsonParser.AddPending | r_json.c:805-808 | the pending buffer is written in place as `Machine.AddPending` gives it |
| Parser.JsonParser.StepOpenBracket | r_json.c:646-659 | the step in place, equal to `Machine.OpenBracket` |
| Parser.JsonParser.StepTokenString | r_json.c:661-680 | the step in place, equal to `Machine.TokenString` |
| Parser.JsonParser.StepColon | r_json.c:682-695 | the step in place, equal to `Machine.Colon` |
| Parser.JsonParser.PushChild | r_json.c:711-725 | create, mark and push in place, equal to `Machine.PushChild` |
| Parser.JsonParser.StepOpenValue | r_json.c:711-734 | the `{` and `[` branches in place, equal to `Machine.OpenValue` |
| Parser.JsonParser.StepLiteral | r_json.c:735-767 | the literal branches, with `StrNCmp`, equal to `Machine.Literal` |
| Parser.JsonParser.StepValue | r_json.c:697-776 | the SEARCH_VALUE step in place, equal to `Machine.SearchValueStep` |
| Parser.JsonParser.StoreValue | r_json.c:787-795 | the closing quote of a value in place, equal to `Machine.ReadString` |
| Parser.JsonParser.StepQuote | r_json.c:779-796 | the closing quote in place, equal to `Machine.ReadString` |
| Parser.JsonParser.StepString | r_json.c:778-811 | the READ_VALUE_STRING step in place, equal to `Machine.ReadString` |
| Parser.JsonParser.StepControl | r_json.c:813-841 | the escape step in place, equal to `Machine.Control` |
| Parser.JsonParser.EndNumber | r_json.c:844-853 | the end of a number in place, equal to `Machine.EndNumber` |
| Parser.JsonParser.StepNumber | r_json.c:843-860 | the READ_VALUE_NUMBER step in place, equal to `Machine.ReadNumber` |
| Parser.JsonParser.StepEnd | r_json.c:862-899 | the SEARCH_END step in place, equal to `Machine.SearchEndStep` |
| Parser.JsonParser.Step | r_json.c:640-903 | the step of the current state in place, equal to `Machine.Step` |
| Parser.JsonParser.Settle | r_json.c:612-629 | the rest of the loop body in place, equal to `Machine.Settle` |
| Parser.JsonParser.Turn | r_json.c:610-630 | after one turn the loop from the new state ends as the loop from the old one; a continuing turn advances the cursor or lowers the rank of the state |
| Parser.JsonParser.ParseObject | r_json.c:607-638 | the loop ends, leaving the parser, index and result that `Machine.Run` gives |
| Parser.JsonParser.Clean | r_json.c:137-148 | the reset in place, equal to `Machine.Clean` |
| Parser.JsonParser.Start | r_json.c:153-159 | clean, create and push the root in place, equal to `Machine.Started` |
| Parser.JsonParser.ParseString | r_json.c:150-161 | the parse in place, equal to `Machine.ParseString`, whose outcome `Machine.ParseOutcome` describes |

## Left out

- IEEE-754 doubles. Numbers are reals, so rounding is not modelled; 2.1 reads as exactly 2.1. The only non-finite value the converter can produce is the reciprocal of zero. It is `Infinite`, and its sign and the sign of zero are not kept.
- Integer widths. `int`, `rjs_size_t` and `char` arithmetic are unbounded. Outside the exponent below, no count in the parser comes near 2^31 under the preconditions that follow.
- Numbers.StrToD: the exponent is a C `int` (r_json.c:334). An exponent field of ten or more digits, such as "1e9999999999", overflows the accumulation at r_json.c:384, and an exponent of -2^31 overflows the negation at r_json.c:309; both are undefined behaviour in C. The model keeps the exact unbounded exponent instead.
- The bytes of the arena. `sizeof`, pointer casts and the copying into the block are left out. Only `top`, the sizes and the object and key tables remain. `OBJECT_SIZE` and `KEY_SIZE` are the LP64 sizes, 24 and 32. The proofs rely on KEY_SIZE >= OBJECT_SIZE: an arena too full for an object is too full for a key, so a child that could not be created is never linked as a NULL object (`Machine.OpenValueNeedsRoom`). With a smaller key the C code would link such NULL children.
- Arena.PushString: the copy of the characters into the block is not kept, only the text the copy holds.
- Machine.Literal: the C cursor skips 4 or 5 characters even past the terminator, which is undefined behaviour. The model stops the cursor at the end of the text.
- Arena.StackPush: the C guard compares `object_stack_top` with 256, so the push onto a full stack writes slot 256, one past the array. In the struct of r_json.h:69-73 that slot lies over `object_stack_top` and `out_of_memory_flag`, so the C overwrites its own stack index with pointer bits. The model refuses the push once all 256 slots are in use, one push earlier.
- Machine.OpenValue: for `[` after a failed `rjs_create_obj`, the C code writes `is_array` through NULL. The model skips the write.
- Diagnostics.WriteLog: requires a message of at most 242 characters and a line number below 10^6. With those the whole text fits, and the loops' breaks at position 255 never fire. A message of 243 to 247 characters is cut at slot 255 by those breaks. One of 248 to 254 characters is cut the same way when the line is below 10^5; otherwise the first digit lands in slot 255 and the rest run past the buffer. A message of 255 or more characters always runs past it, because each loop only tests for equality with 255. A line of 10^6 or more produces a non-digit. None of these cases is modelled.
- Machine.Log: requires one of the parser's own messages, which all fit (`Machine.MessagesFit`), and a line number below 10^6.
- Machine.ParseString: requires fewer than 999,999 newlines after index 0, so the line number stays below 10^6.
- Queries.GetKey: an array element's name is NULL, and `rjs_strcmp` would dereference it. The model never matches such a key. The method requires names without NUL, and every graph a parse leaves has them (`Machine.ParseKeepsNames`).
- `rjs_isvalid` (r_json.c:206-208) compares a pointer with NULL; ids make it `id != NULL_ID`, with no member of its own.
- `rjs_get_error` and `rjs_get_main_object` (r_json.c:163-169) return a field, which the model reads directly (`errorLog`, `startObject`).
- Parser.JsonParser.constructor: `rjs_create_parser` returns 0 for a NULL block, which cannot occur here. The C function leaves the buffers, the stack, the state fields and the line count unset; the model fills the buffers with NUL and starts the rest as `rjs_clean_parser` would.
- The state `RJS_READ_TOKEN_STRING` is declared but never entered by any step, so the state type does not include it.
- The C++ wrapper `r_json_plus.cpp` / `r_json_plus.hpp` and the demo programs `main.c` and `src/main.c` are not part of this model.

### Behaviours of the code worth knowing

Each of these is what the C code does, and the model keeps it, except where an item says otherwise:

- **Arena reuse.** `rjs_clean_parser` resets `memory.top` to 0 (r_json.c:138). Every parse therefore reuses the arena from the start, and the objects of an earlier document are overwritten (`Machine.Clean`).
- **Exponents.** `rjs_strtod` raises the signed mantissa to the power of the exponent (r_json.c:396-400). Section 6 of RFC 8259 instead defines the exponent as a power of ten. So "2e3" is 8 rather than 2000, and "-0.5e2" is 0.25 rather than -50 (`Numbers.StrToDExponentIsPower`, `Numbers.StrToDPowerOfSignedMantissa`). An exponent field whose digits read 1 is skipped, even after a minus sign, so "2e-1" is 2 (`Numbers.StrToDExponentOneIsSkipped`).
- **Names of null array elements.** The comment on `rjs_key_t.name` (r_json.h:99-103) promises that a key of an array has a NULL name. `rjs_obj_pushkey_null` (r_json.c:594-605) copies the pending name buffer even inside an array, so the element of `[null]` carries whatever that buffer holds. The model keeps this (`Arena.PushKeyNull`), and `Machine.ParseKeepsGraph` states the promise only for elements that are not null.
- **Missing values.** A closing bracket where a value is expected ends the object, so `{"x":}` is accepted with no key added (`Machine.MissingValueCloses`). Section 4 of RFC 8259 requires a value after every name separator, so such a text is not JSON.
- **Nesting depth.** The result of `rjs_stack_pushobject` is ignored (r_json.c:156, 713, 725), so nesting deeper than the stack is never reported as an error. The model keeps that. It does not keep what the C does with the push onto a full stack, which writes past the array (see `Arena.StackPush` under "Left out"). In the model that push is refused and the child is simply not pushed (`Machine.PushChild`).
- **Small arenas.** When the arena cannot hold the root object, NULL is pushed, the loop never runs and `rjs_parse_string` returns 1 (`Machine.ParseOutcome`).
