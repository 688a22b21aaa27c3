# lom parser combinators in Dafny

This project models the parser-combinator engine of lom, a C host with Lua bindings, and proves properties of that model.

A parser is a refcounted node of one kind:
- literal, any_char, identifier;
- map, and_then, pred (each retains a Lua callback);
- or_else, left, right;
- one_or_more, zero_or_more.

Parsing a C string from a cursor yields a flag, the rest, and an output. There are two engines:

- `src/parser.c` keeps each output in the Lua registry and returns its integer handle (`lua_ref`). Repetitions build a Lua table.
- `parser_lua.h` is the older sibling. Its outputs are malloc'd C strings owned by the caller. It has no left/right. Its identifier does not accept `_`. Its repetitions concatenate into a buffer that doubles its capacity as needed.

`make_indent` from `src/utils.h` is modelled as well.

Modules:

- `Lexing` (lexing.dfy): byte-level matching shared by both engines.
  - exact prefix match;
  - the UTF-8 lead-byte width table of any_char (section 3 of RFC 3629 masks);
  - the maximal-run identifier scan, with the scanning loop as a method;
  - `CPrefix`, the bytes a C function sees of a Lua string.
- `Indent` (indent.dfy): `make_indent`.
- `LuaRegistry` (registry.dfy): the Lua values a parse handles. `Registry` is a class for `luaL_ref`, `lua_rawgeti` and `luaL_unref`, with `LUA_NOREF = -2` and `LUA_REFNIL = -1`.
- `Nodes` (nodes.dfy): the node graph as a class.
  - It covers `parser_new`, `parser_ref`, `parser_unref`, `make_*` and `*_destroy`, and the refcount effect of the Lua userdata (`push_parser_ud`, `__gc`, the Lua-facing constructors).
  - Its invariant counts references exactly: a node's refcount equals its parents' references plus the references held outside the graph.
  - Children are older than their parents.
- `HandleEngine` (handle_engine.dfy): the parse functions of `src/parser.c`.
  - `Run` and its per-kind functions give the meaning of a parse over values: the outcome, plus how many registry slots it leaks.
  - Every parse method is proved to produce exactly that outcome. It leaves every earlier slot untouched, puts a non-nil output in one new slot (a nil output of a success gets `LUA_REFNIL` and no slot), and adds exactly the leaked slots.
- `HandleLaws` (handle_laws.dfy): what the combinators of `src/parser.c` promise, as lemmas over `Run`.
- `CMemory` (c_memory.dfy): the C heap of owned strings, and the repetition buffer with its capacity growth.
- `StringEngine` (string_engine.dfy): the parse functions of `parser_lua.h` and its `parse` entry point. Every parse method is proved to leave the heap as it found it, plus exactly its output block on success. No path leaks.
- `StringLaws` (string_laws.dfy): what the combinators of `parser_lua.h` promise, as lemmas over the string `Run`.

Termination: a parse is given `fuel`, one unit per node entered. A repetition whose inner parser succeeds without consuming input makes the C loop spin forever. The model reports that case, and running out of fuel, as `OutOfFuel` (the methods return `exhausted`).

## Model

| member | source | states |
|---|---|---|
| Lexing.CPrefix | parser_lua.h:689-692 | the C view of a Lua string is a NUL-free prefix of it that stops at the first NUL |
| Lexing.LeadWidth | src/parser.c:85-94 | the width is 1 for bytes 0x00-0x7F, 2 for 0xC0-0xDF, 3 for 0xE0-0xEF, 4 for 0xF0-0xF7 and 1 for every other byte |
| Lexing.AnyCharEndAsWritten | src/parser.c:80-102 | any_char as written fails exactly on the empty input and otherwise moves the cursor by the lead byte's width, with no bound check |
| Lexing.AnyCharAsWrittenOverruns | src/parser.c:80-102 | on the one-byte input 0xC3 the as-written any_char ends at 2, past the terminator |
| Lexing.AnyCharEnd | src/parser.c:80-102 | the corrected end fails exactly at the terminator and never passes it; it agrees with the as-written end whenever the character fits, and stops at the terminator when it does not |
| Lexing.RunEnd | src/parser.c:124-131 | the scan ends at the first byte that is not a tail byte (or at the terminator), and every byte before it is a tail byte |
| Lexing.IdentifierEnd | src/parser.c:110-137 | identifier fails exactly on the empty input or a non-alphanumeric first byte; otherwise it ends after the maximal run of tail bytes |
| Lexing.IdentifierEndUnique | src/parser.c:110-137 | any end that satisfies the maximal-run conditions is the identifier end |
| Lexing.ScanIdentifier | src/parser.c:115-131 | the while loop finds an identifier exactly when the maximal-run function does, and at the same end |
| Indent.IndentWidth | src/utils.h:8-14 | the width is at most 63; it is 0 when level*4 is not positive, level*4 when that fits, and 63 when level*4 exceeds it |
| Indent.NegativeLevelIsEmpty | src/utils.h:10-11 | a negative level gives an empty indent |
| Indent.DeepLevelIsCapped | src/utils.h:13-14 | any level of 16 or more gives exactly 63 spaces |
| Indent.MakeIndent | src/utils.h:7-20 | the buffer holds IndentWidth(level) spaces followed by the terminator at index n |
| LuaRegistry.Registry.Get | src/parser.c:207-212 | lua_rawgeti yields the stored value, or nil for a handle that holds none |
| LuaRegistry.Registry.Ref | src/parser.c:57-58 | luaL_ref gives nil LUA_REFNIL and no slot; any other value gets a fresh positive handle holding it, and every other slot is unchanged |
| LuaRegistry.Registry.Unref | src/parser.c:169-171 | luaL_unref removes exactly that handle; negative handles change nothing |
| Nodes.Graph.New | src/parser.c:17-31 | a new node gets the next id with refcount 1, owned by its creator; the refcount invariant is kept |
| Nodes.Graph.Install | src/parser.c:24-29 | the fields parser_new sets: the node is the given kind under the next id, its count is 1, its children's holds pass to it and the creator holds it |
| Nodes.Graph.Ref | src/parser.c:33-36 | parser_ref adds one to the node's count and one outside holder, and nothing else changes |
| Nodes.Graph.Make | src/parser.c:376-386 | make_* references each child once, then creates the node; each child's count rises by the number of times the kind names it |
| Nodes.Graph.RefChildren | src/parser.c:379-383 | the children are referenced once each, left before right |
| Nodes.Graph.RefPair | src/parser.c:284-289 | the two children of or_else/left/right gain one reference each, left before right, even when they are the same node |
| Nodes.Graph.ReleasePair | src/parser.c:273-282 | the two child references of a binary node are dropped, left before right; the nodes left keep their kinds, and exactly the callback handles of the nodes the cascade frees are released |
| Nodes.Graph.ReleaseOne | src/parser.c:495-502 | the one child reference of map, and_then, pred or a repetition is dropped; exactly the callback handles of the nodes the cascade frees are released |
| Nodes.Graph.Unref | src/parser.c:39-50 | parser_unref drops one holder; above 1 it only decrements the count and touches no registry slot; at 1 the node is destroyed, the nodes left keep their kinds, and the registry loses exactly the callback handles of the freed nodes, nothing else (parser_unref in parser_lua.h, lines 92-99, is the same decrement, with teardown through parser_free_internal) |
| Nodes.Graph.Decrement | src/parser.c:43-44 | the count drops by one and the invariant is kept |
| Nodes.Graph.Destroy | parser_lua.h:539-572 | the teardown removes the node, releases its callback handle (map, and_then, pred) and drops its references to its children, which may cascade; the registry loses exactly the callback handles of the freed nodes, and every other slot stays |
| Nodes.Graph.Free | src/parser.c:179-190 | the node leaves the graph, its callback handle is released if it retains one, and its child references pass to the destroy |
| Nodes.Graph.ReleaseChildren | src/parser.c:363-374 | each child reference is dropped once, left before right; exactly the callback handles of the freed nodes are released |
| Nodes.FreedHandle | src/parser.c:179-190 | freeing one node takes away exactly its own callback handle (none for a kind without a callback), because no other live node shares it |
| Nodes.ReleasesCompose | src/parser.c:186-187 | a destroy followed by the cascade into its children releases the handles of every node freed by either, and no others |
| Nodes.PushUserdata | src/parser.c:529-536 | the new userdata owns one more reference to the node |
| Nodes.CollectUserdata | src/parser.c:676-683 | __gc drops the userdata's reference once and clears the pointer, releasing exactly the callback handles of the nodes that frees; a second collection leaves the graph and the registry unchanged |
| Nodes.Construct | src/parser.c:653-662 | after make, push_parser_ud and parser_unref, the new node has count 1, held only by its userdata, and its children gained one reference each |
| HandleEngine.Run | src/parser.h:27-54 | whatever the node's kind, a finished parse ends between the cursor and the terminator, and a failure carries no output |
| HandleEngine.RunLiteral | src/parser.c:52-64 | a literal parse ends within the input, a failure has no output, and it leaks nothing |
| HandleEngine.RunAnyChar | src/parser.c:80-102 | an any_char parse ends within the input, a failure has no output, and it leaks nothing |
| HandleEngine.RunIdentifier | src/parser.c:110-137 | an identifier parse ends within the input, a failure has no output, and it leaks nothing |
| HandleEngine.RunMap | src/parser.c:146-177 | a finished map parse ends between the cursor and the terminator, and its failures carry no output |
| HandleEngine.RunAndThen | src/parser.c:200-243 | a finished and_then parse ends between the cursor and the terminator, and its failures carry no output |
| HandleEngine.RunOrElse | src/parser.c:265-271 | a finished or_else parse ends between the cursor and the terminator, and its failures carry no output |
| HandleEngine.RunPred | src/parser.c:293-317 | a finished pred parse ends between the cursor and the terminator, and its failures carry no output |
| HandleEngine.RunSeq | src/parser.c:338-408 | a finished left/right parse ends between the cursor and the terminator, and its failures carry no output |
| HandleEngine.Many | src/parser.c:466-493 | a finished repetition always succeeds with a table that begins with the items collected before, and ends between the cursor and the terminator |
| HandleEngine.RunOneOrMore | src/parser.c:435-464 | a finished one_or_more parse ends between the cursor and the terminator; a success has consumed input and holds at least one item |
| HandleEngine.RunZeroOrMore | src/parser.c:466-493 | a finished zero_or_more parse never fails |
| HandleEngine.Register | src/parser.c:57-58 | registering an output adds exactly its slot, fresh, and keeps the graph invariant |
| HandleEngine.Release | src/parser.c:350-351 | releasing a successful result's handle removes exactly its output's slot |
| HandleEngine.Parse | src/parser.h:14-28 | a parse yields the flag and rest of Run; the registry keeps every earlier slot, holds the output in a fresh slot, and has exactly Run's leak count of extra slots; node refcounts are unchanged |
| HandleEngine.ParseLiteral | src/parser.c:52-64 | literal_parse does what RunLiteral says to the result and the registry |
| HandleEngine.ParseAnyChar | src/parser.c:80-102 | any_char_parse, clamped at the terminator, does what RunAnyChar says |
| HandleEngine.ParseIdentifier | src/parser.c:110-137 | identifier_parse does what RunIdentifier says |
| HandleEngine.Output | src/parser.c:209-212 | the callback argument is the value under the handle, or nil |
| HandleEngine.Invoke | src/parser.c:207-214 | the callback is the function retained by the node, called on the inner output |
| HandleEngine.ParseMap | src/parser.c:146-177 | map_parse does what RunMap says, including the leaked inner slot when the callback raises |
| HandleEngine.ParsePred | src/parser.c:293-317 | pred_parse does what RunPred says, including the leaked inner slot on a falsy answer or an error |
| HandleEngine.ParseAndThen | src/parser.c:200-243 | and_then_parse does what RunAndThen says, including the leaked inner slot on an error or a non-parser |
| HandleEngine.ParseHeld | src/parser.c:233-236 | after parser_ref the continuation's count is one higher and the caller holds it; the parse then behaves as Run says on the grammar as it was |
| HandleEngine.ParseContinuation | src/parser.c:233-237 | the continuation's refcount is the same after parser_ref, parse and parser_unref |
| HandleEngine.ParseOrElse | src/parser.c:265-271 | or_parse does what RunOrElse says |
| HandleEngine.ParseSeq | src/parser.c:338-408 | left_parse and right_parse release the dropped handle on success and the left handle when right fails |
| HandleEngine.ParseLeft | src/parser.c:338-361 | left_parse does what RunLeft says |
| HandleEngine.ParseRight | src/parser.c:388-408 | right_parse does what RunRight says |
| HandleEngine.TakeItem | src/parser.c:480-486 | moving an item into the table reads its output and releases its slot |
| HandleEngine.Collect | src/parser.c:474-492 | the repetition loop does what Many says: items in order, every item slot released, one slot for the table |
| HandleEngine.ParseZeroOrMore | src/parser.c:466-493 | zero_or_more_parse does what RunZeroOrMore says |
| HandleEngine.ParseOneOrMore | src/parser.c:435-464 | one_or_more_parse does what RunOneOrMore says |
| HandleEngine.ManyLeaks | src/parser.c:474-489 | slots leaked before a repetition step are carried through the rest of the loop unchanged |
| HandleLaws.LiteralMatchesPrefix | src/parser.c:52-64 | literal succeeds iff the input at the cursor starts with it; then the rest is cursor + length and the output is the literal; otherwise it fails at the cursor; it never leaks |
| HandleLaws.LiteralAbcOnAbcdef | tests/test_parser.c:17-22 | literal('abc') on "abcdef" gives output "abc" and rest 3 ("def") |
| HandleLaws.AnyCharTakesOneCharacter | src/parser.c:80-102 | any_char fails exactly at the terminator, and otherwise outputs the lead byte's width of bytes (clamped) |
| HandleLaws.IdentifierTakesMaximalRun | src/parser.c:110-137 | identifier succeeds iff the first byte is alphanumeric; its output is the maximal run of alphanumerics, '-' and '_' |
| HandleLaws.OrElseLeftBiased | src/parser.c:265-271 | a left success is returned unchanged; after a left failure the right result from the original cursor is returned; or_else succeeds iff either side does |
| HandleLaws.LeftRightAgree | src/parser.c:338-408 | left and right agree on flag, rest and leaks, and keep the left and the right output respectively |
| HandleLaws.SequenceReleasesDroppedOutput | src/parser.c:347-358 | after a left success, the sequence leaks only what its halves leaked and ends where the right half ends |
| HandleLaws.PredKeepsOrFailsAtCursor | src/parser.c:293-317 | a pred success is the inner result itself with a truthy answer; a failure is either the inner failure or at the original cursor |
| HandleLaws.PredRejectLeaks | src/parser.c:306-316 | a falsy answer or an error fails at the cursor and leaks the inner output's slot |
| HandleLaws.MapCallbackErrorLeaks | src/parser.c:161-167 | a raising map callback fails at the cursor and leaks the inner output's slot; otherwise the result keeps the inner rest and holds the callback's value |
| HandleLaws.AndThenContinuesOrLeaks | src/parser.c:214-242 | a live parser returned by the callback continues from the inner rest and its result is returned; an error or a non-parser fails at the cursor and leaks the inner slot |
| HandleLaws.ManyKeepsItems | src/parser.c:474-489 | the items collected so far begin the table the repetition returns |
| HandleLaws.OneOrMoreFirstFailure | src/parser.c:441-443 | a failed first attempt is returned verbatim |
| HandleLaws.OneOrMoreAtLeastOne | src/parser.c:445-463 | a one_or_more success holds at least one item, the first attempt's output first, and ends no earlier than it |
| HandleLaws.ZeroOrMoreNeverFails | src/parser.c:466-493 | zero_or_more never fails; zero matches give an empty table at the original cursor |
| HandleLaws.OneOrMoreIsZeroOrMoreAfterFirst | src/parser.c:435-493 | once the first attempt succeeds, one_or_more and zero_or_more give the same outcome |
| HandleLaws.PrependItemsTwice | src/parser.c:474-489 | putting items b and then items a in front is putting a + b in front, with the leaks added |
| HandleLaws.ManyPrependsItems | src/parser.c:474-489 | the items and leaks collected before a repetition step are put in front of what the loop collects from there on |
| HandleLaws.ZeroOrMoreCollects | src/parser.c:466-493 | zero_or_more never fails; a failed first attempt gives an empty table at the cursor; a consuming first success gives its output followed by the items from its rest, with the same rest and its leaks added |
| HandleLaws.OneOrMoreCollects | src/parser.c:435-464 | after a consuming first success, one_or_more is that output followed by the items zero_or_more collects from its rest, with the same rest |
| HandleLaws.RepetitionEndsAtFailure | src/parser.c:474-489 | a finished repetition's rest is where the inner parser fails: one more attempt from there fails |
| HandleLaws.OneOrMoreAOnAaab | src/parser.c:435-464 | one_or_more(literal "a") on "aaab" gives three "a" items with rest 3 and no leaks |
| HandleLaws.CallbackFreeNoLeaks | src/parser.c:338-493 | a grammar without map, and_then or pred leaks no registry slot |
| HandleLaws.SeqNoLeaks | src/parser.c:338-408 | left and right over callback-free parsers leak nothing |
| HandleLaws.ManyNoLeaks | src/parser.c:474-489 | a repetition over a callback-free parser leaks nothing |
| CMemory.Heap.Dup | parser_lua.h:109-118 | strdup gives a fresh non-NULL block holding the copy, and every other block is unchanged |
| CMemory.Heap.Free | parser_lua.h:240 | free removes exactly that block; free(NULL) does nothing |
| CMemory.GrownCap | parser_lua.h:451-458 | the grown capacity is at least the old one and at least what is needed |
| CMemory.DoublingOfDoubled | parser_lua.h:451-458 | a doubling of a doubling is a doubling |
| CMemory.GrownCapIsLeastDoubling | parser_lua.h:451-458 | the grown capacity is the old one doubled zero or more times, and when it grew it is less than twice the need |
| CMemory.Buffer.constructor | parser_lua.h:446-448 | a new buffer is empty with capacity 64 |
| CMemory.Buffer.Terminate | parser_lua.h:492 | buf[len] = '\0' keeps the contents |
| CMemory.Buffer.Realloc | parser_lua.h:453 | realloc keeps the contents in a larger block |
| CMemory.Buffer.Append | parser_lua.h:450-461 | appending makes the contents the old contents followed by the string, keeps buf[len] = '\0', and sets the capacity to the doubling GrownCap gives |
| StringEngine.MappedOutput | parser_lua.h:244-245 | a string result gives a NUL-free prefix of it, as a C string; any other result gives "" |
| StringEngine.Run | parser_lua.h:39-63 | whatever the node's kind, a finished parse ends between the cursor and the terminator, fails with no output, and outputs a C string |
| StringEngine.RunLiteral | parser_lua.h:109-118 | a literal parse ends within the input, outputs a C string, and fails with no output |
| StringEngine.RunAnyChar | parser_lua.h:142-162 | an any_char parse ends within the input, outputs a C string, and fails with no output |
| StringEngine.RunIdentifier | parser_lua.h:178-206 | an identifier parse ends within the input, outputs a C string, and fails with no output |
| StringEngine.RunMap | parser_lua.h:225-249 | a finished map parse ends within the input and its output is a C string |
| StringEngine.RunAndThen | parser_lua.h:282-319 | a finished and_then parse ends within the input and its output is a C string |
| StringEngine.RunOrElse | parser_lua.h:351-357 | a finished or_else parse ends within the input and its output is a C string |
| StringEngine.RunPred | parser_lua.h:387-408 | a finished pred parse ends within the input and its output is a C string |
| StringEngine.Many | parser_lua.h:493-511 | a finished repetition succeeds, and its output starts with what was concatenated before |
| StringEngine.RunOneOrMore | parser_lua.h:439-485 | a finished one_or_more parse ends within the input |
| StringEngine.RunZeroOrMore | parser_lua.h:486-513 | a finished zero_or_more parse never fails |
| StringEngine.Parse | parser_lua.h:20-40 | a parse yields Run's flag and rest; on success the heap gains exactly one block, the output; on failure the output is NULL and the heap is unchanged; refcounts and the registry are unchanged |
| StringEngine.ParseLiteral | parser_lua.h:109-118 | literal_parse does what RunLiteral says to the result and the heap |
| StringEngine.ParseAnyChar | parser_lua.h:142-162 | any_char_parse, clamped at the terminator, does what RunAnyChar says |
| StringEngine.ParseIdentifier | parser_lua.h:178-206 | identifier_parse does what RunIdentifier says |
| StringEngine.Invoke | parser_lua.h:233-235 | the callback is the node's retained function, called on the output as a Lua string |
| StringEngine.ParseMap | parser_lua.h:225-249 | map_parse does what RunMap says and frees the inner output on both paths |
| StringEngine.ParsePred | parser_lua.h:387-408 | pred_parse does what RunPred says and frees a rejected output |
| StringEngine.ParseAndThen | parser_lua.h:282-319 | and_then_parse does what RunAndThen says and frees the inner output on every path |
| StringEngine.ParseHeld | parser_lua.h:312-315 | after parser_ref the continuation's count is one higher and the caller holds it; the parse then behaves as Run says on the grammar as it was |
| StringEngine.ParseContinuation | parser_lua.h:312-316 | the continuation's refcount is the same after parser_ref, parse and parser_unref |
| StringEngine.ParseOrElse | parser_lua.h:351-357 | or_parse does what RunOrElse says |
| StringEngine.Repeat | parser_lua.h:465-484 | the repetition loop does what Many says: every item output is appended in order and freed, and the buffer is the one new block |
| StringEngine.Absorb | parser_lua.h:469-482 | an item's output is appended to the buffer and then freed |
| StringEngine.ParseZeroOrMore | parser_lua.h:486-513 | zero_or_more_parse does what RunZeroOrMore says |
| StringEngine.ParseOneOrMore | parser_lua.h:439-485 | one_or_more_parse does what RunOneOrMore says |
| StringEngine.LuaParse | parser_lua.h:689-703 | parse returns the output as a string and the rest on success, nil and the rest on failure, and leaves the heap exactly as it found it |
| StringLaws.LiteralCopiesLiteral | parser_lua.h:109-118 | literal succeeds iff the input starts with it and outputs a copy; otherwise it fails at the cursor with a NULL output |
| StringLaws.IdentifierStopsAtUnderscore | parser_lua.h:178-206 | identifier succeeds iff the first byte is alphanumeric, and consumes the maximal run of alphanumerics and '-' |
| StringLaws.IdentifierOnAUnderscoreB | parser_lua.h:193-199 | on "a_b" the identifier outputs "a" and stops at '_' |
| StringLaws.OrElseLeftBiased | parser_lua.h:351-357 | a left success is returned unchanged; otherwise the right result from the original cursor is returned; or_else succeeds iff either side does |
| StringLaws.MapOutputsCallbackString | parser_lua.h:225-249 | a raising callback fails at the cursor; a string result becomes the output (up to its first NUL); any other result gives ""; the rest is the inner rest |
| StringLaws.PredKeepsOrFailsAtCursor | parser_lua.h:387-408 | a truthy answer returns the inner result unchanged; a falsy answer or an error fails at the original cursor |
| StringLaws.AndThenContinuesFromRest | parser_lua.h:282-319 | a live parser returned by the callback parses from the inner rest and its result is returned as it is; otherwise and_then fails at the cursor |
| StringLaws.ManyPrepends | parser_lua.h:493-511 | what the loop concatenated before is put in front of what it adds |
| StringLaws.PrependTwice | parser_lua.h:478-480 | putting b then a in front is putting a + b in front |
| StringLaws.ZeroOrMoreConcatenates | parser_lua.h:486-513 | zero_or_more never fails; zero matches give "" at the cursor; otherwise its output is the first attempt's output followed by zero_or_more's output from that rest |
| StringLaws.OneOrMoreFirstFailure | parser_lua.h:442-444 | a failed first attempt is returned verbatim |
| StringLaws.OneOrMoreIsZeroOrMoreAfterFirst | parser_lua.h:439-513 | once the first attempt succeeds, one_or_more and zero_or_more give the same outcome |

## Left out

- RunOneOrMore: its own contract states only that a success consumed input and holds at least one item. Which items, and where the repetition stops, are stated by HandleLaws.OneOrMoreCollects, HandleLaws.ZeroOrMoreCollects and HandleLaws.RepetitionEndsAtFailure.
- HandleEngine.Run is defined on any byte sequence. The laws in HandleLaws assume a C string (no NUL before the end), as `luaL_checkstring` supplies one.
- HandleEngine.ParseAnyChar: models the corrected any_char, which clamps at the terminator. See Findings.
- StringEngine.ParseAnyChar: the same correction, applied to the same overrun in `memcpy(out, input, len)` at parser_lua.h:142-162.
- HandleEngine.Parse and StringEngine.Parse: only terminating parses are characterised. Running out of fuel, or an inner parser that succeeds without consuming input inside a repetition (where the C loops forever), is reported as exhausted, with no claim about the state.
- Lua callbacks are pure functions of the callback value and the argument; `None` stands for a raised error. Callbacks cannot create or collect parsers, or change the registry, during a parse.
- and_then: a returned Parser userdata whose node was already collected counts as "not a parser" in the model. In the C it would be a NULL dereference.
- Lua numbers are not among the modelled values. So `lua_tostring` converting a number result of a map callback (parser_lua.h:244) is not modelled; such a result is treated as a non-string, giving "".
- The Lua registry never reuses a released handle (the Lua free list is not modelled). Handles are fresh positive integers.
- The `l_parser_*` bindings of `src/parser.c` are not modelled, apart from the refcount effects of the constructors (`Nodes.Construct`) and of `__gc`. That includes `l_parser_parse`, which never releases the handle of a successful result.
- `luaopen_parser`, the metatable, `__tostring`, `check_parser_ud` and the Lua argument checks are not modelled. `StringEngine.LuaParse` requires a live userdata.
- Literal nodes take the literal as given. The `strdup` of the constructor argument, which truncates at a NUL, is not modelled.
- The malloc/realloc failure paths with `exit`, and the unused `malloc` in any_char at src/parser.c:96, are left out.
- `isalnum` is ASCII `[0-9A-Za-z]`; locales are not modelled.
- Integers are unbounded: `level * 4` overflow in make_indent and `size_t` overflow of the buffer capacity are not modelled.
- The pair combinator is declared in src/parser.h but never defined.
- effect.c, inspect.c, main.c, lom.c and the tests are not part of this model. The stale header comment about repetition concatenating strings (src/parser.h:182-186) is not followed: src/parser.c builds a table.
- Error messages written to stderr, and the Lua stack pushes and pops, are not modelled.

## Findings

| source | as written | input that shows it | evidently intended | confidence | as-written member | corrected member |
|---|---|---|---|---|---|---|
| src/parser.c:80-102 | any_char moves the cursor by the lead byte's width (and pushes that many bytes) without checking that the bytes are there | the one-byte input 0xC3 at cursor 0: the width is 2, so rest points one past the terminator and the output reads it | consume at most the bytes before the terminator | high; not executed | Lexing.AnyCharAsWrittenOverruns | Lexing.AnyCharEnd |
