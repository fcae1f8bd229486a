# logdrop core, modelled in Dafny

logdrop is a log shipper. Inputs decode records into JSON values. A
dispatcher drops each record that has no `"message"` field and sends every
other record to all outputs. This project models four parts of it:

- **The streaming JSON reader.** The pull `Parser` turns text into events one
  call of `next` at a time: `null`, `true`, `false`, numbers, strings, and the
  begin and end of arrays and objects. A state and a stack of states track the
  open arrays and objects. The first error breaks the parser for good. The
  `Builder` pulls events from a parser and assembles whole values.
  `Value::find` looks up one member of an object. All of this is in
  `src/logdrop/json.rs`.
- **The file output.** A path template and a message template such as
  `"{source}.log"` are split into literal tokens and placeholder tokens. Each
  placeholder is a `/`-separated key path. Each token is resolved against a
  record (`consume`). The record is then appended to the file its path
  resolves to, and each file is opened once and cached. This is in
  `src/logdrop/output/files.rs`.
- **The Elasticsearch output's batching worker.** Serialized records are
  queued. A full queue of 100 records, or a 3-second timeout, turns the queue
  into one bulk-index body, and a non-empty body is posted. A flush caused by
  a full queue also resets the timer. This is in
  `src/logdrop/output/elasticsearch.rs`.
- **The dispatcher loop** of `run`, in `src/main.rs`.

Each part keeps the source's own form:

- Functions and lemmas model the pure rules.
- Classes model the objects the source updates in place: `JsonParser.Parser`,
  `JsonBuilder.Builder`, `Template.FormatParser`, `FileSink.FileOutput`,
  `Bulk.Batcher` and `Dispatch.Dispatcher`.
- Each method is proved equal to a specification function:
  - `Parser.Next` equals `JsonMachine.Step`;
  - `Builder.Next` equals `JsonBuilder.BuildNext`;
  - `FormatParser.Next` equals `Template.NextToken`;
  - `Consume` equals `TokenText`;
  - `MakeBody` equals `Body`.
- The properties are then proved about those functions.

Layout:

- `wrappers.dfy`: Option and Result.
- `json_value.dfy`: values and `find`.
- `json_lexer.dfy`: characters, numbers, hex and string escapes, by index into the input.
- `json_machine.dfy`: one parse step as a function of position, state and stack.
- `json_parser.dfy`: the imperative `Parser`.
- `json_properties.dfy`: runs of several steps.
- `json_builder.dfy`: `Builder`.
- `json_writer.dfy`: documents written out as text, and the round trip: the
  builder reads a written document back as its value.
- `template.dfy`: `FormatParser` and `consume`.
- `file_output.dfy`: `FileOutput`.
- `bulk.dfy`: the Elasticsearch worker.
- `dispatcher.dfy`: the dispatcher loop of `run`.

### Where the model follows the code rather than the documentation

- **No blanks at top level.** `parse` reads a value only when the state is
  `Undefined` and does not skip blanks. So a top-level document that starts
  with a blank is refused with `ExpectedValue`
  (`JsonProperties.TopLevelRefused`). Only inside arrays and objects are
  blanks skipped.
- **Commas are optional.** Between array elements and between object members
  a comma is skipped when present, and it is not required
  (`JsonProperties.CommaSkipped`, `JsonProperties.ArrayRules`).
- **The exponent's sign is dropped.** It is read and then discarded, so
  `1e-5` reads as `1e+5` (`JsonProperties.ExponentSignDropped`).
- **Number accumulators wrap, as in a release build.** The integer part
  accumulates in a 64-bit unsigned integer and the exponent in a `usize`,
  modelled as 64 bits (`src/logdrop/json.rs:278-279` and `344-345`). The
  model wraps both modulo 2^64 after each multiplication and addition, which
  is what a release build does. A debug build panics on the overflow instead.
- **Files are cached by path.** The source keys its cache by `Path::new` of
  the resolved text (`src/logdrop/output/files.rs:169-170`), not by file
  identity. The model keys the cache by the resolved text, unnormalised.

## Model

| member | source | states |
|---|---|---|
| JsonValue.Find | src/logdrop/json.rs:14-21 | a member is found exactly when the value is an object holding the key, and it is that key's value |
| JsonLexer.SkipWhitespace | src/logdrop/json.rs:458-465 | the index reached is at or after the start, and it is the end of input or holds no space, newline, tab or carriage return |
| JsonLexer.SkipsBlanks | src/logdrop/json.rs:458-465 | every character passed over is a space, newline, tab or carriage return, so the index reached is the first non-blank |
| JsonLexer.Accumulate | src/logdrop/json.rs:274-286 | the accumulator always fits in 64 bits: it wraps after every digit |
| JsonLexer.AccumulateReads | src/logdrop/json.rs:274-286 | a run of digits read into the accumulator gives its decimal value modulo 2^64 |
| JsonLexer.LexInteger | src/logdrop/json.rs:264-291 | a successful integer part has a value below 2^64, uses at least one character and stops at a non-digit |
| JsonLexer.IntegerRead | src/logdrop/json.rs:264-291 | a written integer part with no leading zero (unless it is `0`) is read whole, with its value modulo 2^64 |
| JsonLexer.IntegerRoundTrip | src/logdrop/json.rs:264-291 | the decimal text of any value below 2^64 reads back as that value, ending right after the text |
| JsonLexer.LexFraction | src/logdrop/json.rs:293-315 | a fraction holds only digits; without a `.` it is empty and uses nothing |
| JsonLexer.FractionRead | src/logdrop/json.rs:293-315 | a written `.` followed by digits is read whole as those digits |
| JsonLexer.FractionRoundTrip | src/logdrop/json.rs:293-315 | any digit string written as a fraction reads back as itself |
| JsonLexer.LexExponent | src/logdrop/json.rs:319-354 | an exponent is below 2^64; without `e`/`E` it is 0 and uses nothing |
| JsonLexer.ExponentRead | src/logdrop/json.rs:319-354 | a written `e` followed by digits is read whole, with the digits' value modulo 2^64 |
| JsonLexer.ExponentRoundTrip | src/logdrop/json.rs:319-354 | any exponent below 2^64, written out, reads back as itself |
| JsonLexer.LexNumber | src/logdrop/json.rs:255-356 | a number that is read uses at least one character and stays inside the input |
| JsonLexer.NumberRead | src/logdrop/json.rs:255-371 | a sign, integer part, fraction and exponent written one after the other are read back as that number |
| JsonLexer.NumberRoundTrip | src/logdrop/json.rs:255-371 | any number whose integer part and exponent are below 2^64, written out and followed by a character that cannot continue it, reads back as the same number and ends right after its text |
| JsonLexer.HexQuad | src/logdrop/json.rs:484-509 | four hex digits give a value below 0x10000 and need four characters of input |
| JsonLexer.HexRoundTrip | src/logdrop/json.rs:484-509 | any 16-bit value written as four hex digits reads back as itself |
| JsonLexer.Unescape | src/logdrop/json.rs:397-432 | a decoded escape uses at least one character |
| JsonLexer.LexString | src/logdrop/json.rs:383-447 | a string that is read ends right after a closing quote |
| JsonLexer.LetterRoundTrip | src/logdrop/json.rs:397-406 | a backslash followed by the letter of a simple escape stands for that character, and reading goes on after the two characters |
| JsonLexer.PlainRoundTrip | src/logdrop/json.rs:433-442 | a character that needs no escape is copied as itself |
| JsonLexer.WrittenRoundTrip | src/logdrop/json.rs:383-447 | a string written out character by character reads back as the same text and stops right after the closing quote |
| JsonLexer.QuoteRoundTrip | src/logdrop/json.rs:383-447 | reading a written string at any index gives the same text and stops right after its closing quote |
| JsonLexer.UnterminatedString | src/logdrop/json.rs:387-395 | a string that is never closed fails at the end of input with `EOFWhileParsingObjectKey` for a key and `EOFWhileParsingString` otherwise |
| JsonLexer.HexEscape | src/logdrop/json.rs:407-429 | `\u` fails with `InvalidEscape` without four hex digits, `LoneLeadingSurrogateInHexEscape` for 0xDC00-0xDFFF and `InvalidUnicodeCodePoint` for 0xD800-0xDBFF; any other value is that character |
| JsonLexer.SimpleEscape | src/logdrop/json.rs:397-431 | the eight simple escapes stand for `" \ /`, backspace, form feed, newline, carriage return and tab; any other escaped character fails with `InvalidEscape` |
| JsonMachine.PopConsistent | src/logdrop/json.rs:174-177 | closing an array or object restores the state saved when it opened, and the stack keeps its shape |
| JsonMachine.PushConsistent | src/logdrop/json.rs:143-154 | opening an array or object pushes the current state, and the stack keeps its shape |
| JsonMachine.NumberImpl | src/logdrop/json.rs:255-371 | a number uses at least one character; it never ends at the end of input inside an array or an object value; its errors are only `ToDo`, `EOFWhileParsingArray` and `EOFWhileParsingObjectValue` |
| JsonMachine.ArrayAt | src/logdrop/json.rs:166-192 | after blanks: end of input gives `EOFWhileParsingArray`; `]` pops; a leading `,` gives `ExpectedValueOrArrayEnd`; any later `,` is skipped; anything else is a value read in `ParseArrayMaybe` |
| JsonMachine.ObjectAt | src/logdrop/json.rs:194-223 | after blanks: end of input gives `EOFWhileParsingObject`; `}` pops; `"` starts a key read in `ParseObjectPair`; a leading `,` or any other character gives `ExpectedKeyOrObjectEnd`; any later `,` is skipped |
| JsonMachine.ObjectValueAt | src/logdrop/json.rs:225-243 | after a key: end of input gives `EOFWhileParsingObjectColon`; a missing colon gives `ExpectedColon`; end of input after the colon gives `EOFWhileParsingObjectValue`; otherwise a value is read in `ParseObjectMaybe` |
| JsonMachine.KeywordSound | src/logdrop/json.rs:449-456 | a keyword spelt in full gives its event and keeps the state; a misspelt one breaks the parser |
| JsonMachine.NumberSound | src/logdrop/json.rs:245-253 | a number step gives a number event and keeps the state, or it breaks the parser |
| JsonMachine.StringSound | src/logdrop/json.rs:373-381 | a string step gives a string event and keeps the state, or it breaks the parser |
| JsonMachine.ValueSound | src/logdrop/json.rs:133-159 | a value step never closes a container; `[` and `{` push the current state; any other value keeps it; an error breaks the parser |
| JsonMachine.ArraySound | src/logdrop/json.rs:166-192 | an array step keeps the stack's shape and never gives `ObjectEnd`; a nested container pushes `ParseArrayMaybe`; an element leaves the parser in `ParseArrayMaybe` |
| JsonMachine.ObjectSound | src/logdrop/json.rs:194-223 | an object step gives a key (and goes to `ParseObjectPair`), gives `}` (and pops), or breaks the parser |
| JsonMachine.ObjectValueSound | src/logdrop/json.rs:225-243 | the value after a key is read in `ParseObjectMaybe`, and a nested container pushes that state |
| JsonMachine.StepSound | src/logdrop/json.rs:115-131 | one call of `next`: the stream ends exactly when the state is `Undefined` at the end of input; a broken parser repeats `BrokenParser` and does not move; any other event uses input and keeps the stack's shape |
| JsonParser.Parser.constructor | src/logdrop/json.rs:105-113 | a new parser is at the start of its input in state `Undefined`, with an empty stack |
| JsonParser.Parser.Char | src/logdrop/json.rs:475-477 | the current character, or NUL at the end of input |
| JsonParser.Parser.Eof | src/logdrop/json.rs:471-473 | true exactly at the end of input |
| JsonParser.Parser.Bump | src/logdrop/json.rs:467-469 | advances one character and stays at the end once there |
| JsonParser.Parser.Whitespaces | src/logdrop/json.rs:458-465 | stops at the first non-blank, as `SkipWhitespace` says |
| JsonParser.Parser.Raise | src/logdrop/json.rs:161-164 | breaks the parser and returns the syntax error |
| JsonParser.Parser.Spell | src/logdrop/json.rs:449-450 | true exactly when the rest of the keyword follows, and then it has been read |
| JsonParser.Parser.Complete | src/logdrop/json.rs:449-456 | equals the `Keyword` step |
| JsonParser.Parser.ReadDigits | src/logdrop/json.rs:274-286 | reads the whole digit run and returns the wrapped accumulator |
| JsonParser.Parser.ReadInteger | src/logdrop/json.rs:264-291 | equals `LexInteger` |
| JsonParser.Parser.ReadFraction | src/logdrop/json.rs:293-315 | equals `LexFraction` |
| JsonParser.Parser.ReadExponent | src/logdrop/json.rs:319-354 | equals `LexExponent` |
| JsonParser.Parser.ReadNumber | src/logdrop/json.rs:255-354 | equals `LexNumber` |
| JsonParser.Parser.ParseNumberImpl | src/logdrop/json.rs:255-371 | equals `NumberImpl`, including the end-of-input errors inside containers |
| JsonParser.Parser.ParseNumber | src/logdrop/json.rs:245-253 | equals `NumberStep`: a failure breaks the parser |
| JsonParser.Parser.DecodeHexEscape | src/logdrop/json.rs:484-509 | equals `HexQuad`: four hex digits, otherwise `InvalidEscape` |
| JsonParser.Parser.DecodeEscape | src/logdrop/json.rs:397-432 | equals `Unescape` |
| JsonParser.Parser.ParseStringImpl | src/logdrop/json.rs:383-447 | equals `LexString`, with the key/value distinction at the end of input |
| JsonParser.Parser.ParseString | src/logdrop/json.rs:373-381 | equals `StringStep` |
| JsonParser.Parser.ParseValue | src/logdrop/json.rs:133-159 | equals `ValueStep` |
| JsonParser.Parser.ParseArray | src/logdrop/json.rs:166-192 | equals `ArrayStep` |
| JsonParser.Parser.ParseObject | src/logdrop/json.rs:194-223 | equals `ObjectStep` |
| JsonParser.Parser.ParseObjectValue | src/logdrop/json.rs:225-243 | equals `ObjectValueStep` |
| JsonParser.Parser.Parse | src/logdrop/json.rs:115-131 | equals one `Step` of the machine |
| JsonParser.Parser.Next | src/logdrop/json.rs:515-526 | equals one `Step` of the machine, whose properties `StepSound` gives |
| JsonParser.DigitStep | src/logdrop/json.rs:278-279 | one more digit multiplies the accumulator by ten and adds the digit, wrapping after each operation |
| JsonProperties.Run | src/logdrop/json.rs:515-526 | n calls of `next` give n events and leave a consistent parser |
| JsonProperties.BrokenStep | src/logdrop/json.rs:516-518 | a broken parser answers `BrokenParser` and does not change |
| JsonProperties.BrokenIsAbsorbing | src/logdrop/json.rs:516-518 | a broken parser answers `BrokenParser` to every later call, never `None`, and never moves |
| JsonProperties.ErrorIsFinal | src/logdrop/json.rs:161-164 | after the first error event, every later event is `Error(BrokenParser)` |
| JsonProperties.StackDepth | src/logdrop/json.rs:143-154 | along a run without errors, the stack grows by one at each begin event and shrinks by one at each end event |
| JsonProperties.DocumentComplete | src/logdrop/json.rs:174-177 | a run without errors whose begins and ends balance leaves the parser in `Undefined` with an empty stack |
| JsonProperties.NullDocument | src/logdrop/json.rs:598-604 | `null` gives `NullValue` and then the end of the stream |
| JsonProperties.TwoDocuments | src/logdrop/json.rs:115-123 | a second document directly after the first is read by the same parser |
| JsonProperties.TopLevelKeywords | src/logdrop/json.rs:133-137 | at top level `null`, `true` and `false` must be spelt in full, otherwise `ExpectedValue` breaks the parser |
| JsonProperties.TopLevelRefused | src/logdrop/json.rs:155-157 | at top level, any character that cannot start a value (a blank included) gives `ExpectedValue` |
| JsonProperties.IntegerRules | src/logdrop/json.rs:255-291 | a number needs a digit after its optional `-`, and a leading `0` must not be followed by a digit |
| JsonProperties.FractionAndExponentRules | src/logdrop/json.rs:293-339 | a `.` must be followed by a digit, and an exponent's optional sign must be followed by a digit |
| JsonProperties.DigitsValue | src/logdrop/json.rs:274-286 | the integer accumulator holds the decimal value of the digits modulo 2^64 |
| JsonProperties.NumberValueRule | src/logdrop/json.rs:255-291 | a number is negative exactly when it starts with `-`, and its integer part is the wrapped value of its leading digits |
| JsonProperties.ExponentSignDropped | src/logdrop/json.rs:323-332 | `1e-5` and `1e+5` read as the same number |
| JsonProperties.NumberAtEnd | src/logdrop/json.rs:357-365 | a number that runs to the end of input is an error inside an array or an object value, and a number at top level |
| JsonProperties.ArrayRules | src/logdrop/json.rs:166-192 | the outcomes of an array step (end of input, leading comma, `]`, element), seen through `next` |
| JsonProperties.CommaSkipped | src/logdrop/json.rs:179-186 | after an element or member, a comma is skipped and the step is what it would be after it |
| JsonProperties.ObjectRules | src/logdrop/json.rs:194-223 | the outcomes of an object step (end of input, leading comma, stray character, `}`, key), seen through `next` |
| JsonProperties.ObjectValueRules | src/logdrop/json.rs:225-243 | the three errors after a key: end of input, a missing colon, and end of input after the colon |
| JsonProperties.UnterminatedStrings | src/logdrop/json.rs:387-395 | an unclosed key fails with `EOFWhileParsingObjectKey` and any other unclosed string with `EOFWhileParsingString` |
| JsonBuilder.BuildNext | src/logdrop/json.rs:546-591 | the builder never moves the parser back, keeps it consistent, and uses input for every value it yields |
| JsonBuilder.BuildArray | src/logdrop/json.rs:552-569 | collecting an array keeps the parser consistent and never moves it back |
| JsonBuilder.BuildObject | src/logdrop/json.rs:570-581 | collecting an object keeps the parser consistent and never moves it back |
| JsonBuilder.ValueEvents | src/logdrop/json.rs:133-159 | the events a value can start with, and the state each leaves |
| JsonBuilder.MemberEvents | src/logdrop/json.rs:194-243 | inside an object the next event is a key that leads to a value, or `}`, which pops |
| JsonBuilder.BuildNextShape | src/logdrop/json.rs:546-591 | a yielded value is a whole value: the parser is back at the state after a value with the same stack, and the array flags are unchanged |
| JsonBuilder.BuildArrayShape | src/logdrop/json.rs:552-569 | an array being collected ends by popping the parser stack and its own flag |
| JsonBuilder.BuildObjectShape | src/logdrop/json.rs:570-581 | an object being collected ends by popping the parser stack and leaves the flags as they were |
| JsonBuilder.OneValuePerDocument | src/logdrop/json.rs:546-591 | at top level each yielded value leaves the parser in `Undefined` with empty stacks; `None` comes exactly at the end of input |
| JsonBuilder.BuildNull | src/logdrop/json.rs:1013-1018 | `null` builds `Null`, and the next call yields `None` |
| JsonBuilder.BuildArrayInOrder | src/logdrop/json.rs:552-569 | `[null,true]` builds the list of `Null` and `true`, in document order |
| JsonBuilder.BuildDuplicateKeyOverwrites | src/logdrop/json.rs:570-581 | a key given twice keeps its last value |
| JsonBuilder.Builder.constructor | src/logdrop/json.rs:535-540 | a new builder holds a new parser at the start of its input and no array flags |
| JsonBuilder.Builder.Next | src/logdrop/json.rs:546-591 | equals `BuildNext` on the parser's state and the flags |
| JsonBuilder.Builder.CollectArray | src/logdrop/json.rs:552-569 | the array loop equals `BuildArray` from no elements |
| JsonBuilder.Builder.CollectObject | src/logdrop/json.rs:570-581 | the object loop equals `BuildObject` from no members |
| JsonWriter.ValuesInOrder | src/logdrop/json.rs:552-569 | the values of the first k elements are their meanings, one each, in order |
| JsonWriter.InsertedKeys | src/logdrop/json.rs:570-581 | the keys of the members inserted are exactly the members' keys |
| JsonWriter.InsertedLastWins | src/logdrop/json.rs:570-581 | among the members inserted, a key holds the value of its last member |
| JsonWriter.BuildsDocument | src/logdrop/json.rs:546-591 | a document written where a value is read is built as its meaning, and the builder stops right after its text with both stacks as they were |
| JsonWriter.ArrayBuild | src/logdrop/json.rs:552-569 | a written array is built as the list of its elements' meanings, leaving the parser stack and the flag stack as they were |
| JsonWriter.ObjectBuild | src/logdrop/json.rs:570-581 | a written object is built as its members inserted one after the other into an empty map, leaving both stacks as they were |
| JsonWriter.BuildRoundTrip | src/logdrop/json.rs:546-591 | at the start of the input or between documents, one call of `next` over any written document yields its meaning and stops right after it, between documents again |
| JsonWriter.BuildsListInOrder | src/logdrop/json.rs:552-569 | a written array `[w1,...,wn]` builds a list of n values whose k-th value is the k-th element's meaning |
| JsonWriter.BuildsObjectLastWins | src/logdrop/json.rs:570-581 | a written object builds a map whose keys are exactly the written keys, each holding the value of its last member |
| Template.LiteralStep | src/logdrop/output/files.rs:54-70 | a literal is never empty and uses input; it stops in `ParsePlaceholder` after a `{`, or in `Undefined` only at the end of the template |
| Template.PlaceholderStep | src/logdrop/output/files.rs:72-91 | a placeholder step gives a key path of at least one piece, uses input and returns to `Undefined`, or gives `EOFWhileParsingPlaceholder` and leaves the parser broken at the end of the template |
| Template.Tokens | src/logdrop/output/files.rs:147-153 | no token but the last is an error |
| Template.Lookup | src/logdrop/output/files.rs:115-121 | a failing walk names a key of the path |
| Template.Render | src/logdrop/output/files.rs:123-128 | a value is refused exactly when it is a list or an object, and then with `TypeMismatch` |
| Template.TokenText | src/logdrop/output/files.rs:111-132 | a literal never fails; the answer is `SyntaxError` exactly for an error token; `KeyNotFound` comes only from a placeholder and names a key of its path |
| Template.Split | src/logdrop/output/files.rs:79-81 | a split always has at least one piece |
| Template.JoinSplit | src/logdrop/output/files.rs:79-81 | the pieces joined with `/` give the placeholder text back |
| Template.SplitPieces | src/logdrop/output/files.rs:79-81 | no piece contains a `/` |
| Template.SplitJoin | src/logdrop/output/files.rs:79-81 | slash-free pieces joined with `/` split back into themselves |
| Template.NextToken | src/logdrop/output/files.rs:94-101 | every token other than an error uses input and leaves the parser unbroken; the stream ends exactly in `Undefined` at the end of the template |
| Template.FormatParser.constructor | src/logdrop/output/files.rs:39-44 | a new parser is at the start of its template in state `Undefined` |
| Template.FormatParser.Read | src/logdrop/output/files.rs:47-50 | the next character of the template, or nothing for good at its end |
| Template.FormatParser.Parse | src/logdrop/output/files.rs:46-52 | equals `NextToken` in state `Undefined` |
| Template.FormatParser.ParseLiteral | src/logdrop/output/files.rs:54-70 | equals `LiteralStep`: the literal runs to the next `{` (and switches to `ParsePlaceholder`) or to the end |
| Template.FormatParser.ParsePlaceholder | src/logdrop/output/files.rs:72-91 | equals `PlaceholderStep`: the text up to `}` split on `/`, or the error that breaks the parser |
| Template.FormatParser.Next | src/logdrop/output/files.rs:94-101 | equals `NextToken` |
| Template.PlaceholderUnparse | src/logdrop/output/files.rs:72-83 | a closed placeholder's path joined with `/` between braces is its text in the template |
| Template.StepUnparse | src/logdrop/output/files.rs:46-91 | the text of a token followed by the rest of the template is what was left before it |
| Template.TokensRoundTrip | src/logdrop/output/files.rs:46-101 | tokens without errors, written back, give the rest of the template |
| Template.ErrorIffUnclosed | src/logdrop/output/files.rs:85-88 | the tokens hold an error exactly when a `{` is left without a `}` after it |
| Template.TemplateRoundTrip | src/logdrop/output/files.rs:46-101 | a template with every `{` closed gives tokens without errors, and they give the template back |
| Template.TokenShapes | src/logdrop/output/files.rs:54-91 | every literal is non-empty and holds no `{`, and every key path has at least one piece |
| Template.PlainTemplates | src/logdrop/output/files.rs:210-221 | an empty template has no tokens, and a template without `{` is one literal |
| Template.NestedPlaceholder | src/logdrop/output/files.rs:230-235 | `{id/source}` is the single key path `id`, `source` |
| Template.BrokenRepeats | src/logdrop/output/files.rs:99 | a broken parser answers its error again, for good |
| Template.UnclosedPlaceholder | src/logdrop/output/files.rs:85-88 | a placeholder that is never closed gives `EOFWhileParsingPlaceholder` and breaks the parser |
| Template.CollectNeverEnds | src/logdrop/output/files.rs:147-153 | collecting from a broken parser never ends, however many steps are allowed |
| Template.UnclosedTemplateHangs | src/logdrop/output/files.rs:147-153 | collecting the tokens of `{path` never ends |
| Template.Tokenize | src/logdrop/output/files.rs:147-153 | collects the tokens up to and including the first error |
| Template.Consume | src/logdrop/output/files.rs:111-132 | equals `TokenText`: literals as they are, errors as `SyntaxError`, placeholders by walking the key path |
| Template.LookupConcat | src/logdrop/output/files.rs:115-121 | walking a path in two legs is walking it in one |
| Template.FirstMissingKey | src/logdrop/output/files.rs:116-120 | a walk fails with a key exactly when that key is missing where the walk has got to, after a prefix that succeeds |
| Template.MissingAt | src/logdrop/output/files.rs:116-120 | a failing walk stops at the first key missing on the path |
| Template.ConsumeOneKey | src/logdrop/output/files.rs:111-132 | one key: missing gives `KeyNotFound`; list or object gives `TypeMismatch`; a string gives itself; null and booleans give `null`, `true`, `false` |
| FileSink.Resolve | src/logdrop/output/files.rs:158-167 | a failing template fails with the error of one of its tokens |
| FileSink.ResolveLiterals | src/logdrop/output/files.rs:159-167 | a template without placeholders resolves to its own text for every record |
| FileSink.ResolveFails | src/logdrop/output/files.rs:159-167 | a template fails against a record exactly when one of its tokens does |
| FileSink.ResolvePrefix | src/logdrop/output/files.rs:160-165 | the first failing token decides the error |
| FileSink.FileOutput.constructor | src/logdrop/output/files.rs:147-153 | both templates are tokenized; the cache and the logs start empty |
| FileSink.FileOutput.Assemble | src/logdrop/output/files.rs:158-167 | equals `Resolve`: the tokens' texts in order, or the first error |
| FileSink.FileOutput.Feed | src/logdrop/output/files.rs:157-195 | a path failure changes nothing; a cached path reuses its file; a new path opens one file; a message failure writes nothing but keeps the file; otherwise the message and a newline are written to the path's file; the cache and the opened files stay in step |
| Bulk.MakeBody | src/logdrop/output/elasticsearch.rs:77-85 | equals `Body`: for each record in order, the action line, the record and a newline |
| Bulk.BodyLength | src/logdrop/output/elasticsearch.rs:77-85 | the body is the records' lengths plus 14 characters per record |
| Bulk.Body | src/logdrop/output/elasticsearch.rs:77-90 | the body is empty exactly when the queue is, the only case `send` does not post; otherwise it ends with a newline |
| Bulk.BodyAppend | src/logdrop/output/elasticsearch.rs:77-85 | the body of two queues one after the other is their bodies one after the other |
| Bulk.BodyOne | src/logdrop/output/elasticsearch.rs:80-82 | one record's section is `{"index":{}}`, a newline, the record and a newline |
| Bulk.NothingLost | src/logdrop/output/elasticsearch.rs:55-70 | the bodies posted so far, followed by the queue's body, are the body of everything received |
| Bulk.PostedBodies | src/logdrop/output/elasticsearch.rs:61-67 | the posted bodies one after the other are the body of the posted batches one after the other |
| Bulk.Batcher.constructor | src/logdrop/output/elasticsearch.rs:32-51 | the worker starts with an empty queue and nothing posted, and the timer with one one-shot armed |
| Bulk.Batcher.Send | src/logdrop/output/elasticsearch.rs:87-90 | an empty body is not posted; any other body is posted |
| Bulk.Batcher.ResetTimer | src/logdrop/output/elasticsearch.rs:40-41 | a reset abandons the running one-shot without a timeout and arms a fresh one |
| Bulk.Batcher.Expire | src/logdrop/output/elasticsearch.rs:38-42 | an elapsed one-shot sends `Timeout` and a fresh one is armed |
| Bulk.Batcher.Handle | src/logdrop/output/elasticsearch.rs:55-70 | a chunk is queued at the end; reaching 100 resets the timer, posts exactly the queued records and empties the queue; a timeout posts what is queued (nothing if empty) and empties the queue; nothing is lost or reordered and the queue stays below 100 |
| Bulk.Batcher.Flush | src/logdrop/output/elasticsearch.rs:61-62 | the queue's body is posted unless the queue is empty, the queue is emptied, and nothing received is lost or reordered |
| Bulk.Batcher.Run | src/logdrop/output/elasticsearch.rs:54-71 | over any stream of records and timeouts, the worker has received exactly the records fed, in order, and keeps its invariant |
| Dispatch.AcceptedAppend | src/main.rs:49-71 | filtering two streams one after the other is filtering each in turn |
| Dispatch.AcceptedMembers | src/main.rs:55-58 | a record is forwarded exactly when it was received and has a `"message"` member |
| Dispatch.Accepted | src/main.rs:55-58 | filtering never adds records, and every record it keeps was received and has a `"message"` field |
| Dispatch.Dispatcher.constructor | src/main.rs:36-47 | one empty channel per configured output |
| Dispatch.Dispatcher.Dispatch | src/main.rs:55-70 | a record without `"message"` reaches no channel; any other record is appended, unchanged, to every channel |
| Dispatch.Dispatcher.Run | src/main.rs:49-71 | every output receives exactly the accepted records, in the order they were received |

## Left out

- Floating point. A number is kept as its sign, integer part, fraction digits and exponent. The source instead folds them into an `f64`, and it negates the result for a leading `-`. The `F64` value rendered by `consume` is a parameter, `numberText`.
- JsonLexer.LexNumber: the value of a number is not tied to the `f64` the source computes, only to its parts.
- Error positions and the `IOError` variant: the reader never fails, and the model does not say where in the input an error was found.
- `next_char` past the end of input: after the end, the model's reader stays at the end, as `bump` does.
- Panics in the builder (`unwrap`, `panic!`, `unreachable!`) are the value `Panic`, and nothing is said about what follows one.
- The record type of `src/main.rs` and the `Payload` type of the outputs are both modelled by the JSON `Value` of `src/logdrop/json.rs`. The serializer behind `payload.to_string()` in `src/logdrop/output/elasticsearch.rs` is not part of this model. A record is fed to the batching worker as its text.
- Files: opening and writing them. A file handle is the number of the open, `opens` logs the paths opened, and `written` logs the writes. Opening and writing always succeed: the source unwraps the open, and only logs a failed write.
- Path normalisation: `Path::new` may normalise a path, so two texts the source files under one key are two cache entries here.
- Overflow panics: a debug build of the source panics when a number's integer part or exponent overflows; the model has the release build's wrap-around only.
- The threads, the channels and `select!`. The timer thread is two methods, `ResetTimer` and `Expire`. An elapsed one-shot is an input event of `Batcher.Run`. A `Timeout` reaches the worker at once, so the interleavings of two channels are not modelled. The 3000 ms duration and the clock are not modelled.
- The HTTP request and URL handling after the empty-body guard in `send`: a posted body is logged in `posted`.
- Dispatch.Dispatcher.Dispatch: the order in which one record is sent to the channels is not stated, only that each channel gets one copy.
- Logging and the `warn!`/`log!` messages.
- Template.CollectAsWritten: the source's `collect` is modelled with a fuel bound, because the run it models does not end.

## Findings

| source | as written | input that shows it | evidently intended | confidence | as-written member | corrected member |
|---|---|---|---|---|---|---|
| src/logdrop/output/files.rs:147-153 | `FileOutput::new` collects every token of a `FormatParser`; once broken, the parser yields `Error(EOFWhileParsingPlaceholder)` again on every call and never `None`, so the collection never ends | the path or message template `{path` | stop at the first error, keeping the tokens up to it; `consume` already turns an `Error` token into `SyntaxError` | not executed | Template.UnclosedTemplateHangs | Template.Tokenize |
