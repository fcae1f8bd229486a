/**
 * The streaming JSON parser of src/logdrop/json.rs as a pure state machine.
 *
 * The parser is a pull parser: each call of `next` yields one event and
 * leaves the parser in a new state. A `Machine` holds what determines the
 * next call on the input t: the index `pos` of the first character not yet
 * used, the parser state and the stack of states to return to when an
 * array or object closes. `Step` is one call of `next`; the imperative
 * parser (module JsonParser) is proved to agree with it.
 */
module JsonMachine {
  import opened Wrappers
  import opened JsonValue
  import opened JsonLexer

  /** `ParserState`. */
  datatype ParserState =
    | Undefined         // at the start, or after a complete top-level value
    | Broken            // after any error: every later call fails
    | ParseArray        // just after `[`
    | ParseArrayMaybe   // just after an array element
    | ParseObject       // just after `{`
    | ParseObjectPair   // just after an object key
    | ParseObjectMaybe  // just after an object value

  /** `ParserError`. */
  datatype ParserError = SyntaxError(kind: ErrorKind) | BrokenParser | IOError

  /** `JsonEvent`; a number carries its parts instead of an `f64`. */
  datatype JsonEvent =
    | NullValue
    | BooleanValue(b: bool)
    | NumberValue(n: Number)
    | StringValue(s: string)
    | ArrayBegin
    | ArrayEnd
    | ObjectBegin
    | ObjectEnd
    | Error(err: ParserError)

  datatype Machine = Machine(pos: nat, state: ParserState, stack: seq<ParserState>)

  /** The event of one parse step and the machine after it. */
  datatype Outcome = Outcome(event: JsonEvent, next: Machine)

  /** The parser starts in `Undefined` with an empty stack, before the whole input. */
  const Initial: Machine := Machine(0, Undefined, [])

  /** The states `parse_value` is entered in: these are the ones pushed on the stack. */
  predicate ValueState(st: ParserState) {
    st.Undefined? || st.ParseArrayMaybe? || st.ParseObjectMaybe?
  }

  predicate Container(st: ParserState) {
    st.ParseArrayMaybe? || st.ParseObjectMaybe?
  }

  /**
   * The shape of the state stack: the state is `Undefined` exactly when the
   * stack is empty (no array or object is open), the bottom entry is
   * `Undefined` and every other entry is a container state. This is what
   * makes `self.stack.pop().unwrap()` safe.
   */
  predicate Consistent(state: ParserState, stack: seq<ParserState>) {
    state.Broken? ||
    ((state.Undefined? <==> stack == []) &&
     (stack != [] ==> stack[0].Undefined?) &&
     (forall i :: 0 < i < |stack| ==> Container(stack[i])))
  }

  /** `syntax_error`, and the failing arms of `parse_number` and `parse_string`: the rest of the input no longer matters. */
  function Fail(kind: ErrorKind, t: seq<char>, stack: seq<ParserState>): Outcome {
    Outcome(Error(SyntaxError(kind)), Machine(|t|, Broken, stack))
  }

  /**
   * What every parse step from index i of t promises about its outcome,
   * given the stack it started from: the stack keeps its shape; an error is
   * a syntax error and breaks the parser; any other event uses at least one
   * character, and only `ArrayBegin`, `ObjectBegin` (one push) and
   * `ArrayEnd`, `ObjectEnd` (one pop) touch the stack.
   */
  predicate Sound(t: seq<char>, i: nat, stack: seq<ParserState>, o: Outcome) {
    && Consistent(o.next.state, o.next.stack)
    && (o.event.Error? <==> o.next.state.Broken?)
    && (o.event.Error? ==> o.event.err.SyntaxError? && o.next == Machine(|t|, Broken, stack))
    && i <= o.next.pos <= |t|
    && (!o.event.Error? ==> i < o.next.pos)
    && ((o.event.ArrayBegin? || o.event.ObjectBegin?) ==>
          |o.next.stack| == |stack| + 1 && o.next.stack[..|stack|] == stack)
    && (o.event.ArrayBegin? ==> o.next.state.ParseArray?)
    && (o.event.ObjectBegin? ==> o.next.state.ParseObject?)
    && ((o.event.ArrayEnd? || o.event.ObjectEnd?) ==>
          stack != [] && o.next.stack == stack[..|stack| - 1] && o.next.state == stack[|stack| - 1])
    && (!o.event.Error? && !o.event.ArrayBegin? && !o.event.ObjectBegin? && !o.event.ArrayEnd? && !o.event.ObjectEnd? ==>
          o.next.stack == stack)
  }

  /** Closing an array or object returns to the state saved when it opened. */
  lemma PopConsistent(stack: seq<ParserState>)
    requires stack != [] && Consistent(ParseArray, stack)
    ensures Consistent(stack[|stack| - 1], stack[..|stack| - 1])
  {
  }

  /** Opening an array or object from a value state pushes that state. */
  lemma PushConsistent(st: ParserState, stack: seq<ParserState>, next: ParserState)
    requires ValueState(st) && Consistent(st, stack) && !next.Undefined?
    ensures Consistent(next, stack + [st])
  {
  }

  /** `complete` at index i: the rest of a keyword must follow its first letter. */
  function Keyword(t: seq<char>, i: nat, rest: string, event: JsonEvent, st: ParserState, stack: seq<ParserState>): Outcome {
    if Reads(t, i + 1, rest) then Outcome(event, Machine(i + 1 + |rest|, st, stack))
    else Fail(ExpectedValue, t, stack)
  }

  /**
   * `parse_number_impl` at index i: the number there and the index after
   * it, or the kind of error: a malformed number (which the source reports
   * as `ToDo`), or the end of input right after the number inside an array
   * or an object value.
   */
  function NumberImpl(t: seq<char>, i: nat, st: ParserState): (r: Result<(Number, nat), ErrorKind>)
    requires i <= |t|
    ensures r.Ok? ==> i < r.value.1 <= |t|
    ensures r.Ok? && r.value.1 == |t| ==> !st.ParseArrayMaybe? && !st.ParseObjectMaybe?
    ensures r.Err? ==> r.error == ToDo || r.error == EOFWhileParsingArray || r.error == EOFWhileParsingObjectValue
  {
    match LexNumber(t, i)
    case NumberErr => Err(ToDo)
    case NumberOk(n, end) =>
      if end == |t| && st.ParseArrayMaybe? then Err(EOFWhileParsingArray)
      else if end == |t| && st.ParseObjectMaybe? then Err(EOFWhileParsingObjectValue)
      else Ok((n, end))
  }

  /** `parse_number`: a failure breaks the parser. */
  function NumberStep(t: seq<char>, i: nat, st: ParserState, stack: seq<ParserState>): Outcome
    requires i <= |t|
  {
    match NumberImpl(t, i, st)
    case Err(kind) => Fail(kind, t, stack)
    case Ok((n, end)) => Outcome(NumberValue(n), Machine(end, st, stack))
  }

  /**
   * `parse_string`, with the opening quote at index i. A string read in the
   * `ParseObjectPair` state is an object key.
   */
  function StringStep(t: seq<char>, i: nat, st: ParserState, stack: seq<ParserState>): Outcome
    requires i < |t|
  {
    match LexString(t, i + 1, st.ParseObjectPair?)
    case StringErr(e) => Fail(e, t, stack)
    case StringOk(s, end) => Outcome(StringValue(s), Machine(end, st, stack))
  }

  /** `parse_value`, entered in state st at index i, which is not the end of input. */
  function ValueStep(t: seq<char>, i: nat, st: ParserState, stack: seq<ParserState>): Outcome
    requires i < |t|
  {
    match t[i]
    case 'n' => Keyword(t, i, "ull", NullValue, st, stack)
    case 't' => Keyword(t, i, "rue", BooleanValue(true), st, stack)
    case 'f' => Keyword(t, i, "alse", BooleanValue(false), st, stack)
    case '"' => StringStep(t, i, st, stack)
    case '[' => Outcome(ArrayBegin, Machine(i + 1, ParseArray, stack + [st]))
    case '{' => Outcome(ObjectBegin, Machine(i + 1, ParseObject, stack + [st]))
    case _ =>
      if t[i] == '-' || IsDigit(t[i]) then NumberStep(t, i, st, stack)
      else Fail(ExpectedValue, t, stack)
  }

  /**
   * `parse_array(first)` from index i: blanks are skipped; `]` closes the
   * array; a comma is refused right after `[` and otherwise skipped (so
   * repeated and trailing commas are accepted and none is required);
   * anything else is the next element.
   */
  function ArrayStep(t: seq<char>, i: nat, first: bool, stack: seq<ParserState>): Outcome
    requires i <= |t| && stack != []
    decreases |t| - i
  {
    var j := SkipWhitespace(t, i);
    if j == |t| then Fail(EOFWhileParsingArray, t, stack)
    else if t[j] == ']' then Outcome(ArrayEnd, Machine(j + 1, stack[|stack| - 1], stack[..|stack| - 1]))
    else if t[j] == ',' then
      if first then Fail(ExpectedValueOrArrayEnd, t, stack)
      else ArrayStep(t, j + 1, false, stack)
    else ValueStep(t, j, ParseArrayMaybe, stack)
  }

  /**
   * `parse_object(first)` from index i: blanks are skipped; `}` closes the
   * object; a quote starts a key; a comma is refused right after `{` and
   * otherwise skipped; anything else is refused.
   */
  function ObjectStep(t: seq<char>, i: nat, first: bool, stack: seq<ParserState>): Outcome
    requires i <= |t| && stack != []
    decreases |t| - i
  {
    var j := SkipWhitespace(t, i);
    if j == |t| then Fail(EOFWhileParsingObject, t, stack)
    else if t[j] == '}' then Outcome(ObjectEnd, Machine(j + 1, stack[|stack| - 1], stack[..|stack| - 1]))
    else if t[j] == '"' then StringStep(t, j, ParseObjectPair, stack)
    else if t[j] == ',' then
      if first then Fail(ExpectedKeyOrObjectEnd, t, stack)
      else ObjectStep(t, j + 1, false, stack)
    else Fail(ExpectedKeyOrObjectEnd, t, stack)
  }

  /** `parse_object_value` from index i: blanks, a colon, blanks, then the value. */
  function ObjectValueStep(t: seq<char>, i: nat, stack: seq<ParserState>): Outcome
    requires i <= |t|
  {
    var j := SkipWhitespace(t, i);
    if j == |t| then Fail(EOFWhileParsingObjectColon, t, stack)
    else if t[j] != ':' then Fail(ExpectedColon, t, stack)
    else
      var k := SkipWhitespace(t, j + 1);
      if k == |t| then Fail(EOFWhileParsingObjectValue, t, stack)
      else ValueStep(t, k, ParseObjectMaybe, stack)
  }

  // The arms of the container steps, one lemma each, as the imperative parser meets them.

  lemma ArrayAt(t: seq<char>, i: nat, first: bool, stack: seq<ParserState>, j: nat)
    requires i <= |t| && stack != [] && Consistent(ParseArray, stack) && j == SkipWhitespace(t, i)
    ensures j == |t| ==> ArrayStep(t, i, first, stack) == Fail(EOFWhileParsingArray, t, stack)
    ensures j < |t| && t[j] == ']' ==>
      ArrayStep(t, i, first, stack) == Outcome(ArrayEnd, Machine(j + 1, stack[|stack| - 1], stack[..|stack| - 1]))
    ensures j < |t| && t[j] == ',' && first ==> ArrayStep(t, i, first, stack) == Fail(ExpectedValueOrArrayEnd, t, stack)
    ensures j < |t| && t[j] == ',' && !first ==> ArrayStep(t, i, first, stack) == ArrayStep(t, j + 1, false, stack)
    ensures j < |t| && t[j] != ']' && t[j] != ',' ==> ArrayStep(t, i, first, stack) == ValueStep(t, j, ParseArrayMaybe, stack)
  {
  }

  lemma ObjectAt(t: seq<char>, i: nat, first: bool, stack: seq<ParserState>, j: nat)
    requires i <= |t| && stack != [] && Consistent(ParseObject, stack) && j == SkipWhitespace(t, i)
    ensures j == |t| ==> ObjectStep(t, i, first, stack) == Fail(EOFWhileParsingObject, t, stack)
    ensures j < |t| && t[j] == '}' ==>
      ObjectStep(t, i, first, stack) == Outcome(ObjectEnd, Machine(j + 1, stack[|stack| - 1], stack[..|stack| - 1]))
    ensures j < |t| && t[j] == '"' ==> ObjectStep(t, i, first, stack) == StringStep(t, j, ParseObjectPair, stack)
    ensures j < |t| && t[j] == ',' && first ==> ObjectStep(t, i, first, stack) == Fail(ExpectedKeyOrObjectEnd, t, stack)
    ensures j < |t| && t[j] == ',' && !first ==> ObjectStep(t, i, first, stack) == ObjectStep(t, j + 1, false, stack)
    ensures j < |t| && t[j] != '}' && t[j] != '"' && t[j] != ',' ==>
      ObjectStep(t, i, first, stack) == Fail(ExpectedKeyOrObjectEnd, t, stack)
  {
  }

  lemma ObjectValueAt(t: seq<char>, i: nat, stack: seq<ParserState>, j: nat)
    requires i <= |t| && stack != [] && Consistent(ParseObjectPair, stack) && j == SkipWhitespace(t, i)
    ensures j == |t| ==> ObjectValueStep(t, i, stack) == Fail(EOFWhileParsingObjectColon, t, stack)
    ensures j < |t| && t[j] != ':' ==> ObjectValueStep(t, i, stack) == Fail(ExpectedColon, t, stack)
    ensures j < |t| && t[j] == ':' && SkipWhitespace(t, j + 1) == |t| ==>
      ObjectValueStep(t, i, stack) == Fail(EOFWhileParsingObjectValue, t, stack)
    ensures j < |t| && t[j] == ':' && SkipWhitespace(t, j + 1) < |t| ==>
      ObjectValueStep(t, i, stack) == ValueStep(t, SkipWhitespace(t, j + 1), ParseObjectMaybe, stack)
  {
  }

  /**
   * One call of `next` on the input t. A broken parser answers
   * `BrokenParser` and stays as it is; in `Undefined` the end of input ends
   * the stream; otherwise the state selects the parse step.
   */
  function Step(t: seq<char>, m: Machine): (Option<JsonEvent>, Machine)
    requires m.pos <= |t| && Consistent(m.state, m.stack)
  {
    match m.state
    case Broken => (Some(Error(BrokenParser)), m)
    case Undefined =>
      if m.pos == |t| then (None, m)
      else var o := ValueStep(t, m.pos, Undefined, m.stack); (Some(o.event), o.next)
    case ParseArray => var o := ArrayStep(t, m.pos, true, m.stack); (Some(o.event), o.next)
    case ParseArrayMaybe => var o := ArrayStep(t, m.pos, false, m.stack); (Some(o.event), o.next)
    case ParseObject => var o := ObjectStep(t, m.pos, true, m.stack); (Some(o.event), o.next)
    case ParseObjectMaybe => var o := ObjectStep(t, m.pos, false, m.stack); (Some(o.event), o.next)
    case ParseObjectPair => var o := ObjectValueStep(t, m.pos, m.stack); (Some(o.event), o.next)
  }

  // ------------------------------------------------------------ soundness

  lemma KeywordSound(t: seq<char>, i: nat, rest: string, event: JsonEvent, st: ParserState, stack: seq<ParserState>)
    requires i < |t| && Consistent(st, stack) && !st.Broken? && (event.NullValue? || event.BooleanValue?)
    ensures var o := Keyword(t, i, rest, event, st, stack);
      Sound(t, i, stack, o) && (!o.event.Error? ==> o.event == event && o.next.state == st)
  {
  }

  lemma NumberSound(t: seq<char>, i: nat, st: ParserState, stack: seq<ParserState>)
    requires i < |t| && Consistent(st, stack) && !st.Broken?
    ensures var o := NumberStep(t, i, st, stack);
      Sound(t, i, stack, o) && (!o.event.Error? ==> o.event.NumberValue? && o.next.state == st)
  {
  }

  lemma StringSound(t: seq<char>, i: nat, st: ParserState, stack: seq<ParserState>)
    requires i < |t| && Consistent(st, stack) && !st.Broken?
    ensures var o := StringStep(t, i, st, stack);
      Sound(t, i, stack, o) && (!o.event.Error? ==> o.event.StringValue? && o.next.state == st)
  {
  }

  /**
   * A value in state st: opening a container pushes st; every other event
   * that is not an error leaves the state at st; a value never closes a
   * container.
   */
  lemma ValueSound(t: seq<char>, i: nat, st: ParserState, stack: seq<ParserState>)
    requires i < |t| && ValueState(st) && Consistent(st, stack)
    ensures var o := ValueStep(t, i, st, stack);
      && Sound(t, i, stack, o)
      && (o.event.ArrayBegin? || o.event.ObjectBegin? ==> o.next.stack == stack + [st])
      && (!o.event.Error? && !o.event.ArrayBegin? && !o.event.ObjectBegin? ==> o.next.state == st)
      && !o.event.ArrayEnd? && !o.event.ObjectEnd?
  {
    match t[i]
    case 'n' => KeywordSound(t, i, "ull", NullValue, st, stack);
    case 't' => KeywordSound(t, i, "rue", BooleanValue(true), st, stack);
    case 'f' => KeywordSound(t, i, "alse", BooleanValue(false), st, stack);
    case '"' => StringSound(t, i, st, stack);
    case '[' => PushConsistent(st, stack, ParseArray);
    case '{' => PushConsistent(st, stack, ParseObject);
    case _ =>
      if t[i] == '-' || IsDigit(t[i]) {
        NumberSound(t, i, st, stack);
      }
  }

  /**
   * An array step: an element is read in `ParseArrayMaybe` (a nested
   * container pushes it), and only `]` pops the stack.
   */
  lemma {:induction false} ArraySound(t: seq<char>, i: nat, first: bool, stack: seq<ParserState>)
    requires i <= |t| && stack != [] && Consistent(ParseArray, stack)
    ensures var o := ArrayStep(t, i, first, stack);
      && Sound(t, i, stack, o)
      && (o.event.ArrayBegin? || o.event.ObjectBegin? ==> o.next.stack == stack + [ParseArrayMaybe])
      && (!o.event.Error? && !o.event.ArrayBegin? && !o.event.ObjectBegin? && !o.event.ArrayEnd? ==>
            o.next.state.ParseArrayMaybe?)
      && !o.event.ObjectEnd?
    decreases |t| - i
  {
    var j := SkipWhitespace(t, i);
    if j == |t| {
    } else if t[j] == ']' {
      PopConsistent(stack);
    } else if t[j] == ',' {
      if !first {
        ArraySound(t, j + 1, false, stack);
      }
    } else {
      ValueSound(t, j, ParseArrayMaybe, stack);
    }
  }

  /** An object step: the next event is a key, read in `ParseObjectPair`, or `}`, which pops the stack. */
  lemma {:induction false} ObjectSound(t: seq<char>, i: nat, first: bool, stack: seq<ParserState>)
    requires i <= |t| && stack != [] && Consistent(ParseObject, stack)
    ensures var o := ObjectStep(t, i, first, stack);
      && Sound(t, i, stack, o)
      && (!o.event.Error? && !o.event.ObjectEnd? ==> o.event.StringValue? && o.next.state.ParseObjectPair?)
    decreases |t| - i
  {
    var j := SkipWhitespace(t, i);
    if j == |t| {
    } else if t[j] == '}' {
      PopConsistent(stack);
    } else if t[j] == '"' {
      StringSound(t, j, ParseObjectPair, stack);
    } else if t[j] == ',' {
      if !first {
        ObjectSound(t, j + 1, false, stack);
      }
    }
  }

  /** The value after a key is read in `ParseObjectMaybe`, and a nested container pushes it. */
  lemma ObjectValueSound(t: seq<char>, i: nat, stack: seq<ParserState>)
    requires i <= |t| && stack != [] && Consistent(ParseObjectPair, stack)
    ensures var o := ObjectValueStep(t, i, stack);
      && Sound(t, i, stack, o)
      && (o.event.ArrayBegin? || o.event.ObjectBegin? ==> o.next.stack == stack + [ParseObjectMaybe])
      && (!o.event.Error? && !o.event.ArrayBegin? && !o.event.ObjectBegin? ==> o.next.state.ParseObjectMaybe?)
      && !o.event.ArrayEnd? && !o.event.ObjectEnd?
  {
    var j := SkipWhitespace(t, i);
    ObjectValueAt(t, i, stack, j);
    if j < |t| && t[j] == ':' && SkipWhitespace(t, j + 1) < |t| {
      ValueSound(t, SkipWhitespace(t, j + 1), ParseObjectMaybe, stack);
    }
  }

  /**
   * One call of `next`: the machine stays within the input and keeps the
   * stack's shape; the stream ends (`None`) exactly at the end of input in
   * `Undefined`, and then nothing moves; a broken parser answers
   * `BrokenParser` and does not move; any other step is sound.
   */
  lemma StepSound(t: seq<char>, m: Machine)
    requires m.pos <= |t| && Consistent(m.state, m.stack)
    ensures var r := Step(t, m);
      && r.1.pos <= |t| && Consistent(r.1.state, r.1.stack)
      && (r.0.None? <==> m.state.Undefined? && m.pos == |t|)
      && (m.state.Broken? ==> r == (Some(Error(BrokenParser)), m))
      && (!m.state.Broken? && r.0.Some? ==> Sound(t, m.pos, m.stack, Outcome(r.0.value, r.1)))
      && (r.0.None? ==> r.1 == m)
  {
    match m.state
    case Broken =>
    case Undefined =>
      if m.pos < |t| {
        ValueSound(t, m.pos, Undefined, m.stack);
      }
    case ParseArray => ArraySound(t, m.pos, true, m.stack);
    case ParseArrayMaybe => ArraySound(t, m.pos, false, m.stack);
    case ParseObject => ObjectSound(t, m.pos, true, m.stack);
    case ParseObjectMaybe => ObjectSound(t, m.pos, false, m.stack);
    case ParseObjectPair => ObjectValueSound(t, m.pos, m.stack);
  }
}
