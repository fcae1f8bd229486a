/**
 * `Parser` of src/logdrop/json.rs as a class over its own fields: the
 * reader (it has yielded the first `pos` characters of `input`), the
 * current character `ch` (`None` once the reader is exhausted), the
 * `handled` flag (the current character has been used and the next call
 * must move past it), the state and the state stack. Every method follows
 * its Rust counterpart step by step and is proved against the pure machine
 * of module JsonMachine: `Next` changes the abstract machine exactly as
 * `Step` does.
 *
 * Positions are tracked by `cursor`, the index in `input` of the current
 * character; what a reading method takes is stated as where it leaves the
 * cursor, in terms of the readers of module JsonLexer.
 */
module JsonParser {
  import opened Wrappers
  import opened JsonValue
  import opened JsonLexer
  import opened JsonMachine

  /** One more digit: the accumulator wraps around after the multiplication and after the addition. */
  lemma DigitStep(t: seq<char>, i: nat, j: nat)
    requires i <= j < |t| && Digits(t, i, j) && IsDigit(t[j])
    ensures Digits(t, i, j + 1)
    ensures Accumulate(t, i, j + 1) == Wrap(Wrap(Accumulate(t, i, j) * 10) + DigitValue(t[j]))
  {
    WrapAdd(Accumulate(t, i, j) * 10, DigitValue(t[j]));
  }

  /** A digit run goes on past a digit and ends at a non-digit. */
  lemma RunStep(t: seq<char>, i: nat, j: nat)
    requires i <= j <= |t| && DigitRun(t, i) == DigitRun(t, j)
    ensures IsDigit(At(t, j)) ==> j < |t| && DigitRun(t, i) == DigitRun(t, j + 1)
    ensures !IsDigit(At(t, j)) ==> DigitRun(t, i) == j
  {
  }

  /** A blank run goes on past a blank and ends at anything else. */
  lemma BlankStep(t: seq<char>, i: nat, j: nat)
    requires i <= j <= |t| && SkipWhitespace(t, i) == SkipWhitespace(t, j)
    ensures IsWhitespace(At(t, j)) ==> j < |t| && SkipWhitespace(t, i) == SkipWhitespace(t, j + 1)
    ensures !IsWhitespace(At(t, j)) ==> SkipWhitespace(t, i) == j
  {
  }

  /** A value read while a string is being read: the text copied so far followed by the rest. */
  function Shift(prefix: string, r: StringLex): StringLex {
    if r.StringOk? then StringOk(prefix + r.s, r.end) else r
  }

  lemma ShiftPrepend(prefix: string, c: char, r: StringLex)
    ensures Shift(prefix, Prepend(c, r)) == Shift(prefix + [c], r)
  {
    if r.StringOk? {
      assert prefix + ([c] + r.s) == prefix + [c] + r.s;
    }
  }

  /** An ordinary character of a string is copied. */
  lemma CharAdvance(t: seq<char>, k: nat, key: bool, prefix: string)
    requires k < |t| && t[k] != '"' && t[k] != '\\'
    ensures Shift(prefix, LexString(t, k, key)) == Shift(prefix + [t[k]], LexString(t, k + 1, key))
  {
    ShiftPrepend(prefix, t[k], LexString(t, k + 1, key));
  }

  /** The closing quote ends a string. */
  lemma QuoteAdvance(t: seq<char>, k: nat, key: bool, prefix: string)
    requires k < |t| && t[k] == '"'
    ensures Shift(prefix, LexString(t, k, key)) == StringOk(prefix, k + 1)
  {
    assert prefix + "" == prefix;
  }

  /** A backslash at k - 1 and the escape after it. */
  lemma EscapeAdvance(t: seq<char>, k: nat, key: bool)
    requires 0 < k < |t| && t[k - 1] == '\\'
    ensures var esc := Unescape(t, k);
      && (esc.EscapeErr? ==> LexString(t, k - 1, key) == StringErr(esc.e))
      && (esc.EscapeOk? ==> LexString(t, k - 1, key) == Prepend(esc.c, LexString(t, esc.end, key)))
  {
  }

  /** A decoded escape is copied, and the text after it is read next. */
  lemma EscapeCopy(t: seq<char>, k: nat, key: bool, prefix: string)
    requires 0 < k < |t| && t[k - 1] == '\\' && Unescape(t, k).EscapeOk?
    ensures Shift(prefix, LexString(t, k - 1, key)) == Shift(prefix + [Unescape(t, k).c], LexString(t, Unescape(t, k).end, key))
  {
    EscapeAdvance(t, k, key);
    ShiftPrepend(prefix, Unescape(t, k).c, LexString(t, Unescape(t, k).end, key));
  }

  /** The end of input inside a string, also right after a backslash. */
  lemma EofAdvance(t: seq<char>, key: bool)
    ensures LexString(t, |t|, key) == StringErr(EofInString(key))
    ensures |t| > 0 && t[|t| - 1] == '\\' ==> LexString(t, |t| - 1, key) == StringErr(EofInString(key))
  {
  }

  /** A value is read after an object key in the state that follows an object value. */
  lemma PairToMaybe(stack: seq<ParserState>)
    requires Consistent(ParseObjectPair, stack)
    ensures Consistent(ParseObjectMaybe, stack)
  {
  }

  /**
   * The loop of `parse_string_impl` so far, with the cursor at c: `result`
   * holds the text copied, `from` is where the rest starts (the cursor, or
   * the backslash just before it when an escape is pending), and reading
   * the string from there after `result` gives the string the loop started
   * on.
   */
  ghost predicate Copied(t: seq<char>, c: nat, goal: StringLex, key: bool, result: string, escape: bool, from: nat) {
    && from <= c <= |t|
    && (if escape then from + 1 == c && t[from] == '\\' else from == c)
    && goal == Shift(result, LexString(t, from, key))
  }

  class Parser {
    /** The characters the reader yields, in order. */
    const input: seq<char>
    /** How many of them it has yielded. */
    var pos: nat
    var ch: Option<char>
    var handled: bool
    var state: ParserState
    var stack: seq<ParserState>
    /** The index in `input` of the current character (`|input|` at the end of input). */
    ghost var cursor: nat

    /**
     * The reader is fused (once it has returned `None` it is exhausted) and
     * `ch` is the last character it returned; the NUL that `new` puts in
     * `ch` precedes the input.
     */
    ghost predicate Reading()
      reads this
    {
      && pos <= |input|
      && (ch.None? ==> pos == |input|)
      && (ch.Some? && pos > 0 ==> ch.value == input[pos - 1])
      && cursor == if ch.Some? && pos > 0 then pos - 1 else pos
    }

    /** `ch` is a character of the input or its end: true after the first `bump`. */
    ghost predicate Current()
      reads this
    {
      Reading() && (pos > 0 || ch.None?)
    }

    ghost predicate Valid()
      reads this
    {
      Reading() && (!handled ==> Current()) && Consistent(state, stack)
    }

    /**
     * The parser as a machine: the next character to look at is the
     * current one, or the one after it once the current one is handled;
     * once broken, the position no longer matters.
     */
    ghost function Abs(): Machine
      reads this
      requires Reading()
    {
      Machine(if state.Broken? then |input| else if handled then pos else cursor, state, stack)
    }

    /** `Parser::new`: a NUL current character that is already handled, state `Undefined`, no open container. */
    constructor (input: seq<char>)
      ensures Valid() && this.input == input && Abs() == Initial
    {
      this.input := input;
      pos := 0;
      cursor := 0;
      ch := Some('\0');
      handled := true;
      state := Undefined;
      stack := [];
    }

    /** `char`: the current character, NUL at the end of input. */
    function Char(): (c: char)
      reads this
      requires Reading()
      ensures Current() ==> c == At(input, cursor)
    {
      if ch.Some? then ch.value else '\0'
    }

    /** `eof`. */
    function Eof(): (b: bool)
      reads this
      requires Reading()
      ensures Current() ==> (b <==> cursor == |input|)
    {
      ch.None?
    }

    /** `bump`: take the next character from the reader. */
    method Bump()
      requires Reading()
      modifies this`ch, this`pos, this`cursor
      ensures Current() && cursor == old(pos)
      ensures old(Current()) ==> cursor == if old(cursor) < |input| then old(cursor) + 1 else |input|
    {
      cursor := pos;
      if pos < |input| {
        ch := Some(input[pos]);
        pos := pos + 1;
      } else {
        ch := None;
      }
    }

    /** `whitespaces`: skip blanks. */
    method Whitespaces()
      requires Current()
      modifies this`ch, this`pos, this`cursor
      ensures Current() && cursor == SkipWhitespace(input, old(cursor))
    {
      ghost var c0 := cursor;
      while IsWhitespace(Char())
        invariant Current() && c0 <= cursor <= |input|
        invariant SkipWhitespace(input, c0) == SkipWhitespace(input, cursor)
        decreases |input| - cursor
      {
        BlankStep(input, c0, cursor);
        Bump();
      }
      BlankStep(input, c0, cursor);
    }

    /** `syntax_error`: break the parser and report the error. */
    method Raise(kind: ErrorKind) returns (e: JsonEvent)
      modifies this`state
      ensures state.Broken? && e == Error(SyntaxError(kind))
    {
      state := Broken;
      e := Error(SyntaxError(kind));
    }

    /** The letters of a keyword after its first: each must be the next character. */
    method Spell(ident: string) returns (ok: bool)
      requires Current() && cursor < |input|
      requires forall k :: 0 <= k < |ident| ==> ident[k] != '\0'
      modifies this`ch, this`pos, this`cursor
      ensures Current()
      ensures ok <==> Reads(input, old(cursor) + 1, ident)
      ensures ok ==> cursor == old(cursor) + |ident|
    {
      ghost var c0 := cursor;
      var i := 0;
      while i < |ident|
        invariant 0 <= i <= |ident| && Current()
        invariant cursor == c0 + i < |input|
        invariant forall k :: 0 <= k < i ==> input[c0 + 1 + k] == ident[k]
      {
        Bump();
        if Char() != ident[i] {
          NotReads(input, c0 + 1, ident, i);
          return false;
        }
        i := i + 1;
      }
      ReadsFromChars(input, c0 + 1, ident);
      return true;
    }

    /** `complete`: the rest of a keyword, which breaks the parser when misspelt. */
    method Complete(ident: string, event: JsonEvent) returns (e: JsonEvent)
      requires Valid() && !handled && cursor < |input| && ValueState(state)
      requires event.NullValue? || event.BooleanValue?
      requires forall k :: 0 <= k < |ident| ==> ident[k] != '\0'
      modifies this
      ensures Valid()
      ensures Outcome(e, Abs()) == Keyword(input, old(cursor), ident, event, old(state), old(stack))
    {
      var ok := Spell(ident);
      if !ok {
        e := Raise(ExpectedValue);
        return;
      }
      handled := true;
      e := event;
    }

    /**
     * The digit loop `parse_number_impl` runs for the integer part and for
     * the exponent: `n = n * 10 + digit` over the run of digits ahead, in a
     * 64-bit accumulator that wraps around.
     */
    method ReadDigits() returns (n: nat)
      requires Current()
      modifies this`ch, this`pos, this`cursor
      ensures Current() && old(cursor) <= cursor == DigitRun(input, old(cursor))
      ensures n == Accumulate(input, old(cursor), cursor)
    {
      ghost var c0 := cursor;
      n := 0;
      while !Eof()
        invariant Current() && c0 <= cursor <= |input|
        invariant DigitRun(input, c0) == DigitRun(input, cursor)
        invariant Digits(input, c0, cursor) && n == Accumulate(input, c0, cursor)
        decreases |input| - cursor
      {
        var d := Char();
        RunStep(input, c0, cursor);
        if !IsDigit(d) {
          break;
        }
        DigitStep(input, c0, cursor);
        n := Wrap(n * 10);
        n := Wrap(n + DigitValue(d));
        Bump();
      }
      RunStep(input, c0, cursor);
    }

    /** The integer part of `parse_number_impl`; the accumulator is a wrapping `u64`. */
    method ReadInteger() returns (r: Option<nat>)
      requires Current()
      modifies this`ch, this`pos, this`cursor
      ensures Current()
      ensures var lex := LexInteger(input, old(cursor));
        && (r.Some? <==> lex.Some?)
        && (r.Some? ==> (r.value, cursor) == lex.value)
    {
      ghost var c0 := cursor;
      var c := Char();
      if c == '0' {
        Bump();
        if IsDigit(Char()) {
          return None;
        }
        RunStep(input, c0, c0);
        RunStep(input, c0, c0 + 1);
        assert Accumulate(input, c0, c0 + 1) == Wrap(0);
        return Some(0);
      } else if '1' <= c <= '9' {
        var integer := ReadDigits();
        return Some(integer);
      } else {
        return None;
      }
    }

    /** The fraction of `parse_number_impl`: its digits are kept (the source folds them into an `f64`). */
    method ReadFraction() returns (r: Option<seq<char>>)
      requires Current()
      modifies this`ch, this`pos, this`cursor
      ensures Current()
      ensures var lex := LexFraction(input, old(cursor));
        && (r.Some? <==> lex.Some?)
        && (r.Some? ==> (r.value, cursor) == lex.value)
    {
      ghost var c0 := cursor;
      if Char() != '.' {
        return Some([]);
      }
      Bump();
      if !IsDigit(Char()) {
        return None;
      }
      var digits: seq<char> := [];
      while !Eof()
        invariant Current() && c0 + 1 <= cursor <= |input|
        invariant DigitRun(input, c0 + 1) == DigitRun(input, cursor)
        invariant digits == input[c0 + 1..cursor]
        decreases |input| - cursor
      {
        var d := Char();
        RunStep(input, c0 + 1, cursor);
        if !IsDigit(d) {
          break;
        }
        assert input[c0 + 1..cursor + 1] == input[c0 + 1..cursor] + [d];
        digits := digits + [d];
        Bump();
      }
      RunStep(input, c0 + 1, cursor);
      return Some(digits);
    }

    /** The exponent of `parse_number_impl`: its sign is read and dropped; the accumulator is a wrapping `usize`. */
    method ReadExponent() returns (r: Option<nat>)
      requires Current()
      modifies this`ch, this`pos, this`cursor
      ensures Current()
      ensures var lex := LexExponent(input, old(cursor));
        && (r.Some? <==> lex.Some?)
        && (r.Some? ==> (r.value, cursor) == lex.value)
    {
      ghost var c0 := cursor;
      var c := Char();
      if c != 'e' && c != 'E' {
        return Some(0);
      }
      Bump();
      if Char() == '+' {
        Bump();
      } else if Char() == '-' {
        Bump();
      }
      assert cursor == if At(input, c0 + 1) == '+' || At(input, c0 + 1) == '-' then c0 + 2 else c0 + 1;
      if !IsDigit(Char()) {
        return None;
      }
      var exponent := ReadDigits();
      return Some(exponent);
    }

    /** The reading part of `parse_number_impl`: an optional `-`, then the integer part, the fraction and the exponent. */
    method ReadNumber() returns (r: Option<Number>)
      requires Current()
      modifies this`ch, this`pos, this`cursor
      ensures Current()
      ensures var lex := LexNumber(input, old(cursor));
        && (r.Some? <==> lex.NumberOk?)
        && (r.Some? ==> r.value == lex.n && cursor == lex.end)
    {
      ghost var c0 := cursor;
      var negative := Char() == '-';
      if negative {
        Bump();
      }
      ghost var p := cursor;
      assert p == if negative then c0 + 1 else c0;
      var integer := ReadInteger();
      if integer.None? {
        return None;
      }
      ghost var a := cursor;
      var fraction := ReadFraction();
      if fraction.None? {
        return None;
      }
      ghost var b := cursor;
      var exponent := ReadExponent();
      if exponent.None? {
        return None;
      }
      r := Some(Number(negative, integer.value, fraction.value, exponent.value));
      LexNumberParts(input, c0, negative, p, integer.value, a, fraction.value, b, exponent.value, cursor);
    }

    /**
     * `parse_number_impl`: the number, then the character after it is left
     * unhandled, and the end of input right after a number is an error inside
     * an array or an object value.
     */
    method ParseNumberImpl() returns (r: Result<Number, ParserError>)
      requires Current()
      modifies this`ch, this`pos, this`cursor, this`handled
      ensures Current() && !handled
      ensures var lex := NumberImpl(input, old(cursor), state);
        && (r.Err? <==> lex.Err?)
        && (r.Err? ==> r.error == SyntaxError(lex.error))
        && (r.Ok? ==> (r.value, cursor) == lex.value)
    {
      var n := ReadNumber();
      handled := false;
      if n.None? {
        return Err(SyntaxError(ToDo));
      }
      if Eof() {
        if state == ParseArrayMaybe {
          return Err(SyntaxError(EOFWhileParsingArray));
        } else if state == ParseObjectMaybe {
          return Err(SyntaxError(EOFWhileParsingObjectValue));
        }
      }
      return Ok(n.value);
    }

    /** `parse_number`: a failure breaks the parser. */
    method ParseNumber() returns (e: JsonEvent)
      requires Valid() && !handled && cursor < |input| && ValueState(state)
      modifies this
      ensures Valid()
      ensures Outcome(e, Abs()) == NumberStep(input, old(cursor), old(state), old(stack))
    {
      var r := ParseNumberImpl();
      match r
      case Ok(n) =>
        e := NumberValue(n);
      case Err(err) =>
        state := Broken;
        e := Error(err);
    }

    /**
     * `decode_hex_escape`, at the `u`: four more characters, each a hex
     * digit, folded as `n * 16 + digit` (the value fits in the source's
     * `u16`). The end of input reads as NUL and is refused like any other
     * character that is not a hex digit, so the source's final check that
     * four digits were read never fails.
     */
    method DecodeHexEscape() returns (r: Result<nat, ParserError>)
      requires Current() && cursor < |input|
      modifies this`ch, this`pos, this`cursor
      ensures Current()
      ensures var hex := HexQuad(input, old(cursor) + 1);
        && (r.Err? <==> hex.None?)
        && (r.Err? ==> r.error == SyntaxError(InvalidEscape))
        && (r.Ok? ==> r.value == hex.value && cursor == old(cursor) + 4)
    {
      ghost var c0 := cursor;
      var i := 0;
      var n := 0;
      while i < 4 && !Eof()
        invariant 0 <= i <= 4 && Current()
        invariant cursor == c0 + i < |input|
        invariant HexDigits(input, c0 + 1, c0 + 1 + i) && n == HexValue(input, c0 + 1, c0 + 1 + i)
        decreases 4 - i
      {
        Bump();
        var d := HexDigit(Char());
        if d.None? {
          assert !HexDigits(input, c0 + 1, c0 + 5) by {
            if c0 + 1 + i < |input| {
              assert !HexDigit(input[c0 + 1 + i]).Some?;
            }
          }
          return Err(SyntaxError(InvalidEscape));
        }
        n := n * 16 + d.value;
        i := i + 1;
      }
      return Ok(n);
    }

    /**
     * The escape arm of `parse_string_impl`, at the character after a
     * backslash: the eight simple escapes, or a `\u` escape whose value
     * must be neither a low surrogate (`LoneLeadingSurrogateInHexEscape`)
     * nor a high one (`char::from_u32` fails: `InvalidUnicodeCodePoint`).
     * The cursor is left on the last character of the escape.
     */
    method DecodeEscape() returns (r: Result<char, ParserError>)
      requires Current() && cursor < |input|
      modifies this`ch, this`pos, this`cursor
      ensures Current()
      ensures var esc := Unescape(input, old(cursor));
        && (r.Err? <==> esc.EscapeErr?)
        && (r.Err? ==> r.error == SyntaxError(esc.e))
        && (r.Ok? ==> r.value == esc.c && cursor + 1 == esc.end)
    {
      var c := Char();
      if c == '"' {
        r := Ok('"');
      } else if c == '\\' {
        r := Ok('\\');
      } else if c == '/' {
        r := Ok('/');
      } else if c == 'b' {
        r := Ok('\U{8}');
      } else if c == 'f' {
        r := Ok('\U{C}');
      } else if c == 'n' {
        r := Ok('\n');
      } else if c == 'r' {
        r := Ok('\r');
      } else if c == 't' {
        r := Ok('\t');
      } else if c == 'u' {
        var n := DecodeHexEscape();
        if n.Err? {
          return Err(n.error);
        }
        if 0xDC00 <= n.value <= 0xDFFF {
          return Err(SyntaxError(LoneLeadingSurrogateInHexEscape));
        }
        if 0xD800 <= n.value <= 0xDBFF {
          return Err(SyntaxError(InvalidUnicodeCodePoint));
        }
        r := Ok(n.value as char);
      } else {
        r := Err(SyntaxError(InvalidEscape));
      }
    }

    /**
     * `parse_string_impl`, at the character after the opening quote:
     * characters are copied up to the closing quote, escapes are decoded,
     * and the end of input is an error whose kind depends on whether an
     * object key is being read. On success the closing quote is handled.
     */
    method ParseStringImpl() returns (r: Result<string, ParserError>)
      requires Valid() && !handled && !state.Broken?
      modifies this`ch, this`pos, this`cursor, this`handled
      ensures Valid()
      ensures var lex := LexString(input, old(cursor), state.ParseObjectPair?);
        && (r.Err? <==> lex.StringErr?)
        && (r.Err? ==> r.error == SyntaxError(lex.e) && !handled)
        && (r.Ok? ==> r.value == lex.s && handled && pos == lex.end)
    {
      ghost var c0 := cursor;
      ghost var key := state.ParseObjectPair?;
      ghost var goal := LexString(input, c0, key);
      var result: string := "";
      var escape := false;
      // from is where the text not yet copied starts: the cursor, or the backslash before it
      ghost var from: nat := c0;
      while true
        invariant Current() && !handled && key == state.ParseObjectPair?
        invariant Copied(input, cursor, goal, key, result, escape, from)
        decreases |input| - cursor
      {
        if Eof() {
          EofAdvance(input, key);
          r := Err(SyntaxError(if state == ParseObjectPair then EOFWhileParsingObjectKey else EOFWhileParsingString));
          assert goal == StringErr(r.error.kind);
          return;
        }
        if escape {
          ghost var k := cursor;
          var decoded := DecodeEscape();
          if decoded.Err? {
            EscapeAdvance(input, k, key);
            r := Err(decoded.error);
            return;
          }
          EscapeCopy(input, k, key, result);
          result := result + [decoded.value];
          escape := false;
          from := cursor + 1;
        } else if Char() == '\\' {
          escape := true;
          from := cursor;
        } else if Char() == '"' {
          QuoteAdvance(input, cursor, key, result);
          handled := true;
          r := Ok(result);
          return;
        } else {
          CharAdvance(input, cursor, key, result);
          result := result + [Char()];
          from := cursor + 1;
        }
        Bump();
      }
    }

    /** `parse_string`, at the character after an opening quote: a failure breaks the parser. */
    method ParseString() returns (e: JsonEvent)
      requires Valid() && !handled && !state.Broken? && 0 < cursor
      modifies this
      ensures Valid()
      ensures Outcome(e, Abs()) == StringStep(input, old(cursor) - 1, old(state), old(stack))
    {
      var r := ParseStringImpl();
      match r
      case Ok(s) =>
        e := StringValue(s);
      case Err(err) =>
        state := Broken;
        e := Error(err);
    }

    /** `parse_value`, at a character that is not the end of input. */
    method ParseValue() returns (e: JsonEvent)
      requires Valid() && !handled && cursor < |input| && ValueState(state)
      modifies this
      ensures Valid()
      ensures Outcome(e, Abs()) == ValueStep(input, old(cursor), old(state), old(stack))
    {
      var c := Char();
      if c == 'n' {
        e := Complete("ull", NullValue);
      } else if c == 't' {
        e := Complete("rue", BooleanValue(true));
      } else if c == 'f' {
        e := Complete("alse", BooleanValue(false));
      } else if c == '-' || IsDigit(c) {
        e := ParseNumber();
      } else if c == '"' {
        Bump();
        e := ParseString();
      } else if c == '[' {
        PushConsistent(state, stack, ParserState.ParseArray);
        stack := stack + [state];
        state := ParserState.ParseArray;
        handled := true;
        e := ArrayBegin;
      } else if c == '{' {
        PushConsistent(state, stack, ParserState.ParseObject);
        stack := stack + [state];
        state := ParserState.ParseObject;
        handled := true;
        e := ObjectBegin;
      } else {
        e := Raise(ExpectedValue);
      }
    }

    /** `parse_array(first)`. */
    method ParseArray(first: bool) returns (e: JsonEvent)
      requires Valid() && !handled && (state.ParseArray? || state.ParseArrayMaybe?)
      modifies this
      ensures Valid()
      ensures Outcome(e, Abs()) == ArrayStep(input, old(cursor), first, old(stack))
      decreases |input| - cursor
    {
      ghost var i, saved := cursor, stack;
      Whitespaces();
      ghost var j := cursor;
      var c := Char();
      if Eof() {
        e := Raise(EOFWhileParsingArray);
      } else if c == ']' {
        PopConsistent(stack);
        state := stack[|stack| - 1];
        stack := stack[..|stack| - 1];
        handled := true;
        e := ArrayEnd;
      } else if c == ',' {
        Bump();
        if first {
          e := Raise(ExpectedValueOrArrayEnd);
        } else {
          e := ParseArray(false);
        }
      } else {
        state := ParseArrayMaybe;
        e := ParseValue();
      }
      ArrayAt(input, i, first, saved, j);
    }

    /** `parse_object(first)`. */
    method ParseObject(first: bool) returns (e: JsonEvent)
      requires Valid() && !handled && (state.ParseObject? || state.ParseObjectMaybe?)
      modifies this
      ensures Valid()
      ensures Outcome(e, Abs()) == ObjectStep(input, old(cursor), first, old(stack))
      decreases |input| - cursor
    {
      ghost var i, saved := cursor, stack;
      Whitespaces();
      ghost var j := cursor;
      var c := Char();
      if Eof() {
        e := Raise(EOFWhileParsingObject);
      } else if c == '}' {
        PopConsistent(stack);
        state := stack[|stack| - 1];
        stack := stack[..|stack| - 1];
        handled := true;
        e := ObjectEnd;
      } else if c == '"' {
        state := ParseObjectPair;
        Bump();
        e := ParseString();
      } else if c == ',' {
        Bump();
        if first {
          e := Raise(ExpectedKeyOrObjectEnd);
        } else {
          e := ParseObject(false);
        }
      } else {
        e := Raise(ExpectedKeyOrObjectEnd);
      }
      ObjectAt(input, i, first, saved, j);
    }

    /** `parse_object_value`: after a key, a colon and the value. */
    method ParseObjectValue() returns (e: JsonEvent)
      requires Valid() && !handled && state.ParseObjectPair?
      modifies this
      ensures Valid()
      ensures Outcome(e, Abs()) == ObjectValueStep(input, old(cursor), old(stack))
    {
      ghost var i, saved := cursor, stack;
      Whitespaces();
      ghost var j := cursor;
      if Eof() {
        e := Raise(EOFWhileParsingObjectColon);
      } else if Char() != ':' {
        e := Raise(ExpectedColon);
      } else {
        Bump();
        Whitespaces();
        if Eof() {
          e := Raise(EOFWhileParsingObjectValue);
        } else {
          PairToMaybe(stack);
          state := ParseObjectMaybe;
          e := ParseValue();
        }
      }
      ObjectValueAt(input, i, saved, j);
    }

    /** `parse`: the state selects the step. */
    method Parse() returns (r: Option<JsonEvent>)
      requires Valid() && !handled
      modifies this
      ensures Valid()
      ensures (r, Abs()) == Step(input, old(Abs()))
    {
      match state
      case Undefined =>
        if Eof() {
          return None;
        }
        var e := ParseValue();
        r := Some(e);
      case Broken =>
        r := Some(Error(BrokenParser));
      case ParseArray =>
        var e := ParseArray(true);
        r := Some(e);
      case ParseArrayMaybe =>
        var e := ParseArray(false);
        r := Some(e);
      case ParseObject =>
        var e := ParseObject(true);
        r := Some(e);
      case ParseObjectPair =>
        var e := ParseObjectValue();
        r := Some(e);
      case ParseObjectMaybe =>
        var e := ParseObject(false);
        r := Some(e);
    }

    /**
     * `next`: a broken parser answers `BrokenParser`; a handled character is
     * skipped first. The machine moves exactly as `Step` says.
     */
    method Next() returns (r: Option<JsonEvent>)
      requires Valid()
      modifies this
      ensures Valid()
      ensures (r, Abs()) == Step(input, old(Abs()))
    {
      if state == Broken {
        return Some(Error(BrokenParser));
      }
      if handled {
        handled := false;
        Bump();
      }
      r := Parse();
    }
  }
}
