/**
 * What the streaming JSON parser of src/logdrop/json.rs promises over a
 * run of calls of `next`: a broken parser stays broken, the state stack
 * follows the open arrays and objects, the stream ends only at the end of
 * input between documents, and the grammar's error rules. Everything is
 * stated about the pure machine of module JsonMachine, which the class
 * `JsonParser.Parser` is proved to follow call by call.
 */
module JsonProperties {
  import opened Wrappers
  import opened JsonValue
  import opened JsonLexer
  import opened JsonMachine

  /** n calls of `next` from machine m: the events in order and the machine after them. */
  function Run(t: seq<char>, m: Machine, n: nat): (r: (seq<Option<JsonEvent>>, Machine))
    requires m.pos <= |t| && Consistent(m.state, m.stack)
    ensures |r.0| == n && r.1.pos <= |t| && Consistent(r.1.state, r.1.stack)
    decreases n
  {
    if n == 0 then ([], m)
    else
      StepSound(t, m);
      var s := Step(t, m);
      var rest := Run(t, s.1, n - 1);
      ([s.0] + rest.0, rest.1)
  }

  predicate IsError(e: Option<JsonEvent>) {
    e.Some? && e.value.Error?
  }

  /** One call of `next` on a broken parser: it answers `BrokenParser` and nothing changes. */
  lemma BrokenStep(t: seq<char>, m: Machine)
    requires m.pos <= |t| && m.state.Broken?
    ensures Step(t, m) == (Some(Error(BrokenParser)), m)
  {
  }

  /** A broken parser answers `BrokenParser` to every later call, never `None`, and does not move. */
  lemma {:induction false} BrokenIsAbsorbing(t: seq<char>, m: Machine, n: nat)
    requires m.pos <= |t| && m.state.Broken?
    ensures Run(t, m, n).1 == m
    ensures forall k :: 0 <= k < n ==> Run(t, m, n).0[k] == Some(Error(BrokenParser))
    decreases n
  {
    if n > 0 {
      BrokenStep(t, m);
      BrokenIsAbsorbing(t, m, n - 1);
    }
  }

  /** After the first error event of a run, every later event is `Error(BrokenParser)`. */
  lemma {:induction false} ErrorIsFinal(t: seq<char>, m: Machine, n: nat, k: nat)
    requires m.pos <= |t| && Consistent(m.state, m.stack)
    requires k < n && IsError(Run(t, m, n).0[k])
    ensures forall l :: k < l < n ==> Run(t, m, n).0[l] == Some(Error(BrokenParser))
    decreases k
  {
    StepSound(t, m);
    var s := Step(t, m);
    if k == 0 {
      assert s.0 == Run(t, m, n).0[0];
      assert s.1.state.Broken?;
      BrokenIsAbsorbing(t, s.1, n - 1);
    } else {
      assert Run(t, m, n).0[k] == Run(t, s.1, n - 1).0[k - 1];
      ErrorIsFinal(t, s.1, n - 1, k - 1);
    }
  }

  /** How an event changes the number of open arrays and objects. */
  function Delta(e: Option<JsonEvent>): int {
    if e.Some? && (e.value.ArrayBegin? || e.value.ObjectBegin?) then 1
    else if e.Some? && (e.value.ArrayEnd? || e.value.ObjectEnd?) then -1
    else 0
  }

  /** The arrays and objects opened and not yet closed by a sequence of events. */
  function Depth(es: seq<Option<JsonEvent>>): int {
    if es == [] then 0 else Delta(es[0]) + Depth(es[1..])
  }

  /**
   * Along a run without errors the parser never breaks, and the stack grows
   * by one for each `ArrayBegin` or `ObjectBegin` and shrinks by one for
   * each `ArrayEnd` or `ObjectEnd`.
   */
  lemma {:induction false} StackDepth(t: seq<char>, m: Machine, n: nat)
    requires m.pos <= |t| && Consistent(m.state, m.stack) && !m.state.Broken?
    requires forall k :: 0 <= k < n ==> !IsError(Run(t, m, n).0[k])
    ensures !Run(t, m, n).1.state.Broken?
    ensures |Run(t, m, n).1.stack| == |m.stack| + Depth(Run(t, m, n).0)
    decreases n
  {
    if n > 0 {
      StepSound(t, m);
      var s := Step(t, m);
      var es := Run(t, m, n).0;
      assert es[0] == s.0 && es[1..] == Run(t, s.1, n - 1).0;
      assert !IsError(es[0]);
      assert !s.1.state.Broken?;
      assert |s.1.stack| == |m.stack| + Delta(s.0);
      var rest := Run(t, s.1, n - 1).0;
      forall k | 0 <= k < |rest|
        ensures !IsError(rest[k])
      {
        assert rest[k] == es[k + 1];
      }
      StackDepth(t, s.1, n - 1);
    }
  }

  /**
   * From the start, once every array and object opened has been closed
   * without error the parser is back in `Undefined` with an empty stack,
   * ready for the next document.
   */
  lemma DocumentComplete(t: seq<char>, n: nat)
    requires forall k :: 0 <= k < n ==> !IsError(Run(t, Initial, n).0[k])
    requires Depth(Run(t, Initial, n).0) == 0
    ensures Run(t, Initial, n).1.state == Undefined && Run(t, Initial, n).1.stack == []
  {
    StackDepth(t, Initial, n);
  }

  /** `"null"` yields `NullValue` and then the end of the stream. */
  lemma NullDocument()
    ensures Run("null", Initial, 2).0 == [Some(NullValue), None]
    ensures Run("null", Initial, 2).1 == Machine(4, Undefined, [])
  {
    var t := "null";
    assert Reads(t, 1, "ull") by {
      assert Reads(t, 4, "");
      assert Reads(t, 3, "l");
      assert Reads(t, 2, "ll");
    }
    var m := Machine(4, Undefined, []);
    assert Step(t, Initial) == (Some(NullValue), m);
    assert Step(t, m) == (None, m);
    assert Run(t, m, 1).1 == m;
    assert Run(t, m, 1).0 == [None];
    assert Run(t, Initial, 2).1 == m;
    assert Run(t, Initial, 2).0 == [Some(NullValue)] + Run(t, m, 1).0;
  }

  /** A second document follows the first directly, in the same parser. */
  lemma TwoDocuments()
    ensures Run("nulltrue", Initial, 3).0 == [Some(NullValue), Some(BooleanValue(true)), None]
  {
    var t := "nulltrue";
    assert Reads(t, 1, "ull") by {
      assert Reads(t, 4, "");
      assert Reads(t, 3, "l");
      assert Reads(t, 2, "ll");
    }
    assert Reads(t, 5, "rue") by {
      assert Reads(t, 8, "");
      assert Reads(t, 7, "e");
      assert Reads(t, 6, "ue");
    }
    var m1 := Machine(4, Undefined, []);
    var m2 := Machine(8, Undefined, []);
    assert Step(t, Initial) == (Some(NullValue), m1);
    assert Step(t, m1) == (Some(BooleanValue(true)), m2);
    assert Run(t, m2, 1).0 == [None];
    assert Run(t, m1, 2).0 == [Some(BooleanValue(true)), None];
  }

  /** A keyword at index i: its first letter and the rest of it. */
  lemma ReadsKeyword(t: seq<char>, i: nat, word: string)
    requires word != []
    ensures Reads(t, i, word) <==> i < |t| && t[i] == word[0] && Reads(t, i + 1, word[1..])
  {
  }

  /** At top level `null`, `true` and `false` must be spelt in full, or the parser breaks with `ExpectedValue`. */
  lemma TopLevelKeywords(t: seq<char>, i: nat)
    requires i < |t|
    ensures var r := Step(t, Machine(i, Undefined, []));
      var refused := (Some(Error(SyntaxError(ExpectedValue))), Machine(|t|, Broken, []));
      && (t[i] == 'n' ==> r == if Reads(t, i, "null") then (Some(NullValue), Machine(i + 4, Undefined, [])) else refused)
      && (t[i] == 't' ==> r == if Reads(t, i, "true") then (Some(BooleanValue(true)), Machine(i + 4, Undefined, [])) else refused)
      && (t[i] == 'f' ==> r == if Reads(t, i, "false") then (Some(BooleanValue(false)), Machine(i + 5, Undefined, [])) else refused)
  {
    if t[i] == 'n' {
      ReadsKeyword(t, i, "null");
      assert "null"[1..] == "ull";
    } else if t[i] == 't' {
      ReadsKeyword(t, i, "true");
      assert "true"[1..] == "rue";
    } else if t[i] == 'f' {
      ReadsKeyword(t, i, "false");
      assert "false"[1..] == "alse";
    }
  }

  /**
   * At top level a value starts right at the current character: one that
   * cannot start a value, blanks included, is refused with `ExpectedValue`.
   */
  lemma TopLevelRefused(t: seq<char>, i: nat)
    requires i < |t| && t[i] !in "ntf-0123456789\"[{"
    ensures Step(t, Machine(i, Undefined, [])) == (Some(Error(SyntaxError(ExpectedValue))), Machine(|t|, Broken, []))
  {
  }

  /** A number must have a digit after its optional `-`, and a leading `0` must not be followed by a digit. */
  lemma IntegerRules(t: seq<char>, i: nat)
    requires i <= |t|
    ensures var p := if At(t, i) == '-' then i + 1 else i;
      && p <= |t|
      && (!IsDigit(At(t, p)) ==> LexNumber(t, i) == NumberErr)
      && (At(t, p) == '0' && IsDigit(At(t, p + 1)) ==> LexNumber(t, i) == NumberErr)
  {
  }

  /**
   * After the integer part, a `.` must be followed by a digit, and an `e`
   * or `E`, after an optional sign, must be followed by a digit.
   */
  lemma FractionAndExponentRules(t: seq<char>, i: nat, integer: nat, a: nat)
    requires i <= |t|
    requires LexInteger(t, if At(t, i) == '-' then i + 1 else i) == Some((integer, a))
    ensures At(t, a) == '.' && !IsDigit(At(t, a + 1)) ==> LexNumber(t, i) == NumberErr
    ensures LexFraction(t, a).Some? ==>
      var b := LexFraction(t, a).value.1;
      var s := if At(t, b + 1) == '+' || At(t, b + 1) == '-' then b + 2 else b + 1;
      (At(t, b) == 'e' || At(t, b) == 'E') && !IsDigit(At(t, s)) ==> LexNumber(t, i) == NumberErr
  {
  }

  /** The digits from index p to index j, read into the accumulator, give their decimal value modulo 2^64. */
  lemma DigitsValue(t: seq<char>, p: nat, j: nat)
    requires p <= j && Digits(t, p, j)
    ensures Accumulate(t, p, j) == Wrap(Decimal(t[p..j]))
  {
    var ds := t[p..j];
    assert AllDigits(ds) by {
      forall k | 0 <= k < |ds|
        ensures IsDigit(ds[k])
      {
        assert ds[k] == t[p + k];
      }
    }
    ReadsFromChars(t, p, ds);
    AccumulateReads(t, p, ds);
  }

  /**
   * A number read: its sign is the `-`, and its integer part is the digit
   * run read as `integer * 10 + d` in a 64-bit accumulator, which is the
   * run's decimal value modulo 2^64.
   */
  lemma NumberValueRule(t: seq<char>, i: nat)
    requires i <= |t| && LexNumber(t, i).NumberOk?
    ensures var p := if At(t, i) == '-' then i + 1 else i;
      && p <= |t|
      && LexNumber(t, i).n.negative == (At(t, i) == '-')
      && LexNumber(t, i).n.integer == Accumulate(t, p, DigitRun(t, p))
      && LexNumber(t, i).n.integer == Wrap(Decimal(t[p..DigitRun(t, p)]))
  {
    var p := if At(t, i) == '-' then i + 1 else i;
    var j := DigitRun(t, p);
    assert LexInteger(t, p) == Some((Accumulate(t, p, j), j));
    DigitsValue(t, p, j);
  }

  /** The sign of an exponent is read and dropped: `1e-5` and `1e+5` are the same number. */
  lemma ExponentSignDropped()
    ensures LexNumber("1e-5", 0) == LexNumber("1e+5", 0) == NumberOk(Number(false, 1, [], 5), 4)
  {
    ExponentOfOne("1e-5");
    ExponentOfOne("1e+5");
  }

  /** `1e` followed by a sign and `5`. */
  lemma ExponentOfOne(t: seq<char>)
    requires |t| == 4 && t[0] == '1' && t[1] == 'e' && (t[2] == '-' || t[2] == '+') && t[3] == '5'
    ensures LexNumber(t, 0) == NumberOk(Number(false, 1, [], 5), 4)
  {
    assert DigitRun(t, 1) == 1;
    assert DigitRun(t, 4) == 4;
    assert Accumulate(t, 0, 1) == 1 by {
      assert Accumulate(t, 0, 0) == 0;
    }
    assert Accumulate(t, 3, 4) == 5 by {
      assert Accumulate(t, 3, 3) == 0;
    }
    assert LexInteger(t, 0) == Some((1, 1));
    assert LexFraction(t, 1) == Some(([], 1));
    assert LexExponent(t, 1) == Some((5, 4));
  }

  /**
   * A number that runs to the end of the input is refused inside an array
   * (`EOFWhileParsingArray`) and as an object value
   * (`EOFWhileParsingObjectValue`), but accepted at top level.
   */
  lemma NumberAtEnd(t: seq<char>, i: nat, st: ParserState, stack: seq<ParserState>)
    requires i <= |t| && LexNumber(t, i).NumberOk? && LexNumber(t, i).end == |t|
    ensures st.ParseArrayMaybe? ==> NumberStep(t, i, st, stack).event == Error(SyntaxError(EOFWhileParsingArray))
    ensures st.ParseObjectMaybe? ==> NumberStep(t, i, st, stack).event == Error(SyntaxError(EOFWhileParsingObjectValue))
    ensures st.Undefined? ==> NumberStep(t, i, st, stack).event == NumberValue(LexNumber(t, i).n)
  {
  }

  /**
   * Inside an array, after blanks: the end of input, a comma right after
   * `[`, and `]`; anything else is the next element, with or without a
   * comma before it.
   */
  lemma ArrayRules(t: seq<char>, m: Machine)
    requires m.pos <= |t| && Consistent(m.state, m.stack)
    requires m.state.ParseArray? || m.state.ParseArrayMaybe?
    ensures var j := SkipWhitespace(t, m.pos);
      var r := Step(t, m);
      && (j == |t| ==> r.0 == Some(Error(SyntaxError(EOFWhileParsingArray))))
      && (j < |t| && t[j] == ',' && m.state.ParseArray? ==> r.0 == Some(Error(SyntaxError(ExpectedValueOrArrayEnd))))
      && (j < |t| && t[j] == ']' ==> r == (Some(ArrayEnd), Machine(j + 1, m.stack[|m.stack| - 1], m.stack[..|m.stack| - 1])))
      && (j < |t| && t[j] != ']' && t[j] != ',' ==> r == var o := ValueStep(t, j, ParseArrayMaybe, m.stack); (Some(o.event), o.next))
  {
    var j := SkipWhitespace(t, m.pos);
    ArrayAt(t, m.pos, m.state.ParseArray?, m.stack, j);
  }

  /**
   * After an array element or an object member a comma is skipped with the
   * blanks before it: commas may be repeated or trail, and the parser goes
   * on as if it had met none.
   */
  lemma CommaSkipped(t: seq<char>, m: Machine)
    requires m.pos <= |t| && Consistent(m.state, m.stack)
    requires m.state.ParseArrayMaybe? || m.state.ParseObjectMaybe?
    requires SkipWhitespace(t, m.pos) < |t| && t[SkipWhitespace(t, m.pos)] == ','
    ensures Step(t, m) == Step(t, Machine(SkipWhitespace(t, m.pos) + 1, m.state, m.stack))
  {
    var j := SkipWhitespace(t, m.pos);
    if m.state.ParseArrayMaybe? {
      ArrayAt(t, m.pos, false, m.stack, j);
    } else {
      ObjectAt(t, m.pos, false, m.stack, j);
    }
  }

  /**
   * Inside an object, after blanks: the end of input, `}`, a key, a comma
   * right after `{`, and any other character.
   */
  lemma ObjectRules(t: seq<char>, m: Machine)
    requires m.pos <= |t| && Consistent(m.state, m.stack)
    requires m.state.ParseObject? || m.state.ParseObjectMaybe?
    ensures var j := SkipWhitespace(t, m.pos);
      var r := Step(t, m);
      && (j == |t| ==> r.0 == Some(Error(SyntaxError(EOFWhileParsingObject))))
      && (j < |t| && t[j] == ',' && m.state.ParseObject? ==> r.0 == Some(Error(SyntaxError(ExpectedKeyOrObjectEnd))))
      && (j < |t| && t[j] !in "\"},"  ==> r.0 == Some(Error(SyntaxError(ExpectedKeyOrObjectEnd))))
      && (j < |t| && t[j] == '}' ==> r == (Some(ObjectEnd), Machine(j + 1, m.stack[|m.stack| - 1], m.stack[..|m.stack| - 1])))
      && (j < |t| && t[j] == '"' ==> r == var o := StringStep(t, j, ParseObjectPair, m.stack); (Some(o.event), o.next))
  {
    var j := SkipWhitespace(t, m.pos);
    ObjectAt(t, m.pos, m.state.ParseObject?, m.stack, j);
  }

  /** After a key, blanks: the end of input, a character other than `:`, or the end of input after the colon. */
  lemma ObjectValueRules(t: seq<char>, m: Machine)
    requires m.pos <= |t| && Consistent(m.state, m.stack) && m.state.ParseObjectPair?
    ensures var j := SkipWhitespace(t, m.pos);
      var r := Step(t, m);
      && (j == |t| ==> r.0 == Some(Error(SyntaxError(EOFWhileParsingObjectColon))))
      && (j < |t| && t[j] != ':' ==> r.0 == Some(Error(SyntaxError(ExpectedColon))))
      && (j < |t| && t[j] == ':' && SkipWhitespace(t, j + 1) == |t| ==> r.0 == Some(Error(SyntaxError(EOFWhileParsingObjectValue))))
  {
    ObjectValueAt(t, m.pos, m.stack, SkipWhitespace(t, m.pos));
  }

  /**
   * A string that is never closed: the end of input is
   * `EOFWhileParsingObjectKey` for a key and `EOFWhileParsingString` for a
   * value.
   */
  lemma UnterminatedStrings(t: seq<char>, i: nat, st: ParserState, stack: seq<ParserState>)
    requires i < |t| && t[i] == '"'
    requires forall k :: i < k < |t| ==> t[k] != '"' && t[k] != '\\'
    ensures st.ParseObjectPair? ==> StringStep(t, i, st, stack).event == Error(SyntaxError(EOFWhileParsingObjectKey))
    ensures !st.ParseObjectPair? ==> StringStep(t, i, st, stack).event == Error(SyntaxError(EOFWhileParsingString))
  {
    UnterminatedString(t, i + 1, st.ParseObjectPair?);
  }
}
