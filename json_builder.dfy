/**
 * `Builder` of src/logdrop/json.rs: it pulls events from a parser and folds
 * them into one `Value` per call of `next`. Arrays are collected in order
 * until their `ArrayEnd`, which the builder learns of through a stack of
 * flags (`arrays`): the `ArrayEnd` event sets the flag of the innermost
 * open array and makes the nested call answer `None`. Objects insert their
 * members into a map, so a later duplicate key overwrites an earlier one.
 * Where the source panics (an error event, an `unwrap` of nothing, a
 * misplaced event) the model answers `Panic`.
 *
 * `BuildNext` is the pure specification over the parser machine of module
 * JsonMachine; the class `Builder` follows the Rust code and is proved
 * against it.
 */
module JsonBuilder {
  import opened Wrappers
  import opened JsonValue
  import opened JsonLexer
  import opened JsonMachine
  import opened JsonParser

  /** What one call of `Builder::next` ends with: its answer, or a panic. */
  datatype Pull = Yield(v: Option<Value>) | Panic

  /** The outcome of one pull, the parser machine after it and the flag stack after it. */
  type Pulled = (Pull, Machine, seq<bool>)

  /** `Builder::next` from parser machine m with flag stack `arrays`. */
  function BuildNext(t: seq<char>, m: Machine, arrays: seq<bool>): (r: Pulled)
    requires m.pos <= |t| && Consistent(m.state, m.stack)
    ensures r.1.pos <= |t| && Consistent(r.1.state, r.1.stack) && m.pos <= r.1.pos
    ensures r.0.Yield? && r.0.v.Some? ==> m.pos < r.1.pos
    decreases |t| - m.pos, 0
  {
    StepSound(t, m);
    var s := Step(t, m);
    var m1 := s.1;
    match s.0
    case None => (Yield(None), m1, arrays)
    case Some(e) =>
      match e
      case NullValue => (Yield(Some(Null)), m1, arrays)
      case BooleanValue(b) => (Yield(Some(Bool(b))), m1, arrays)
      case NumberValue(n) => (Yield(Some(F64(n))), m1, arrays)
      case StringValue(str) => (Yield(Some(String(str))), m1, arrays)
      case ArrayBegin => BuildArray(t, m1, arrays + [false], [])
      case ObjectBegin => BuildObject(t, m1, arrays, map[])
      case ArrayEnd =>
        if arrays == [] then (Panic, m1, arrays)
        else (Yield(None), m1, arrays[..|arrays| - 1] + [true])
      case ObjectEnd => (Panic, m1, arrays)
      case Error(_) => (Panic, m1, arrays)
  }

  /**
   * The loop of the `ArrayBegin` arm, with the elements collected so far:
   * elements are appended until a nested call answers `None`; then a set
   * flag on top closes the array, and a clear one passes the `None` on.
   */
  function BuildArray(t: seq<char>, m: Machine, arrays: seq<bool>, items: seq<Value>): (r: Pulled)
    requires m.pos <= |t| && Consistent(m.state, m.stack)
    ensures r.1.pos <= |t| && Consistent(r.1.state, r.1.stack) && m.pos <= r.1.pos
    decreases |t| - m.pos, 1
  {
    var r := BuildNext(t, m, arrays);
    match r.0
    case Panic => r
    case Yield(Some(v)) => BuildArray(t, r.1, r.2, items + [v])
    case Yield(None) =>
      if r.2 == [] then (Panic, r.1, r.2)
      else if r.2[|r.2| - 1] then (Yield(Some(List(items))), r.1, r.2[..|r.2| - 1])
      else (Yield(None), r.1, r.2)
  }

  /**
   * The loop of the `ObjectBegin` arm, with the members inserted so far: a
   * key and then its value, until `ObjectEnd`; anything else panics.
   */
  function BuildObject(t: seq<char>, m: Machine, arrays: seq<bool>, members: map<string, Value>): (r: Pulled)
    requires m.pos <= |t| && Consistent(m.state, m.stack)
    ensures r.1.pos <= |t| && Consistent(r.1.state, r.1.stack) && m.pos <= r.1.pos
    decreases |t| - m.pos, 1
  {
    StepSound(t, m);
    var s := Step(t, m);
    if s.0 == Some(ObjectEnd) then (Yield(Some(Object(members))), s.1, arrays)
    else if s.0.Some? && s.0.value.StringValue? then
      var r := BuildNext(t, s.1, arrays);
      if r.0.Yield? && r.0.v.Some? then BuildObject(t, r.1, r.2, members[s.0.value.s := r.0.v.value])
      else (Panic, r.1, r.2)
    else (Panic, s.1, arrays)
  }

  // ------------------------------------------------------------ the shape

  /** The states a value can be read in, the only ones `Builder::next` is called in. */
  predicate ValueEntry(st: ParserState) {
    st.Undefined? || st.ParseArray? || st.ParseArrayMaybe? || st.ParseObjectPair?
  }

  /** The state the parser is in after a whole value read in state st. */
  function AfterValue(st: ParserState): ParserState {
    match st
    case ParseArray => ParseArrayMaybe
    case ParseObjectPair => ParseObjectMaybe
    case _ => st
  }

  predicate Scalar(e: JsonEvent) {
    e.NullValue? || e.BooleanValue? || e.NumberValue? || e.StringValue?
  }

  /**
   * One call of `next` in a state a value can be read in: a scalar leaves
   * the parser in the state after a value; `[` and `{` push that state; `]`
   * comes only inside an array; `}` never comes; the stream ends only in
   * `Undefined`.
   */
  lemma ValueEvents(t: seq<char>, m: Machine)
    requires m.pos <= |t| && Consistent(m.state, m.stack) && ValueEntry(m.state)
    ensures var r := Step(t, m);
      && (r.0.Some? && Scalar(r.0.value) ==> r.1.state == AfterValue(m.state) && r.1.stack == m.stack)
      && (r.0.Some? && (r.0.value.ArrayBegin? || r.0.value.ObjectBegin?) ==> r.1.stack == m.stack + [AfterValue(m.state)])
      && (r.0.Some? && r.0.value.ArrayEnd? ==> m.state.ParseArray? || m.state.ParseArrayMaybe?)
      && (r.0.Some? ==> !r.0.value.ObjectEnd?)
      && (r.0.None? ==> m.state.Undefined? && r.1 == m)
  {
    StepSound(t, m);
    match m.state
    case Undefined =>
      if m.pos < |t| {
        ValueSound(t, m.pos, Undefined, m.stack);
      }
    case ParseArray => ArraySound(t, m.pos, true, m.stack);
    case ParseArrayMaybe => ArraySound(t, m.pos, false, m.stack);
    case ParseObjectPair => ObjectValueSound(t, m.pos, m.stack);
  }

  /** One call of `next` inside an object: a key, which leads to a value, or `}`, which pops. */
  lemma MemberEvents(t: seq<char>, m: Machine)
    requires m.pos <= |t| && Consistent(m.state, m.stack) && (m.state.ParseObject? || m.state.ParseObjectMaybe?)
    ensures var r := Step(t, m);
      && (r.0.Some? && r.0.value.StringValue? ==> r.1.state.ParseObjectPair? && r.1.stack == m.stack)
      && (r.0 == Some(ObjectEnd) ==> m.stack != [] && r.1.state == m.stack[|m.stack| - 1] && r.1.stack == m.stack[..|m.stack| - 1])
  {
    StepSound(t, m);
    ObjectSound(t, m.pos, m.state.ParseObject?, m.stack);
  }

  /**
   * A value built from a state a value can be read in leaves the parser in
   * the state after a value, with the stack and the flag stack as they were.
   * The builder answers `None` only at the end of input in `Undefined`, or
   * at the `]` of the innermost open array, whose flag it sets.
   */
  lemma {:induction false} BuildNextShape(t: seq<char>, m: Machine, arrays: seq<bool>)
    requires m.pos <= |t| && Consistent(m.state, m.stack) && ValueEntry(m.state)
    ensures var r := BuildNext(t, m, arrays);
      && (r.0.Yield? && r.0.v.Some? ==> r.1.state == AfterValue(m.state) && r.1.stack == m.stack && r.2 == arrays)
      && (r.0 == Yield(None) ==>
            || (m.state.Undefined? && r.1 == m && r.2 == arrays)
            || (ArrayClosed(m, r.1) && arrays != [] && r.2 == arrays[..|arrays| - 1] + [true]))
    decreases |t| - m.pos, 0
  {
    StepSound(t, m);
    ValueEvents(t, m);
    var s := Step(t, m);
    if s.0.Some? && s.0.value.ArrayBegin? {
      BuildArrayShape(t, s.1, arrays + [false], []);
    } else if s.0.Some? && s.0.value.ObjectBegin? {
      BuildObjectShape(t, s.1, arrays, map[]);
    }
  }

  /** The parser went from machine m to machine n by closing the innermost open array. */
  predicate ArrayClosed(m: Machine, n: Machine) {
    (m.state.ParseArray? || m.state.ParseArrayMaybe?) &&
    m.stack != [] && n.state == m.stack[|m.stack| - 1] && n.stack == m.stack[..|m.stack| - 1]
  }

  /** An array being collected ends by popping the parser stack and its own flag; it never passes `None` on. */
  lemma {:induction false} BuildArrayShape(t: seq<char>, m: Machine, arrays: seq<bool>, items: seq<Value>)
    requires m.pos <= |t| && Consistent(m.state, m.stack) && (m.state.ParseArray? || m.state.ParseArrayMaybe?)
    ensures var r := BuildArray(t, m, arrays, items);
      && r.0 != Yield(None)
      && (r.0.Yield? ==> ArrayClosed(m, r.1) && arrays != [] && r.2 == arrays[..|arrays| - 1])
    decreases |t| - m.pos, 1
  {
    var r := BuildNext(t, m, arrays);
    BuildNextShape(t, m, arrays);
    if r.0.Yield? && r.0.v.Some? {
      BuildArrayShape(t, r.1, r.2, items + [r.0.v.value]);
    } else if r.0 == Yield(None) {
      assert r.2[..|r.2| - 1] == arrays[..|arrays| - 1];
    }
  }

  /** An object being collected ends by popping the parser stack; the flag stack is as it was. */
  lemma {:induction false} BuildObjectShape(t: seq<char>, m: Machine, arrays: seq<bool>, members: map<string, Value>)
    requires m.pos <= |t| && Consistent(m.state, m.stack) && (m.state.ParseObject? || m.state.ParseObjectMaybe?)
    ensures var r := BuildObject(t, m, arrays, members);
      && r.0 != Yield(None)
      && (r.0.Yield? ==> m.stack != [] && r.1.state == m.stack[|m.stack| - 1] && r.1.stack == m.stack[..|m.stack| - 1] && r.2 == arrays)
    decreases |t| - m.pos, 1
  {
    StepSound(t, m);
    MemberEvents(t, m);
    var s := Step(t, m);
    if s.0.Some? && s.0.value.StringValue? {
      var r := BuildNext(t, s.1, arrays);
      BuildNextShape(t, s.1, arrays);
      if r.0.Yield? && r.0.v.Some? {
        BuildObjectShape(t, r.1, r.2, members[s.0.value.s := r.0.v.value]);
      }
    }
  }

  /**
   * At top level, between documents, each call of `next` builds one whole
   * document and leaves the parser between documents again with no flag
   * left over; it answers `None` exactly at the end of input.
   */
  lemma OneValuePerDocument(t: seq<char>, i: nat)
    requires i <= |t|
    ensures var r := BuildNext(t, Machine(i, Undefined, []), []);
      && (r.0.Yield? && r.0.v.Some? ==> r.1.state == Undefined && r.1.stack == [] && r.2 == [])
      && (r.0 == Yield(None) <==> i == |t|)
  {
    BuildNextShape(t, Machine(i, Undefined, []), []);
    StepSound(t, Machine(i, Undefined, []));
  }

  // ------------------------------------------------------------ examples

  /** The document `null` builds `Null`, and then the builder is exhausted. */
  lemma BuildNull()
    ensures var r := BuildNext("null", Initial, []);
      && r.0 == Yield(Some(Null))
      && BuildNext("null", r.1, r.2).0 == Yield(None)
  {
    var t := "null";
    assert Reads(t, 1, "ull") by {
      assert Reads(t, 4, "");
      assert Reads(t, 3, "l");
      assert Reads(t, 2, "ll");
    }
    var m := Machine(4, Undefined, []);
    assert Step(t, Initial) == (Some(NullValue), m);
    assert BuildNext(t, Initial, []) == (Yield(Some(Null)), m, []);
    assert Step(t, m) == (None, m);
  }

  /** A two-element array. */
  const TwoElements: string := "[null,true]"

  // The parser's events on it, one step each.

  lemma TwoElementsOpen()
    ensures Step(TwoElements, Initial) == (Some(ArrayBegin), Machine(1, ParseArray, [Undefined]))
  {
    assert TwoElements[0] == '[' && [] + [Undefined] == [Undefined];
  }

  lemma TwoElementsFirst()
    ensures Step(TwoElements, Machine(1, ParseArray, [Undefined])) == (Some(NullValue), Machine(5, ParseArrayMaybe, [Undefined]))
  {
    var t := TwoElements;
    assert Reads(t, 2, "ull") by {
      assert Reads(t, 5, "");
      assert Reads(t, 4, "l");
      assert Reads(t, 3, "ll");
    }
    assert SkipWhitespace(t, 1) == 1;
    ArrayAt(t, 1, true, [Undefined], 1);
  }

  lemma TwoElementsSecond()
    ensures Step(TwoElements, Machine(5, ParseArrayMaybe, [Undefined])) == (Some(BooleanValue(true)), Machine(10, ParseArrayMaybe, [Undefined]))
  {
    var t := TwoElements;
    assert Reads(t, 7, "rue") by {
      assert Reads(t, 10, "");
      assert Reads(t, 9, "e");
      assert Reads(t, 8, "ue");
    }
    assert SkipWhitespace(t, 5) == 5 && SkipWhitespace(t, 6) == 6;
    ArrayAt(t, 5, false, [Undefined], 5);
    ArrayAt(t, 6, false, [Undefined], 6);
  }

  lemma TwoElementsClose()
    ensures Step(TwoElements, Machine(10, ParseArrayMaybe, [Undefined])) == (Some(ArrayEnd), Machine(11, Undefined, []))
  {
    assert SkipWhitespace(TwoElements, 10) == 10;
    ArrayAt(TwoElements, 10, false, [Undefined], 10);
  }

  lemma TwoElementsLast()
    ensures BuildArray(TwoElements, Machine(10, ParseArrayMaybe, [Undefined]), [false], [Null, Bool(true)])
         == (Yield(Some(List([Null, Bool(true)]))), Machine(11, Undefined, []), [])
  {
    TwoElementsClose();
    assert [false][..0] + [true] == [true];
  }

  lemma TwoElementsRest()
    ensures BuildArray(TwoElements, Machine(5, ParseArrayMaybe, [Undefined]), [false], [Null])
         == (Yield(Some(List([Null, Bool(true)]))), Machine(11, Undefined, []), [])
  {
    TwoElementsSecond();
    TwoElementsLast();
    assert [Null] + [Bool(true)] == [Null, Bool(true)];
  }

  /** The elements of an array are kept in document order. */
  lemma BuildArrayInOrder()
    ensures BuildNext(TwoElements, Initial, []).0 == Yield(Some(List([Null, Bool(true)])))
  {
    TwoElementsOpen();
    TwoElementsFirst();
    TwoElementsRest();
    assert [] + [false] == [false] && [] + [Null] == [Null];
  }

  /** A document with one key twice. */
  const DuplicateKeys: string := "{\"a\":null,\"a\":true}"

  // The parser's events on it, one step each.

  lemma DuplicateKeysOpen()
    ensures Step(DuplicateKeys, Initial) == (Some(ObjectBegin), Machine(1, ParseObject, [Undefined]))
  {
    assert DuplicateKeys[0] == '{' && [] + [Undefined] == [Undefined];
  }

  lemma DuplicateKeysFirstKey()
    ensures Step(DuplicateKeys, Machine(1, ParseObject, [Undefined])) == (Some(StringValue("a")), Machine(4, ParseObjectPair, [Undefined]))
  {
    var t := DuplicateKeys;
    assert LexString(t, 3, true) == StringOk("", 4);
    assert LexString(t, 2, true) == StringOk("a", 4);
    assert SkipWhitespace(t, 1) == 1;
    ObjectAt(t, 1, true, [Undefined], 1);
  }

  lemma DuplicateKeysFirstValue()
    ensures Step(DuplicateKeys, Machine(4, ParseObjectPair, [Undefined])) == (Some(NullValue), Machine(9, ParseObjectMaybe, [Undefined]))
  {
    var t := DuplicateKeys;
    assert Reads(t, 6, "ull") by {
      assert Reads(t, 9, "");
      assert Reads(t, 8, "l");
      assert Reads(t, 7, "ll");
    }
    assert SkipWhitespace(t, 4) == 4 && SkipWhitespace(t, 5) == 5;
    ObjectValueAt(t, 4, [Undefined], 4);
  }

  lemma DuplicateKeysSecondKey()
    ensures Step(DuplicateKeys, Machine(9, ParseObjectMaybe, [Undefined])) == (Some(StringValue("a")), Machine(13, ParseObjectPair, [Undefined]))
  {
    var t := DuplicateKeys;
    assert LexString(t, 12, true) == StringOk("", 13);
    assert LexString(t, 11, true) == StringOk("a", 13);
    assert SkipWhitespace(t, 9) == 9 && SkipWhitespace(t, 10) == 10;
    ObjectAt(t, 9, false, [Undefined], 9);
    ObjectAt(t, 10, false, [Undefined], 10);
  }

  lemma DuplicateKeysSecondValue()
    ensures Step(DuplicateKeys, Machine(13, ParseObjectPair, [Undefined])) == (Some(BooleanValue(true)), Machine(18, ParseObjectMaybe, [Undefined]))
  {
    var t := DuplicateKeys;
    assert Reads(t, 15, "rue") by {
      assert Reads(t, 18, "");
      assert Reads(t, 17, "e");
      assert Reads(t, 16, "ue");
    }
    assert SkipWhitespace(t, 13) == 13 && SkipWhitespace(t, 14) == 14;
    ObjectValueAt(t, 13, [Undefined], 13);
  }

  lemma DuplicateKeysClose()
    ensures Step(DuplicateKeys, Machine(18, ParseObjectMaybe, [Undefined])) == (Some(ObjectEnd), Machine(19, Undefined, []))
  {
    assert SkipWhitespace(DuplicateKeys, 18) == 18;
    ObjectAt(DuplicateKeys, 18, false, [Undefined], 18);
  }

  /** A key that comes again replaces the value it had: the last one wins. */
  lemma BuildDuplicateKeyOverwrites()
    ensures BuildNext(DuplicateKeys, Initial, []).0 == Yield(Some(Object(map["a" := Bool(true)])))
  {
    var t, stack := DuplicateKeys, [Undefined];
    var m1 := Machine(1, ParseObject, stack);
    var m2 := Machine(4, ParseObjectPair, stack);
    var m3 := Machine(9, ParseObjectMaybe, stack);
    var m4 := Machine(13, ParseObjectPair, stack);
    var m5 := Machine(18, ParseObjectMaybe, stack);
    var m6 := Machine(19, Undefined, []);
    DuplicateKeysOpen();
    DuplicateKeysFirstKey();
    DuplicateKeysFirstValue();
    DuplicateKeysSecondKey();
    DuplicateKeysSecondValue();
    DuplicateKeysClose();
    assert BuildNext(t, m2, []) == (Yield(Some(Null)), m3, []);
    assert BuildNext(t, m4, []) == (Yield(Some(Bool(true))), m5, []);
    assert map[]["a" := Null]["a" := Bool(true)] == map["a" := Bool(true)];
    assert BuildObject(t, m5, [], map["a" := Bool(true)]) == (Yield(Some(Object(map["a" := Bool(true)]))), m6, []);
    assert BuildObject(t, m3, [], map["a" := Null]) == BuildObject(t, m5, [], map["a" := Bool(true)]);
    assert BuildObject(t, m1, [], map[]) == BuildObject(t, m3, [], map["a" := Null]);
  }

  // ------------------------------------------------------------ the builder

  /** `Builder`: the parser it pulls events from and one flag per array being collected. */
  class Builder {
    const parser: Parser
    var arrays: seq<bool>

    ghost predicate Valid()
      reads this, parser
    {
      parser.Valid()
    }

    /** `Builder::new`: a fresh parser over the input, no array open. */
    constructor (input: seq<char>)
      ensures Valid() && fresh(parser)
      ensures parser.input == input && parser.Abs() == Initial && arrays == []
    {
      parser := new Parser(input);
      arrays := [];
    }

    /** `Builder::next`, recursive as in the source. */
    method Next() returns (r: Pull)
      requires Valid()
      modifies this, parser
      ensures Valid()
      ensures (r, parser.Abs(), arrays) == BuildNext(parser.input, old(parser.Abs()), old(arrays))
      decreases |parser.input| - parser.Abs().pos, 0
    {
      ghost var m := parser.Abs();
      var e := parser.Next();
      StepSound(parser.input, m);
      match e
      case None => r := Yield(None);
      case Some(event) =>
        match event
        case NullValue => r := Yield(Some(Null));
        case BooleanValue(b) => r := Yield(Some(Bool(b)));
        case NumberValue(n) => r := Yield(Some(F64(n)));
        case StringValue(str) => r := Yield(Some(String(str)));
        case ArrayBegin =>
          arrays := arrays + [false];
          r := CollectArray();
        case ObjectBegin =>
          r := CollectObject();
        case ArrayEnd =>
          if arrays == [] {
            r := Panic;
          } else {
            arrays := arrays[..|arrays| - 1] + [true];
            r := Yield(None);
          }
        case ObjectEnd => r := Panic;
        case Error(_) => r := Panic;
    }
    /** The loop of the `ArrayBegin` arm: values are pushed in order until a `None` ends the array. */
    method CollectArray() returns (r: Pull)
      requires Valid()
      modifies this, parser
      ensures Valid()
      ensures (r, parser.Abs(), arrays) == BuildArray(parser.input, old(parser.Abs()), old(arrays), [])
      decreases |parser.input| - parser.Abs().pos, 1
    {
      var items: seq<Value> := [];
      ghost var goal := BuildArray(parser.input, parser.Abs(), arrays, items);
      ghost var start := parser.Abs().pos;
      while true
        invariant Valid() && start <= parser.Abs().pos
        invariant goal == BuildArray(parser.input, parser.Abs(), arrays, items)
        decreases |parser.input| - parser.Abs().pos
      {
        var element := Next();
        if element.Panic? {
          return Panic;
        }
        match element.v
        case Some(v) =>
          items := items + [v];
        case None =>
          if arrays == [] {
            return Panic;
          } else if arrays[|arrays| - 1] {
            arrays := arrays[..|arrays| - 1];
            return Yield(Some(List(items)));
          } else {
            return Yield(None);
          }
      }
    }

    /** The loop of the `ObjectBegin` arm: a key, then a value to insert under it, until `ObjectEnd`. */
    method CollectObject() returns (r: Pull)
      requires Valid()
      modifies this, parser
      ensures Valid()
      ensures (r, parser.Abs(), arrays) == BuildObject(parser.input, old(parser.Abs()), old(arrays), map[])
      decreases |parser.input| - parser.Abs().pos, 1
    {
      var members: map<string, Value> := map[];
      ghost var goal := BuildObject(parser.input, parser.Abs(), arrays, members);
      ghost var start := parser.Abs().pos;
      while true
        invariant Valid() && start <= parser.Abs().pos
        invariant goal == BuildObject(parser.input, parser.Abs(), arrays, members)
        decreases |parser.input| - parser.Abs().pos
      {
        ghost var k := parser.Abs();
        var key := parser.Next();
        StepSound(parser.input, k);
        if key == Some(ObjectEnd) {
          return Yield(Some(Object(members)));
        } else if key.Some? && key.value.StringValue? {
          var value := Next();
          if value.Yield? && value.v.Some? {
            members := members[key.value.s := value.v.value];
          } else {
            return Panic;
          }
        } else {
          return Panic;
        }
      }
    }
  }
}
