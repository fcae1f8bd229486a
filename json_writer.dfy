/**
 * What `Builder` (src/logdrop/json.rs) builds from a written document, for
 * every document.
 *
 * A `Doc` is a JSON document as a writer holds it: like a `Value`, except
 * that an object is a sequence of members in writing order, so one key may
 * be written more than once. `Text` writes a document with no blanks,
 * numbers by `NumberText` and strings by `Quote`. `Meaning` is the `Value`
 * the document stands for: the elements of an array in order, and the
 * members of an object inserted one after the other, so that a later
 * member with a key replaces an earlier one.
 *
 * The round trip: from any state a value can be read in, `Builder::next`
 * over the written text yields the document's meaning and stops right
 * after the text, leaving the parser in the state after a value.
 */
module JsonWriter {
  import opened Wrappers
  import opened JsonValue
  import opened JsonLexer
  import opened JsonMachine
  import opened JsonBuilder

  datatype Doc =
    | DocNull
    | DocBool(b: bool)
    | DocNumber(n: Number)
    | DocString(s: string)
    | DocArray(items: seq<Doc>)
    | DocObject(members: seq<Member>)

  datatype Member = Member(key: string, value: Doc)

  // ------------------------------------------------------------ writing

  /** The document written with no blanks. */
  function Text(d: Doc): seq<char>
    decreases d
  {
    match d
    case DocNull => "null"
    case DocBool(b) => if b then "true" else "false"
    case DocNumber(n) => NumberText(n)
    case DocString(s) => "\"" + Quote(s)
    case DocArray(items) => "[" + ItemsFrom(items, 0)
    case DocObject(members) => "{" + MembersFrom(members, 0)
  }

  /** What stands before the k-th element or member: a comma, except before the first. */
  function Sep(k: nat): seq<char> {
    if k == 0 then "" else ","
  }

  /** The elements of an array from the k-th on, each after its separator, then `]`. */
  function ItemsFrom(items: seq<Doc>, k: nat): seq<char>
    requires k <= |items|
    decreases items, |items| - k
  {
    if k == |items| then "]" else Sep(k) + Text(items[k]) + ItemsFrom(items, k + 1)
  }

  /** The members of an object from the k-th on, each after its separator, then `}`. */
  function MembersFrom(members: seq<Member>, k: nat): seq<char>
    requires k <= |members|
    decreases members, |members| - k
  {
    if k == |members| then "}" else Sep(k) + MemberText(members[k]) + MembersFrom(members, k + 1)
  }

  /** One member: its key as a string, a colon, its value. */
  function MemberText(member: Member): seq<char>
    decreases member
  {
    "\"" + Quote(member.key) + ":" + Text(member.value)
  }

  /** The documents a writer can write so that they read back: numbers whose parts fit the parser's accumulators. */
  predicate Printable(d: Doc) {
    match d
    case DocNumber(n) => n.integer < WORD && n.exponent < WORD && AllDigits(n.fraction)
    case DocArray(items) => forall k :: 0 <= k < |items| ==> Printable(items[k])
    case DocObject(members) => forall k :: 0 <= k < |members| ==> Printable(members[k].value)
    case _ => true
  }

  // ------------------------------------------------------------ meaning

  /** The value a document stands for. */
  function Meaning(d: Doc): Value
    decreases d
  {
    match d
    case DocNull => Null
    case DocBool(b) => Bool(b)
    case DocNumber(n) => F64(n)
    case DocString(s) => String(s)
    case DocArray(items) => List(Values(items, |items|))
    case DocObject(members) => Object(Inserted(members, |members|))
  }

  /** The values of the first k elements, in order. */
  function Values(items: seq<Doc>, k: nat): seq<Value>
    requires k <= |items|
    decreases items, k
  {
    if k == 0 then [] else Values(items, k - 1) + [Meaning(items[k - 1])]
  }

  /** The first k members inserted one after the other into an empty map. */
  function Inserted(members: seq<Member>, k: nat): map<string, Value>
    requires k <= |members|
    decreases members, k
  {
    if k == 0 then map[] else Inserted(members, k - 1)[members[k - 1].key := Meaning(members[k - 1].value)]
  }

  /** The values of the first k elements are theirs, one each, in order. */
  lemma {:induction false} ValuesInOrder(items: seq<Doc>, k: nat)
    requires k <= |items|
    ensures |Values(items, k)| == k
    ensures forall j :: 0 <= j < k ==> Values(items, k)[j] == Meaning(items[j])
    decreases k
  {
    if k > 0 {
      ValuesInOrder(items, k - 1);
    }
  }

  /** No member after the j-th and before the n-th has the j-th member's key. */
  predicate LastBefore(members: seq<Member>, j: nat, n: nat)
    requires j < n <= |members|
  {
    forall i :: j < i < n ==> members[i].key != members[j].key
  }

  /** No member after the j-th has the j-th member's key. */
  predicate LastWith(members: seq<Member>, j: nat)
    requires j < |members|
  {
    LastBefore(members, j, |members|)
  }

  /** The keys of the first n members inserted are exactly theirs. */
  lemma {:induction false} InsertedKeys(members: seq<Member>, n: nat)
    requires n <= |members|
    ensures forall key :: key in Inserted(members, n) <==> exists j :: 0 <= j < n && members[j].key == key
    decreases n
  {
    if n > 0 {
      InsertedKeys(members, n - 1);
      forall key | key in Inserted(members, n) && key != members[n - 1].key
        ensures exists j :: 0 <= j < n && members[j].key == key
      {
        assert key in Inserted(members, n - 1);
      }
    }
  }

  /** Among the first n members inserted, a key holds the value of its last member. */
  lemma {:induction false} InsertedLastWins(members: seq<Member>, n: nat)
    requires n <= |members|
    ensures forall j :: 0 <= j < n && LastBefore(members, j, n) ==>
      members[j].key in Inserted(members, n) && Inserted(members, n)[members[j].key] == Meaning(members[j].value)
    decreases n
  {
    if n > 0 {
      InsertedLastWins(members, n - 1);
      forall j | 0 <= j < n - 1 && LastBefore(members, j, n)
        ensures members[j].key in Inserted(members, n) && Inserted(members, n)[members[j].key] == Meaning(members[j].value)
      {
        assert members[n - 1].key != members[j].key;
        assert LastBefore(members, j, n - 1);
      }
    }
  }

  // ------------------------------------------------------------ first characters

  /** A character `parse_value` starts a value at. */
  predicate Opener(c: char) {
    c == 'n' || c == 't' || c == 'f' || c == '-' || IsDigit(c) || c == '"' || c == '[' || c == '{'
  }

  /** Every written document is non-empty and starts with a character a value starts at. */
  lemma TextHead(d: Doc)
    ensures Text(d) != [] && Opener(Text(d)[0])
  {
    match d
    case DocNumber(n) =>
      assert NumberText(n) == SignText(n.negative) + UnsignedText(n);
      if !n.negative {
        assert NumberText(n)[0] == DecimalText(n.integer)[0];
      }
    case _ =>
  }

  /** After the first element, the rest of an array starts with `,` or `]`. */
  lemma ItemsHead(items: seq<Doc>, k: nat)
    requires 0 < k <= |items|
    ensures ItemsFrom(items, k) != [] && (ItemsFrom(items, k)[0] == ',' || ItemsFrom(items, k)[0] == ']')
  {
  }

  /** After the first member, the rest of an object starts with `,` or `}`. */
  lemma MembersHead(members: seq<Member>, k: nat)
    requires 0 < k <= |members|
    ensures MembersFrom(members, k) != [] && (MembersFrom(members, k)[0] == ',' || MembersFrom(members, k)[0] == '}')
  {
  }

  /**
   * The text s stands in t at index i, character by character. The same as
   * `Reads` (`PlacedReads`, `ReadsPlaced`), in a form whose pieces are cut
   * apart without walking the text.
   */
  predicate Placed(t: seq<char>, i: nat, s: seq<char>) {
    i + |s| <= |t| && forall k :: 0 <= k < |s| ==> t[i + k] == s[k]
  }

  /** Text placed at i is read there by the lexer. */
  lemma {:induction false} PlacedReads(t: seq<char>, i: nat, s: seq<char>)
    requires Placed(t, i, s)
    ensures Reads(t, i, s)
    decreases |s|
  {
    if s != [] {
      assert t[i] == s[0];
      forall k | 0 <= k < |s| - 1
        ensures t[i + 1 + k] == s[1..][k]
      {
        assert s[1..][k] == s[k + 1];
      }
      PlacedReads(t, i + 1, s[1..]);
    }
  }

  /** Text the lexer reads at i is placed there. */
  lemma ReadsPlaced(t: seq<char>, i: nat, s: seq<char>)
    requires Reads(t, i, s)
    ensures Placed(t, i, s)
  {
    forall k | 0 <= k < |s|
      ensures t[i + k] == s[k]
    {
      ReadsAt(t, i, s, k);
    }
  }

  /** Text placed as two parts one after the other. */
  lemma PlacedSplit(t: seq<char>, i: nat, a: seq<char>, b: seq<char>)
    requires Placed(t, i, a + b)
    ensures Placed(t, i, a) && Placed(t, i + |a|, b)
  {
    forall k | 0 <= k < |a|
      ensures t[i + k] == a[k]
    {
      assert (a + b)[k] == a[k];
    }
    forall k | 0 <= k < |b|
      ensures t[i + |a| + k] == b[k]
    {
      assert (a + b)[|a| + k] == b[k];
    }
  }

  /** One character of placed text. */
  lemma PlacedAt(t: seq<char>, i: nat, s: seq<char>, k: nat)
    requires Placed(t, i, s) && k < |s|
    ensures i + k < |t| && t[i + k] == s[k]
  {
  }

  // ------------------------------------------------------------ one parse step

  /** What stands before a value read in state st: the comma after an earlier element, the colon after a key, or nothing. */
  function Lead(st: ParserState): seq<char> {
    match st
    case ParseArrayMaybe => ","
    case ParseObjectPair => ":"
    case _ => ""
  }

  /** What stands before a key read in state st: the comma after an earlier member, or nothing. */
  function KeyLead(st: ParserState): seq<char> {
    if st.ParseObjectMaybe? then "," else ""
  }

  /**
   * A number must not run on into what follows it, nor end the input where
   * `parse_number_impl` refuses it (inside an array or an object).
   */
  predicate Delimited(t: seq<char>, j: nat, d: Doc, st: ParserState) {
    d.DocNumber? ==> !ContinuesNumber(At(t, j)) && (j == |t| ==> st.Undefined?)
  }

  /** The event of a document that is not an array or an object. */
  function ScalarEvent(d: Doc): JsonEvent
    requires !d.DocArray? && !d.DocObject?
  {
    match d
    case DocNull => NullValue
    case DocBool(b) => BooleanValue(b)
    case DocNumber(n) => NumberValue(n)
    case DocString(s) => StringValue(s)
  }

  /** `parse_value` at a written keyword: its event, and the index after it. */
  lemma OpenKeyword(t: seq<char>, i: nat, d: Doc, st: ParserState, stack: seq<ParserState>)
    requires (d.DocNull? || d.DocBool?) && Reads(t, i, Text(d))
    ensures i < |t| && ValueStep(t, i, st, stack) == Outcome(ScalarEvent(d), Machine(i + |Text(d)|, st, stack))
  {
    var w := Text(d);
    assert t[i] == w[0] && Reads(t, i + 1, w[1..]);
    if d.DocNull? {
      assert w[0] == 'n' && w[1..] == "ull";
    } else if d.b {
      assert w[0] == 't' && w[1..] == "rue";
    } else {
      assert w[0] == 'f' && w[1..] == "alse";
    }
  }

  /** `parse_value` at a written number: the number, and the index after it. */
  lemma OpenNumber(t: seq<char>, i: nat, n: Number, st: ParserState, stack: seq<ParserState>)
    requires n.integer < WORD && n.exponent < WORD && AllDigits(n.fraction)
    requires Reads(t, i, NumberText(n)) && Delimited(t, i + |NumberText(n)|, DocNumber(n), st)
    ensures i < |t| && ValueStep(t, i, st, stack) == Outcome(NumberValue(n), Machine(i + |NumberText(n)|, st, stack))
  {
    TextHead(DocNumber(n));
    ReadsAt(t, i, NumberText(n), 0);
    NumberRoundTrip(t, i, n);
    assert NumberImpl(t, i, st) == Ok((n, i + |NumberText(n)|));
  }

  /** `parse_value` at a written string: the string, and the index after its closing quote. */
  lemma OpenString(t: seq<char>, i: nat, s: string, st: ParserState, stack: seq<ParserState>)
    requires Reads(t, i, "\"" + Quote(s))
    ensures i < |t| && ValueStep(t, i, st, stack) == Outcome(StringValue(s), Machine(i + 1 + |Quote(s)|, st, stack))
  {
    ReadsSplit(t, i, "\"", Quote(s));
    ReadsAt(t, i, "\"", 0);
    QuoteRoundTrip(t, i + 1, s, st.ParseObjectPair?);
  }

  /** `parse_value` at a written `[` or `{`: the container opens and st is pushed. */
  lemma OpenContainer(t: seq<char>, i: nat, st: ParserState, stack: seq<ParserState>)
    requires i < |t| && (t[i] == '[' || t[i] == '{')
    ensures t[i] == '[' ==> ValueStep(t, i, st, stack) == Outcome(ArrayBegin, Machine(i + 1, ParseArray, stack + [st]))
    ensures t[i] == '{' ==> ValueStep(t, i, st, stack) == Outcome(ObjectBegin, Machine(i + 1, ParseObject, stack + [st]))
  {
  }

  /**
   * One call of `next` in a state a value can be read in, with the written
   * lead and then a character a value starts with: the lead is passed over
   * and `parse_value` reads from that character in the state after a value.
   */
  lemma EntryStep(t: seq<char>, m: Machine, o: Outcome)
    requires m.pos <= |t| && Consistent(m.state, m.stack) && ValueEntry(m.state) && Reads(t, m.pos, Lead(m.state))
    requires var i := m.pos + |Lead(m.state)|; i < |t| && Opener(t[i])
    requires ValueStep(t, m.pos + |Lead(m.state)|, AfterValue(m.state), m.stack) == o
    ensures Step(t, m) == (Some(o.event), o.next)
  {
    match m.state
    case Undefined =>
    case ParseArray => EntryArray(t, m.pos, true, m.stack);
    case ParseArrayMaybe => EntryArray(t, m.pos, false, m.stack);
    case ParseObjectPair => EntryPair(t, m.pos, m.stack);
  }

  /** The value part of `next` inside an array: after `[`, or after an element and its comma. */
  lemma EntryArray(t: seq<char>, pos: nat, first: bool, stack: seq<ParserState>)
    requires pos <= |t| && stack != [] && Consistent(ParseArray, stack)
    requires var st := if first then ParseArray else ParseArrayMaybe;
      Reads(t, pos, Lead(st)) && pos + |Lead(st)| < |t| && Opener(t[pos + |Lead(st)|])
    ensures var st := if first then ParseArray else ParseArrayMaybe;
      var o := ValueStep(t, pos + |Lead(st)|, ParseArrayMaybe, stack);
      Step(t, Machine(pos, st, stack)) == (Some(o.event), o.next)
  {
    if first {
      ArrayAt(t, pos, true, stack, pos);
    } else {
      ReadsAt(t, pos, ",", 0);
      ArrayAt(t, pos, false, stack, pos);
      ArrayAt(t, pos + 1, false, stack, pos + 1);
    }
  }

  /** The value part of `next` after a key: the colon, then the value. */
  lemma EntryPair(t: seq<char>, pos: nat, stack: seq<ParserState>)
    requires pos <= |t| && stack != [] && Consistent(ParseObjectPair, stack)
    requires Reads(t, pos, ":") && pos + 1 < |t| && Opener(t[pos + 1])
    ensures var o := ValueStep(t, pos + 1, ParseObjectMaybe, stack);
      Step(t, Machine(pos, ParseObjectPair, stack)) == (Some(o.event), o.next)
  {
    ReadsAt(t, pos, ":", 0);
    ObjectValueAt(t, pos, stack, pos);
  }

  /** The written `]` of an array in the state after `[` or after an element: `next` answers `ArrayEnd` and pops. */
  lemma CloseArray(t: seq<char>, m: Machine, arrays: seq<bool>, acc: seq<Value>, r: Pulled)
    requires m.state.ParseArray? || m.state.ParseArrayMaybe?
    requires m.pos < |t| && t[m.pos] == ']' && m.stack != [] && Consistent(ParseArray, m.stack) && arrays != []
    requires r == (Yield(Some(List(acc))), Machine(m.pos + 1, m.stack[|m.stack| - 1], m.stack[..|m.stack| - 1]), arrays[..|arrays| - 1])
    ensures BuildArray(t, m, arrays, acc) == r
  {
    ArrayAt(t, m.pos, m.state.ParseArray?, m.stack, m.pos);
    var m1 := Machine(m.pos + 1, m.stack[|m.stack| - 1], m.stack[..|m.stack| - 1]);
    assert Step(t, m) == (Some(ArrayEnd), m1);
    var flags := arrays[..|arrays| - 1] + [true];
    assert BuildNext(t, m, arrays) == (Yield(None), m1, flags);
    assert flags[..|flags| - 1] == arrays[..|arrays| - 1];
  }

  /** The written `}` of an object in the state after `{` or after a member: `next` answers `ObjectEnd` and pops. */
  lemma CloseObject(t: seq<char>, m: Machine, arrays: seq<bool>, acc: map<string, Value>)
    requires m.state.ParseObject? || m.state.ParseObjectMaybe?
    requires m.pos < |t| && t[m.pos] == '}' && m.stack != [] && Consistent(ParseObject, m.stack)
    ensures BuildObject(t, m, arrays, acc)
         == (Yield(Some(Object(acc))), Machine(m.pos + 1, m.stack[|m.stack| - 1], m.stack[..|m.stack| - 1]), arrays)
  {
    ObjectAt(t, m.pos, m.state.ParseObject?, m.stack, m.pos);
  }

  /** A written key, after its lead, in the state after `{` or after a member: `next` answers the key. */
  lemma KeyStep(t: seq<char>, pos: nat, st: ParserState, stack: seq<ParserState>, key: string)
    requires st.ParseObject? || st.ParseObjectMaybe?
    requires stack != [] && Consistent(ParseObject, stack)
    requires Reads(t, pos, KeyLead(st)) && Reads(t, pos + |KeyLead(st)|, "\"" + Quote(key))
    ensures Step(t, Machine(pos, st, stack))
         == (Some(StringValue(key)), Machine(pos + |KeyLead(st)| + 1 + |Quote(key)|, ParseObjectPair, stack))
  {
    var j := pos + |KeyLead(st)|;
    KeyFirst(t, j, stack, key);
    if st.ParseObjectMaybe? {
      ReadsAt(t, j, "\"" + Quote(key), 0);
      KeyAfterComma(t, pos, stack, key);
    }
  }

  /** A written key in the state after `{`: `next` answers the key. */
  lemma KeyFirst(t: seq<char>, pos: nat, stack: seq<ParserState>, key: string)
    requires stack != [] && Consistent(ParseObject, stack) && Reads(t, pos, "\"" + Quote(key))
    ensures Step(t, Machine(pos, ParseObject, stack))
         == (Some(StringValue(key)), Machine(pos + 1 + |Quote(key)|, ParseObjectPair, stack))
  {
    ReadsAt(t, pos, "\"" + Quote(key), 0);
    ObjectAt(t, pos, true, stack, pos);
    KeyString(t, pos, stack, key);
  }

  /** The string scanner at a written key: the key, and the index after its closing quote. */
  lemma KeyString(t: seq<char>, pos: nat, stack: seq<ParserState>, key: string)
    requires Reads(t, pos, "\"" + Quote(key))
    ensures pos < |t| && StringStep(t, pos, ParseObjectPair, stack)
         == Outcome(StringValue(key), Machine(pos + 1 + |Quote(key)|, ParseObjectPair, stack))
  {
    ReadsSplit(t, pos, "\"", Quote(key));
    QuoteRoundTrip(t, pos + 1, key, true);
  }

  /** A key after a member and its comma: the comma is passed over and the key is read. */
  lemma KeyAfterComma(t: seq<char>, pos: nat, stack: seq<ParserState>, key: string)
    requires stack != [] && Consistent(ParseObject, stack)
    requires Reads(t, pos, ",") && pos + 1 < |t| && t[pos + 1] == '"'
    ensures Step(t, Machine(pos, ParseObjectMaybe, stack)) == Step(t, Machine(pos + 1, ParseObject, stack))
  {
    ReadsAt(t, pos, ",", 0);
    ObjectAt(t, pos, false, stack, pos);
    ObjectAt(t, pos + 1, false, stack, pos + 1);
    ObjectAt(t, pos + 1, true, stack, pos + 1);
  }

  // ------------------------------------------------------------ the builder, one event at a time

  /** What the preconditions of `BuildsDocument` say about the document d written at machine m. */
  predicate WrittenAt(t: seq<char>, m: Machine, d: Doc) {
    && m.pos <= |t| && Consistent(m.state, m.stack) && ValueEntry(m.state) && Printable(d)
    && Placed(t, m.pos, Lead(m.state)) && Placed(t, m.pos + |Lead(m.state)|, Text(d))
    && Delimited(t, m.pos + |Lead(m.state)| + |Text(d)|, d, AfterValue(m.state))
  }

  /** A written scalar: one parser step answers its event and stops right after it. */
  lemma ScalarStep(t: seq<char>, m: Machine, d: Doc)
    requires ScalarRead(t, m, d)
    ensures Step(t, m) == (Some(ScalarEvent(d)), Machine(m.pos + |Lead(m.state)| + |Text(d)|, AfterValue(m.state), m.stack))
  {
    match d
    case DocNumber(_) => NumberStepAt(t, m, d);
    case DocString(_) => StringStepAt(t, m, d);
    case DocNull => KeywordStepAt(t, m, d);
    case DocBool(_) => KeywordStepAt(t, m, d);
  }

  /** A written number, after its lead: one step reads it whole. */
  lemma NumberStepAt(t: seq<char>, m: Machine, d: Doc)
    requires ScalarRead(t, m, d) && d.DocNumber?
    ensures Step(t, m) == (Some(ScalarEvent(d)), Machine(m.pos + |Lead(m.state)| + |Text(d)|, AfterValue(m.state), m.stack))
  {
    var o := Outcome(ScalarEvent(d), Machine(m.pos + |Lead(m.state)| + |Text(d)|, AfterValue(m.state), m.stack));
    NumberValueIn(t, m, d);
    match m.state
    case Undefined => EntryStep(t, m, o);
    case ParseArray => EntryStep(t, m, o);
    case ParseArrayMaybe => EntryStep(t, m, o);
    case ParseObjectPair => EntryStep(t, m, o);
  }

  /** A written string, after its lead: one step reads it up to its closing quote. */
  lemma StringStepAt(t: seq<char>, m: Machine, d: Doc)
    requires ScalarRead(t, m, d) && d.DocString?
    ensures Step(t, m) == (Some(ScalarEvent(d)), Machine(m.pos + |Lead(m.state)| + |Text(d)|, AfterValue(m.state), m.stack))
  {
    StringValueAt(t, m.pos + |Lead(m.state)|, d, AfterValue(m.state), m.stack);
    EntryStep(t, m, Outcome(ScalarEvent(d), Machine(m.pos + |Lead(m.state)| + |Text(d)|, AfterValue(m.state), m.stack)));
  }

  /** A written `null`, `true` or `false`, after its lead: one step reads the keyword. */
  lemma KeywordStepAt(t: seq<char>, m: Machine, d: Doc)
    requires ScalarRead(t, m, d) && (d.DocNull? || d.DocBool?)
    ensures Step(t, m) == (Some(ScalarEvent(d)), Machine(m.pos + |Lead(m.state)| + |Text(d)|, AfterValue(m.state), m.stack))
  {
    KeywordValueAt(t, m.pos + |Lead(m.state)|, d, AfterValue(m.state), m.stack);
    EntryStep(t, m, Outcome(ScalarEvent(d), Machine(m.pos + |Lead(m.state)| + |Text(d)|, AfterValue(m.state), m.stack)));
  }

  /** A scalar written at m, seen character by character. */
  predicate ScalarRead(t: seq<char>, m: Machine, d: Doc) {
    && m.pos <= |t| && Consistent(m.state, m.stack) && ValueEntry(m.state) && Printable(d) && !d.DocArray? && !d.DocObject?
    && Reads(t, m.pos, Lead(m.state)) && Reads(t, m.pos + |Lead(m.state)|, Text(d))
    && Delimited(t, m.pos + |Lead(m.state)| + |Text(d)|, d, AfterValue(m.state))
  }

  /** A written scalar is read where it is placed. */
  lemma ScalarReads(t: seq<char>, m: Machine, d: Doc)
    requires WrittenAt(t, m, d) && !d.DocArray? && !d.DocObject?
    ensures ScalarRead(t, m, d)
  {
    KeyReads(t, m.pos, Lead(m.state), Text(d));
  }

  /** The number read where a value is expected, after the lead of the state. */
  lemma NumberValueIn(t: seq<char>, m: Machine, d: Doc)
    requires ScalarRead(t, m, d) && d.DocNumber?
    ensures var i := m.pos + |Lead(m.state)|;
      && i < |t| && Opener(t[i])
      && ValueStep(t, i, AfterValue(m.state), m.stack) == Outcome(ScalarEvent(d), Machine(i + |Text(d)|, AfterValue(m.state), m.stack))
  {
    NumberValueAt(t, m.pos + |Lead(m.state)|, d, AfterValue(m.state), m.stack);
  }

  /** A written number at i, not followed by more of a number, is the value read there. */
  lemma NumberValueAt(t: seq<char>, i: nat, d: Doc, st: ParserState, stack: seq<ParserState>)
    requires d.DocNumber? && Printable(d)
    requires Reads(t, i, Text(d)) && Delimited(t, i + |Text(d)|, d, st)
    ensures i < |t| && Opener(t[i])
    ensures ValueStep(t, i, st, stack) == Outcome(ScalarEvent(d), Machine(i + |Text(d)|, st, stack))
  {
    TextHead(d);
    ReadsAt(t, i, Text(d), 0);
    NumberWritten(t, i, d, st);
    OpenNumber(t, i, d.n, st, stack);
  }

  /** A written string at i is the value read there. */
  lemma StringValueAt(t: seq<char>, i: nat, d: Doc, st: ParserState, stack: seq<ParserState>)
    requires d.DocString? && Printable(d)
    requires Reads(t, i, Text(d)) && Delimited(t, i + |Text(d)|, d, st)
    ensures i < |t| && Opener(t[i])
    ensures ValueStep(t, i, st, stack) == Outcome(ScalarEvent(d), Machine(i + |Text(d)|, st, stack))
  {
    TextHead(d);
    ReadsAt(t, i, Text(d), 0);
    OpenString(t, i, d.s, st, stack);
  }

  /** A written keyword at i is the value read there. */
  lemma KeywordValueAt(t: seq<char>, i: nat, d: Doc, st: ParserState, stack: seq<ParserState>)
    requires (d.DocNull? || d.DocBool?) && Printable(d)
    requires Reads(t, i, Text(d)) && Delimited(t, i + |Text(d)|, d, st)
    ensures i < |t| && Opener(t[i])
    ensures ValueStep(t, i, st, stack) == Outcome(ScalarEvent(d), Machine(i + |Text(d)|, st, stack))
  {
    TextHead(d);
    ReadsAt(t, i, Text(d), 0);
    OpenKeyword(t, i, d, st, stack);
  }

  /** A written number, seen as a number. */
  lemma NumberWritten(t: seq<char>, i: nat, d: Doc, st: ParserState)
    requires d.DocNumber? && Printable(d) && Reads(t, i, Text(d)) && Delimited(t, i + |Text(d)|, d, st)
    ensures d.n.integer < WORD && d.n.exponent < WORD && AllDigits(d.n.fraction)
    ensures Reads(t, i, NumberText(d.n)) && Delimited(t, i + |NumberText(d.n)|, DocNumber(d.n), st)
  {
  }

  /** What `Builder::next` answers over a written document d at machine m: its meaning, right after its text. */
  function Built(m: Machine, d: Doc, arrays: seq<bool>): Pulled {
    (Yield(Some(Meaning(d))), Machine(m.pos + |Lead(m.state)| + |Text(d)|, AfterValue(m.state), m.stack), arrays)
  }

  /** A written scalar is built as its meaning. */
  lemma ScalarBuild(t: seq<char>, m: Machine, d: Doc, arrays: seq<bool>)
    requires WrittenAt(t, m, d) && !d.DocArray? && !d.DocObject?
    ensures BuildNext(t, m, arrays) == Built(m, d, arrays)
  {
    ScalarWritten(t, m, d);
    ScalarYield(t, m, d, arrays, Built(m, d, arrays).1);
  }

  /** A written scalar: one parser step answers its event and stops right after it. */
  lemma ScalarWritten(t: seq<char>, m: Machine, d: Doc)
    requires WrittenAt(t, m, d) && !d.DocArray? && !d.DocObject?
    ensures Step(t, m) == (Some(ScalarEvent(d)), Machine(m.pos + |Lead(m.state)| + |Text(d)|, AfterValue(m.state), m.stack))
  {
    ScalarReads(t, m, d);
    ScalarStep(t, m, d);
  }

  /** A step answering a scalar's event is what `Builder::next` yields as the scalar's meaning. */
  lemma ScalarYield(t: seq<char>, m: Machine, d: Doc, arrays: seq<bool>, m1: Machine)
    requires m.pos <= |t| && Consistent(m.state, m.stack) && !d.DocArray? && !d.DocObject?
    requires Step(t, m) == (Some(ScalarEvent(d)), m1)
    ensures BuildNext(t, m, arrays) == (Yield(Some(Meaning(d))), m1, arrays)
  {
  }

  /** The machine right after the `[` or `{` of a container written at m, with the state after it pushed. */
  function Inner(m: Machine, st: ParserState): Machine {
    Machine(m.pos + |Lead(m.state)| + 1, st, m.stack + [AfterValue(m.state)])
  }

  /** A written `[` starts collecting an array, with a clear flag pushed on the flag stack. */
  lemma ArrayOpens(t: seq<char>, m: Machine, d: Doc, arrays: seq<bool>)
    requires WrittenAt(t, m, d) && d.DocArray?
    ensures BuildNext(t, m, arrays) == BuildArray(t, Inner(m, ParseArray), arrays + [false], [])
  {
    ContainerStep(t, m, d);
  }

  /** A written `{` starts collecting an object. */
  lemma ObjectOpens(t: seq<char>, m: Machine, d: Doc, arrays: seq<bool>)
    requires WrittenAt(t, m, d) && d.DocObject?
    ensures BuildNext(t, m, arrays) == BuildObject(t, Inner(m, ParseObject), arrays, map[])
  {
    ContainerStep(t, m, d);
  }

  /** One parser step over a written `[` or `{`: the container's event, and the state after the lead pushed. */
  lemma ContainerStep(t: seq<char>, m: Machine, d: Doc)
    requires WrittenAt(t, m, d) && (d.DocArray? || d.DocObject?)
    ensures Step(t, m)
         == (Some(if d.DocArray? then ArrayBegin else ObjectBegin), Inner(m, if d.DocArray? then ParseArray else ParseObject))
  {
    var i := m.pos + |Lead(m.state)|;
    PlacedAt(t, i, Text(d), 0);
    PlacedReads(t, m.pos, Lead(m.state));
    OpenContainer(t, i, AfterValue(m.state), m.stack);
    EntryStep(t, m, Outcome(if d.DocArray? then ArrayBegin else ObjectBegin, Inner(m, if d.DocArray? then ParseArray else ParseObject)));
  }

  /** An element built by `next` is appended to the array being collected. */
  lemma ElementThen(t: seq<char>, m: Machine, arrays: seq<bool>, acc: seq<Value>, v: Value, m1: Machine)
    requires m.pos <= |t| && Consistent(m.state, m.stack)
    requires BuildNext(t, m, arrays) == (Yield(Some(v)), m1, arrays)
    ensures BuildArray(t, m, arrays, acc) == BuildArray(t, m1, arrays, acc + [v])
  {
  }

  /** A key answered by the parser, followed by a value built by `next`, is inserted into the object being collected. */
  lemma MemberThen(t: seq<char>, m: Machine, key: string, mk: Machine, arrays: seq<bool>, acc: map<string, Value>, v: Value, m2: Machine)
    requires m.pos <= |t| && (m.state.ParseObject? || m.state.ParseObjectMaybe?) && Consistent(m.state, m.stack)
    requires Step(t, m) == (Some(StringValue(key)), mk)
    requires mk.pos <= |t| && Consistent(mk.state, mk.stack)
    requires BuildNext(t, mk, arrays) == (Yield(Some(v)), m2, arrays)
    ensures BuildObject(t, m, arrays, acc) == BuildObject(t, m2, arrays, acc[key := v])
  {
  }

  /** A written key placed after its lead, in the state after `{` or after a member: `next` answers the key. */
  lemma KeyPlaced(t: seq<char>, m: Machine, key: string)
    requires m.state.ParseObject? || m.state.ParseObjectMaybe?
    requires m.stack != [] && Consistent(ParseObject, m.stack)
    requires Placed(t, m.pos, KeyLead(m.state)) && Placed(t, m.pos + |KeyLead(m.state)|, "\"" + Quote(key))
    ensures Step(t, m) == (Some(StringValue(key)), Machine(m.pos + |KeyLead(m.state)| + 1 + |Quote(key)|, ParseObjectPair, m.stack))
  {
    KeyReads(t, m.pos, KeyLead(m.state), "\"" + Quote(key));
    KeyStep(t, m.pos, m.state, m.stack, key);
  }

  // ------------------------------------------------------------ the builder, whole documents

  /**
   * From a state a value can be read in, `Builder::next` over the lead and
   * a written document yields the document's meaning, stops right after
   * its text in the state after a value, and leaves the parser stack and
   * the flag stack as they were. (The expected answer r is a parameter so
   * that callers can name it in their own terms.)
   */
  lemma {:induction false} BuildsDocument(t: seq<char>, d: Doc, m: Machine, arrays: seq<bool>, r: Pulled)
    requires WrittenAt(t, m, d) && r == Built(m, d, arrays)
    ensures BuildNext(t, m, arrays) == r
    decreases d, 1
  {
    if d.DocArray? {
      ArrayBuild(t, d, m, arrays, r);
    } else if d.DocObject? {
      ObjectBuild(t, d, m, arrays, r);
    } else {
      ScalarBuild(t, m, d, arrays);
    }
  }

  /** A written array: `[`, then its elements collected with a fresh flag on the flag stack. */
  lemma {:induction false} ArrayBuild(t: seq<char>, d: Doc, m: Machine, arrays: seq<bool>, r: Pulled)
    requires WrittenAt(t, m, d) && d.DocArray? && r == Built(m, d, arrays)
    ensures BuildNext(t, m, arrays) == r
    decreases d, 0, 1
  {
    ArrayOpens(t, m, d, arrays);
    ArrayRest(t, d, m, arrays, r);
  }

  /** A written object: `{`, then its members inserted into an empty map. */
  lemma {:induction false} ObjectBuild(t: seq<char>, d: Doc, m: Machine, arrays: seq<bool>, r: Pulled)
    requires WrittenAt(t, m, d) && d.DocObject? && r == Built(m, d, arrays)
    ensures BuildNext(t, m, arrays) == r
    decreases d, 0, 1
  {
    ObjectOpens(t, m, d, arrays);
    ObjectRest(t, d, m, arrays, r);
  }

  /** After a written `[`: the elements and `]` close the array of their values. */
  lemma {:induction false} ArrayRest(t: seq<char>, d: Doc, m: Machine, arrays: seq<bool>, r: Pulled)
    requires WrittenAt(t, m, d) && d.DocArray? && r == Built(m, d, arrays)
    ensures BuildArray(t, Inner(m, ParseArray), arrays + [false], []) == r
    decreases d, 0, 0
  {
    ArrayInside(t, m, d, arrays, r);
    ItemsBuild(t, d.items, 0, Inner(m, ParseArray), arrays + [false], [], r);
  }

  /** After a written `{`: the members and `}` close the object of the members inserted in turn. */
  lemma {:induction false} ObjectRest(t: seq<char>, d: Doc, m: Machine, arrays: seq<bool>, r: Pulled)
    requires WrittenAt(t, m, d) && d.DocObject? && r == Built(m, d, arrays)
    ensures BuildObject(t, Inner(m, ParseObject), arrays, map[]) == r
    decreases d, 0, 0
  {
    ObjectInside(t, m, d, arrays, r);
    MembersBuild(t, d.members, 0, Inner(m, ParseObject), arrays, map[], r);
  }

  /** The state an array is in before its k-th element. */
  function ArraySt(k: nat): ParserState {
    if k == 0 then ParseArray else ParseArrayMaybe
  }

  /** The state an object is in before its k-th member. */
  function ObjectSt(k: nat): ParserState {
    if k == 0 then ParseObject else ParseObjectMaybe
  }

  /** The leads the parser passes over before an element or a key are the separators the writer puts there. */
  lemma LeadSep(k: nat)
    ensures Lead(ArraySt(k)) == Sep(k) && KeyLead(ObjectSt(k)) == Sep(k)
    ensures k > 0 ==> ArraySt(k) == ParseArrayMaybe && ObjectSt(k) == ParseObjectMaybe
  {
  }

  /** The elements of an array from the k-th on, written at m inside the array, the first k collected. */
  predicate ItemsAt(t: seq<char>, m: Machine, arrays: seq<bool>, items: seq<Doc>, k: nat) {
    && k <= |items| && m.pos <= |t| && m.state == ArraySt(k) && m.stack != [] && Consistent(ParseArray, m.stack) && arrays != []
    && (forall j :: 0 <= j < |items| ==> Printable(items[j])) && Placed(t, m.pos, ItemsFrom(items, k))
  }

  /** What collecting the elements from the k-th on at m closes: the list of all the elements' values. */
  function ItemsEnd(m: Machine, arrays: seq<bool>, items: seq<Doc>, k: nat): Pulled
    requires k <= |items| && m.stack != [] && arrays != []
  {
    (Yield(Some(List(Values(items, |items|)))), Machine(m.pos + |ItemsFrom(items, k)|, m.stack[|m.stack| - 1], m.stack[..|m.stack| - 1]), arrays[..|arrays| - 1])
  }

  /** After a written `[`: the elements, in the array pushed on the parser stack and the flag stack. */
  lemma ArrayInside(t: seq<char>, m: Machine, d: Doc, arrays: seq<bool>, r: Pulled)
    requires WrittenAt(t, m, d) && d.DocArray? && r == Built(m, d, arrays)
    ensures ItemsAt(t, Inner(m, ParseArray), arrays + [false], d.items, 0)
    ensures [] == Values(d.items, 0) && r == ItemsEnd(Inner(m, ParseArray), arrays + [false], d.items, 0)
  {
    ArrayItemsAt(t, m, d, arrays);
    ArrayItemsEnd(m, d, arrays, r);
  }

  /** After a written `[`, its elements stand where the array is collected. */
  lemma ArrayItemsAt(t: seq<char>, m: Machine, d: Doc, arrays: seq<bool>)
    requires WrittenAt(t, m, d) && d.DocArray?
    ensures ItemsAt(t, Inner(m, ParseArray), arrays + [false], d.items, 0)
  {
    PlacedSplit(t, m.pos + |Lead(m.state)|, "[", ItemsFrom(d.items, 0));
    PushConsistent(AfterValue(m.state), m.stack, ParseArray);
  }

  /** The array collected after a written `[` ends where the written array ends. */
  lemma ArrayItemsEnd(m: Machine, d: Doc, arrays: seq<bool>, r: Pulled)
    requires d.DocArray? && r == Built(m, d, arrays)
    ensures [] == Values(d.items, 0) && r == ItemsEnd(Inner(m, ParseArray), arrays + [false], d.items, 0)
  {
    var inner := m.stack + [AfterValue(m.state)];
    var flags := arrays + [false];
    assert inner[|inner| - 1] == AfterValue(m.state) && inner[..|inner| - 1] == m.stack && flags[..|flags| - 1] == arrays;
  }

  /**
   * The elements from the k-th on, then `]`: collected after the values of
   * the first k, they close the array of all the elements' values, in
   * order.
   */
  lemma {:induction false} ItemsBuild(t: seq<char>, items: seq<Doc>, k: nat, m: Machine, arrays: seq<bool>, acc: seq<Value>, r: Pulled)
    requires ItemsAt(t, m, arrays, items, k) && acc == Values(items, k) && r == ItemsEnd(m, arrays, items, k)
    ensures BuildArray(t, m, arrays, acc) == r
    decreases items, |items| - k, 1
  {
    if k == |items| {
      ItemsClose(t, items, m, arrays, acc, r);
    } else {
      ItemsNext(t, items, k, m, arrays, acc, r);
    }
  }

  /** After the last element: `]` closes the array. */
  lemma ItemsClose(t: seq<char>, items: seq<Doc>, m: Machine, arrays: seq<bool>, acc: seq<Value>, r: Pulled)
    requires ItemsAt(t, m, arrays, items, |items|) && acc == Values(items, |items|) && r == ItemsEnd(m, arrays, items, |items|)
    ensures BuildArray(t, m, arrays, acc) == r
  {
    ItemsLast(t, m, arrays, items);
    ItemsEndLast(m, arrays, items, acc, r);
    CloseArray(t, m, arrays, acc, r);
  }

  /** With every element collected, the end is the list of their values, one character on. */
  lemma ItemsEndLast(m: Machine, arrays: seq<bool>, items: seq<Doc>, acc: seq<Value>, r: Pulled)
    requires m.stack != [] && arrays != [] && acc == Values(items, |items|) && r == ItemsEnd(m, arrays, items, |items|)
    ensures r == (Yield(Some(List(acc))), Machine(m.pos + 1, m.stack[|m.stack| - 1], m.stack[..|m.stack| - 1]), arrays[..|arrays| - 1])
  {
    ItemsEndClosed(m, arrays, items);
  }

  /** Once every element is written, what remains is the one-character `]`. */
  lemma ItemsEndClosed(m: Machine, arrays: seq<bool>, items: seq<Doc>)
    requires m.stack != [] && arrays != []
    ensures ItemsEnd(m, arrays, items, |items|)
         == (Yield(Some(List(Values(items, |items|)))), Machine(m.pos + 1, m.stack[|m.stack| - 1], m.stack[..|m.stack| - 1]), arrays[..|arrays| - 1])
  {
    assert ItemsFrom(items, |items|) == "]";
  }

  /** After the last element stands the `]` that closes the array. */
  lemma ItemsLast(t: seq<char>, m: Machine, arrays: seq<bool>, items: seq<Doc>)
    requires ItemsAt(t, m, arrays, items, |items|)
    ensures m.state.ParseArray? || m.state.ParseArrayMaybe?
    ensures m.pos < |t| && t[m.pos] == ']'
  {
    assert ItemsFrom(items, |items|) == "]";
    PlacedAt(t, m.pos, "]", 0);
  }

  /** The k-th element, then the rest of the array. */
  lemma {:induction false} ItemsNext(t: seq<char>, items: seq<Doc>, k: nat, m: Machine, arrays: seq<bool>, acc: seq<Value>, r: Pulled)
    requires ItemsAt(t, m, arrays, items, k) && k < |items| && acc == Values(items, k) && r == ItemsEnd(m, arrays, items, k)
    ensures BuildArray(t, m, arrays, acc) == r
    decreases items, |items| - k, 0
  {
    var m1 := Machine(m.pos + |Sep(k)| + |Text(items[k])|, ArraySt(k + 1), m.stack);
    ItemsElement(t, m, arrays, items, k);
    ItemsRest(t, m, arrays, items, k);
    ItemsAdvance(m, arrays, items, k, m1, r);
    ElementStep(t, items[k], m, arrays, acc, m1, Values(items, k + 1));
    ItemsBuild(t, items, k + 1, m1, arrays, Values(items, k + 1), r);
  }

  /** The k-th element, cut from what follows it, is written where a value is read. */
  lemma ItemsElement(t: seq<char>, m: Machine, arrays: seq<bool>, items: seq<Doc>, k: nat)
    requires ItemsAt(t, m, arrays, items, k) && k < |items|
    ensures WrittenAt(t, m, items[k])
  {
    var j := m.pos + |Sep(k)| + |Text(items[k])|;
    LeadSep(k);
    ItemsCut(t, m.pos, items, k);
    ItemsFollow(t, j, items, k + 1);
    ElementPlaced(t, m, items[k], j);
  }

  /** What follows the k-th element: the elements from the (k + 1)-th on. */
  lemma ItemsRest(t: seq<char>, m: Machine, arrays: seq<bool>, items: seq<Doc>, k: nat)
    requires ItemsAt(t, m, arrays, items, k) && k < |items|
    ensures ItemsAt(t, Machine(m.pos + |Sep(k)| + |Text(items[k])|, ArraySt(k + 1), m.stack), arrays, items, k + 1)
    ensures |ItemsFrom(items, k)| == |Sep(k)| + |Text(items[k])| + |ItemsFrom(items, k + 1)|
  {
    ItemsCut(t, m.pos, items, k);
  }

  /** Past the k-th element: the machine after it, the values collected, and the same end. */
  lemma ItemsAdvance(m: Machine, arrays: seq<bool>, items: seq<Doc>, k: nat, m1: Machine, r: Pulled)
    requires k < |items| && m.state == ArraySt(k) && m.stack != [] && arrays != [] && r == ItemsEnd(m, arrays, items, k)
    requires |ItemsFrom(items, k)| == |Sep(k)| + |Text(items[k])| + |ItemsFrom(items, k + 1)|
    requires m1 == Machine(m.pos + |Sep(k)| + |Text(items[k])|, ArraySt(k + 1), m.stack)
    ensures m1 == Machine(m.pos + |Lead(m.state)| + |Text(items[k])|, ParseArrayMaybe, m.stack)
    ensures Values(items, k + 1) == Values(items, k) + [Meaning(items[k])]
    ensures r == ItemsEnd(m1, arrays, items, k + 1)
  {
    LeadSep(k);
    LeadSep(k + 1);
    ItemsEndNext(m, arrays, items, k, m1);
  }

  /** The end of the array is the same before and after the k-th element. */
  lemma ItemsEndNext(m: Machine, arrays: seq<bool>, items: seq<Doc>, k: nat, m1: Machine)
    requires k < |items| && m.stack != [] && arrays != [] && m1.stack == m.stack
    requires |ItemsFrom(items, k)| == |Sep(k)| + |Text(items[k])| + |ItemsFrom(items, k + 1)|
    requires m1.pos == m.pos + |Sep(k)| + |Text(items[k])|
    ensures ItemsEnd(m, arrays, items, k) == ItemsEnd(m1, arrays, items, k + 1)
  {
  }

  /** The elements from the k-th on, cut into the k-th with its separator and the rest. */
  lemma ItemsCut(t: seq<char>, pos: nat, items: seq<Doc>, k: nat)
    requires k < |items| && Placed(t, pos, ItemsFrom(items, k))
    ensures Placed(t, pos, Sep(k)) && Placed(t, pos + |Sep(k)|, Text(items[k]))
    ensures Placed(t, pos + |Sep(k)| + |Text(items[k])|, ItemsFrom(items, k + 1))
    ensures |ItemsFrom(items, k)| == |Sep(k)| + |Text(items[k])| + |ItemsFrom(items, k + 1)|
  {
    PlacedSplit(t, pos, Sep(k) + Text(items[k]), ItemsFrom(items, k + 1));
    PlacedSplit(t, pos, Sep(k), Text(items[k]));
  }

  /** What follows the k-th element starts with `,` or `]`. */
  lemma ItemsFollow(t: seq<char>, j: nat, items: seq<Doc>, k: nat)
    requires 0 < k <= |items| && Placed(t, j, ItemsFrom(items, k))
    ensures j < |t| && (t[j] == ',' || t[j] == ']')
  {
    ItemsHead(items, k);
    PlacedAt(t, j, ItemsFrom(items, k), 0);
  }

  /** An element written after its lead inside an array, followed by `,` or `]`, is written where a value is read. */
  lemma ElementPlaced(t: seq<char>, m: Machine, d: Doc, j: nat)
    requires (m.state.ParseArray? || m.state.ParseArrayMaybe?) && m.pos <= |t| && m.stack != [] && Consistent(ParseArray, m.stack) && Printable(d)
    requires Placed(t, m.pos, Lead(m.state)) && Placed(t, m.pos + |Lead(m.state)|, Text(d))
    requires j == m.pos + |Lead(m.state)| + |Text(d)| && j < |t| && (t[j] == ',' || t[j] == ']')
    ensures WrittenAt(t, m, d)
  {
    InArray(m.state, m.stack);
    Delimits(t, j, d, AfterValue(m.state));
    Written(t, m, d);
  }

  /** The parts of `WrittenAt`, put together. */
  lemma Written(t: seq<char>, m: Machine, d: Doc)
    requires m.pos <= |t| && Consistent(m.state, m.stack) && ValueEntry(m.state) && Printable(d)
    requires Placed(t, m.pos, Lead(m.state)) && Placed(t, m.pos + |Lead(m.state)|, Text(d))
    requires Delimited(t, m.pos + |Lead(m.state)| + |Text(d)|, d, AfterValue(m.state))
    ensures WrittenAt(t, m, d)
  {
  }

  /** Inside an array, before or after an element, the parser's state and stack agree. */
  lemma InArray(st: ParserState, stack: seq<ParserState>)
    requires (st.ParseArray? || st.ParseArrayMaybe?) && stack != [] && Consistent(ParseArray, stack)
    ensures Consistent(st, stack) && ValueEntry(st)
  {
  }

  /** A `,`, `]` or `}` ends any value written before it. */
  lemma Delimits(t: seq<char>, j: nat, d: Doc, st: ParserState)
    requires j < |t| && (t[j] == ',' || t[j] == ']' || t[j] == '}')
    ensures Delimited(t, j, d, st)
  {
  }

  /** One written element, after its lead, inside an array: its meaning is appended. */
  lemma ElementStep(t: seq<char>, first: Doc, m: Machine, arrays: seq<bool>, acc: seq<Value>, m1: Machine, acc1: seq<Value>)
    requires (m.state.ParseArray? || m.state.ParseArrayMaybe?) && WrittenAt(t, m, first)
    requires m1 == Machine(m.pos + |Lead(m.state)| + |Text(first)|, ParseArrayMaybe, m.stack) && acc1 == acc + [Meaning(first)]
    ensures BuildArray(t, m, arrays, acc) == BuildArray(t, m1, arrays, acc1)
    decreases first, 2
  {
    BuildsDocument(t, first, m, arrays, (Yield(Some(Meaning(first))), m1, arrays));
    ElementThen(t, m, arrays, acc, Meaning(first), m1);
  }

  /** The members of an object from the k-th on, written at m inside the object. */
  predicate MembersAt(t: seq<char>, m: Machine, members: seq<Member>, k: nat) {
    && k <= |members| && m.pos <= |t| && m.state == ObjectSt(k) && m.stack != [] && Consistent(ParseObject, m.stack)
    && (forall j :: 0 <= j < |members| ==> Printable(members[j].value)) && Placed(t, m.pos, MembersFrom(members, k))
  }

  /** What inserting the members from the k-th on at m closes: the object of all the members inserted in turn. */
  function MembersEnd(m: Machine, arrays: seq<bool>, members: seq<Member>, k: nat): Pulled
    requires k <= |members| && m.stack != []
  {
    (Yield(Some(Object(Inserted(members, |members|)))), Machine(m.pos + |MembersFrom(members, k)|, m.stack[|m.stack| - 1], m.stack[..|m.stack| - 1]), arrays)
  }

  /** One member written after its lead, followed by `,` or `}`, in the state after `{` or after a member. */
  predicate MemberAt(t: seq<char>, m: Machine, member: Member) {
    && (m.state.ParseObject? || m.state.ParseObjectMaybe?) && m.pos <= |t| && m.stack != [] && Consistent(ParseObject, m.stack)
    && Printable(member.value) && Placed(t, m.pos, KeyLead(m.state)) && Placed(t, m.pos + |KeyLead(m.state)|, MemberText(member))
    && var end := m.pos + |KeyLead(m.state)| + |MemberText(member)|; end < |t| && (t[end] == ',' || t[end] == '}')
  }

  /** After a written `{`: the members, in the object pushed on the parser stack. */
  lemma ObjectInside(t: seq<char>, m: Machine, d: Doc, arrays: seq<bool>, r: Pulled)
    requires WrittenAt(t, m, d) && d.DocObject? && r == Built(m, d, arrays)
    ensures MembersAt(t, Inner(m, ParseObject), d.members, 0)
    ensures map[] == Inserted(d.members, 0) && r == MembersEnd(Inner(m, ParseObject), arrays, d.members, 0)
  {
    ObjectMembersAt(t, m, d);
    ObjectMembersEnd(m, d, arrays, r);
  }

  /** After a written `{`, its members stand where the object is collected. */
  lemma ObjectMembersAt(t: seq<char>, m: Machine, d: Doc)
    requires WrittenAt(t, m, d) && d.DocObject?
    ensures MembersAt(t, Inner(m, ParseObject), d.members, 0)
  {
    PlacedSplit(t, m.pos + |Lead(m.state)|, "{", MembersFrom(d.members, 0));
    PushConsistent(AfterValue(m.state), m.stack, ParseObject);
  }

  /** The object collected after a written `{` ends where the written object ends. */
  lemma ObjectMembersEnd(m: Machine, d: Doc, arrays: seq<bool>, r: Pulled)
    requires d.DocObject? && r == Built(m, d, arrays)
    ensures map[] == Inserted(d.members, 0) && r == MembersEnd(Inner(m, ParseObject), arrays, d.members, 0)
  {
    var inner := m.stack + [AfterValue(m.state)];
    assert inner[|inner| - 1] == AfterValue(m.state) && inner[..|inner| - 1] == m.stack;
  }

  /**
   * The members from the k-th on, then `}`: inserted after the first k,
   * they close the object of all the members inserted in turn.
   */
  lemma {:induction false} MembersBuild(t: seq<char>, members: seq<Member>, k: nat, m: Machine, arrays: seq<bool>, acc: map<string, Value>, r: Pulled)
    requires MembersAt(t, m, members, k) && acc == Inserted(members, k) && r == MembersEnd(m, arrays, members, k)
    ensures BuildObject(t, m, arrays, acc) == r
    decreases members, |members| - k, 1
  {
    if k == |members| {
      MembersClose(t, members, m, arrays, acc, r);
    } else {
      MembersNext(t, members, k, m, arrays, acc, r);
    }
  }

  /** After the last member: `}` closes the object. */
  lemma MembersClose(t: seq<char>, members: seq<Member>, m: Machine, arrays: seq<bool>, acc: map<string, Value>, r: Pulled)
    requires MembersAt(t, m, members, |members|) && acc == Inserted(members, |members|) && r == MembersEnd(m, arrays, members, |members|)
    ensures BuildObject(t, m, arrays, acc) == r
  {
    assert MembersFrom(members, |members|) == "}";
    PlacedAt(t, m.pos, "}", 0);
    CloseObject(t, m, arrays, acc);
  }

  /** The k-th member, then the rest of the object. */
  lemma {:induction false} MembersNext(t: seq<char>, members: seq<Member>, k: nat, m: Machine, arrays: seq<bool>, acc: map<string, Value>, r: Pulled)
    requires MembersAt(t, m, members, k) && k < |members| && acc == Inserted(members, k) && r == MembersEnd(m, arrays, members, k)
    ensures BuildObject(t, m, arrays, acc) == r
    decreases members, |members| - k, 0
  {
    var m1 := Machine(m.pos + |Sep(k)| + |MemberText(members[k])|, ObjectSt(k + 1), m.stack);
    MembersMember(t, m, members, k);
    MembersRest(t, m, members, k);
    MembersAdvance(m, arrays, members, k, m1, r);
    MemberStep(t, members[k], m, arrays, acc, m1, Inserted(members, k + 1));
    MembersBuild(t, members, k + 1, m1, arrays, Inserted(members, k + 1), r);
  }

  /** The k-th member, cut from what follows it. */
  lemma MembersMember(t: seq<char>, m: Machine, members: seq<Member>, k: nat)
    requires MembersAt(t, m, members, k) && k < |members|
    ensures MemberAt(t, m, members[k])
  {
    LeadSep(k);
    MembersCut(t, m.pos, members, k);
    MembersFollow(t, m.pos + |Sep(k)| + |MemberText(members[k])|, members, k + 1);
  }

  /** What follows the k-th member: the members from the (k + 1)-th on. */
  lemma MembersRest(t: seq<char>, m: Machine, members: seq<Member>, k: nat)
    requires MembersAt(t, m, members, k) && k < |members|
    ensures MembersAt(t, Machine(m.pos + |Sep(k)| + |MemberText(members[k])|, ObjectSt(k + 1), m.stack), members, k + 1)
    ensures |MembersFrom(members, k)| == |Sep(k)| + |MemberText(members[k])| + |MembersFrom(members, k + 1)|
  {
    MembersCut(t, m.pos, members, k);
  }

  /** Past the k-th member: the machine after it, the members inserted, and the same end. */
  lemma MembersAdvance(m: Machine, arrays: seq<bool>, members: seq<Member>, k: nat, m1: Machine, r: Pulled)
    requires k < |members| && m.state == ObjectSt(k) && m.stack != [] && r == MembersEnd(m, arrays, members, k)
    requires |MembersFrom(members, k)| == |Sep(k)| + |MemberText(members[k])| + |MembersFrom(members, k + 1)|
    requires m1 == Machine(m.pos + |Sep(k)| + |MemberText(members[k])|, ObjectSt(k + 1), m.stack)
    ensures m1 == Machine(m.pos + |KeyLead(m.state)| + |MemberText(members[k])|, ParseObjectMaybe, m.stack)
    ensures Inserted(members, k + 1) == Inserted(members, k)[members[k].key := Meaning(members[k].value)]
    ensures r == MembersEnd(m1, arrays, members, k + 1)
  {
    LeadSep(k);
    LeadSep(k + 1);
    MembersEndNext(m, arrays, members, k, m1);
  }

  /** The end of the object is the same before and after the k-th member. */
  lemma MembersEndNext(m: Machine, arrays: seq<bool>, members: seq<Member>, k: nat, m1: Machine)
    requires k < |members| && m.stack != [] && m1.stack == m.stack
    requires |MembersFrom(members, k)| == |Sep(k)| + |MemberText(members[k])| + |MembersFrom(members, k + 1)|
    requires m1.pos == m.pos + |Sep(k)| + |MemberText(members[k])|
    ensures MembersEnd(m, arrays, members, k) == MembersEnd(m1, arrays, members, k + 1)
  {
  }

  /** The members from the k-th on, cut into the k-th with its separator and the rest. */
  lemma MembersCut(t: seq<char>, pos: nat, members: seq<Member>, k: nat)
    requires k < |members| && Placed(t, pos, MembersFrom(members, k))
    ensures Placed(t, pos, Sep(k)) && Placed(t, pos + |Sep(k)|, MemberText(members[k]))
    ensures Placed(t, pos + |Sep(k)| + |MemberText(members[k])|, MembersFrom(members, k + 1))
    ensures |MembersFrom(members, k)| == |Sep(k)| + |MemberText(members[k])| + |MembersFrom(members, k + 1)|
  {
    PlacedSplit(t, pos, Sep(k) + MemberText(members[k]), MembersFrom(members, k + 1));
    PlacedSplit(t, pos, Sep(k), MemberText(members[k]));
  }

  /** What follows the k-th member starts with `,` or `}`. */
  lemma MembersFollow(t: seq<char>, j: nat, members: seq<Member>, k: nat)
    requires 0 < k <= |members| && Placed(t, j, MembersFrom(members, k))
    ensures j < |t| && (t[j] == ',' || t[j] == '}')
  {
    MembersHead(members, k);
    PlacedAt(t, j, MembersFrom(members, k), 0);
  }

  /** One written member, after its lead, inside an object: its key and then its value are read, and the value is inserted under the key. */
  lemma MemberStep(t: seq<char>, member: Member, m: Machine, arrays: seq<bool>, acc: map<string, Value>, m1: Machine, acc1: map<string, Value>)
    requires MemberAt(t, m, member)
    requires m1 == Machine(m.pos + |KeyLead(m.state)| + |MemberText(member)|, ParseObjectMaybe, m.stack)
    requires acc1 == acc[member.key := Meaning(member.value)]
    ensures BuildObject(t, m, arrays, acc) == BuildObject(t, m1, arrays, acc1)
    decreases member, 3
  {
    MemberValue(t, member, m, arrays, m1);
    MemberKeyThen(t, m, member, arrays, acc, m1);
  }

  /** The value of a written member, read by `next` right after the key: it stops where the member ends. */
  lemma MemberValue(t: seq<char>, member: Member, m: Machine, arrays: seq<bool>, m1: Machine)
    requires MemberAt(t, m, member)
    requires m1 == Machine(m.pos + |KeyLead(m.state)| + |MemberText(member)|, ParseObjectMaybe, m.stack)
    ensures var k := m.pos + |KeyLead(m.state)| + 1 + |Quote(member.key)|;
      k <= |t| && BuildNext(t, Machine(k, ParseObjectPair, m.stack), arrays) == (Yield(Some(Meaning(member.value))), m1, arrays)
    decreases member, 2
  {
    MemberValueFrom(t, member, m.pos + |KeyLead(m.state)|, m.stack, arrays, m1);
  }

  /** The key of a written member, after its lead, is answered by the parser, and the value read after it is inserted under it. */
  lemma MemberKeyThen(t: seq<char>, m: Machine, member: Member, arrays: seq<bool>, acc: map<string, Value>, m1: Machine)
    requires MemberAt(t, m, member)
    requires var k := m.pos + |KeyLead(m.state)| + 1 + |Quote(member.key)|;
      k <= |t| && BuildNext(t, Machine(k, ParseObjectPair, m.stack), arrays) == (Yield(Some(Meaning(member.value))), m1, arrays)
    ensures BuildObject(t, m, arrays, acc) == BuildObject(t, m1, arrays, acc[member.key := Meaning(member.value)])
  {
    var mk := Machine(m.pos + |KeyLead(m.state)| + 1 + |Quote(member.key)|, ParseObjectPair, m.stack);
    MemberKey(t, m, member);
    KeyPlaced(t, m, member.key);
    MemberThen(t, m, member.key, mk, arrays, acc, Meaning(member.value), m1);
  }

  /** The key of a written member, after its lead. */
  lemma MemberKey(t: seq<char>, m: Machine, member: Member)
    requires MemberAt(t, m, member)
    ensures Placed(t, m.pos, KeyLead(m.state)) && Placed(t, m.pos + |KeyLead(m.state)|, "\"" + Quote(member.key))
  {
    MemberCut(t, m.pos + |KeyLead(m.state)|, member);
  }

  /** The same, from the index the member's text starts at. */
  lemma MemberValueFrom(t: seq<char>, member: Member, j: nat, stack: seq<ParserState>, arrays: seq<bool>, m1: Machine)
    requires stack != [] && Consistent(ParseObject, stack) && Printable(member.value)
    requires Placed(t, j, MemberText(member))
    requires var end := j + |MemberText(member)|; end < |t| && (t[end] == ',' || t[end] == '}')
    requires m1 == Machine(j + |MemberText(member)|, ParseObjectMaybe, stack)
    ensures var k := j + 1 + |Quote(member.key)|;
      k <= |t| && BuildNext(t, Machine(k, ParseObjectPair, stack), arrays) == (Yield(Some(Meaning(member.value))), m1, arrays)
    decreases member, 1
  {
    MemberValuePlaced(t, j, stack, member);
    MemberValueBuilt(t, member.value, Machine(j + 1 + |Quote(member.key)|, ParseObjectPair, stack), arrays, m1);
  }

  /** A value written after a key's colon is built by `next`, which stops right after it. */
  lemma MemberValueBuilt(t: seq<char>, d: Doc, mk: Machine, arrays: seq<bool>, m1: Machine)
    requires WrittenAt(t, mk, d) && mk.state == ParseObjectPair
    requires m1 == Machine(mk.pos + 1 + |Text(d)|, ParseObjectMaybe, mk.stack)
    ensures BuildNext(t, mk, arrays) == (Yield(Some(Meaning(d))), m1, arrays)
    decreases d, 2
  {
    BuildsDocument(t, d, mk, arrays, (Yield(Some(Meaning(d))), m1, arrays));
  }

  /** The value of a written member, after its colon, is written where a value is read, and ends where the member does. */
  lemma MemberValuePlaced(t: seq<char>, j: nat, stack: seq<ParserState>, member: Member)
    requires stack != [] && Consistent(ParseObject, stack) && Printable(member.value)
    requires Placed(t, j, MemberText(member))
    requires var end := j + |MemberText(member)|; end < |t| && (t[end] == ',' || t[end] == '}')
    ensures var k := j + 1 + |Quote(member.key)|;
      && WrittenAt(t, Machine(k, ParseObjectPair, stack), member.value)
      && k + 1 + |Text(member.value)| == j + |MemberText(member)|
  {
    MemberCut(t, j, member);
    ValuePlaced(t, j + 1 + |Quote(member.key)|, stack, member.value, j + |MemberText(member)|);
  }

  /** A key placed after its lead is read there. */
  lemma KeyReads(t: seq<char>, pos: nat, lead: seq<char>, key: seq<char>)
    requires Placed(t, pos, lead) && Placed(t, pos + |lead|, key)
    ensures Reads(t, pos, lead) && Reads(t, pos + |lead|, key)
  {
    PlacedReads(t, pos, lead);
    PlacedReads(t, pos + |lead|, key);
  }

  /** A written member cut into its key, its colon and its value. */
  lemma MemberCut(t: seq<char>, j: nat, member: Member)
    requires Placed(t, j, MemberText(member))
    ensures var k := j + 1 + |Quote(member.key)|;
      && Placed(t, j, "\"" + Quote(member.key)) && Placed(t, k, ":") && Placed(t, k + 1, Text(member.value))
      && k + 1 + |Text(member.value)| == j + |MemberText(member)|
  {
    var key := "\"" + Quote(member.key);
    PlacedSplit(t, j, key + ":", Text(member.value));
    PlacedSplit(t, j, key, ":");
  }

  /** A member's value written after its colon, followed by `,` or `}`, is written where a value is read. */
  lemma ValuePlaced(t: seq<char>, k: nat, stack: seq<ParserState>, d: Doc, end: nat)
    requires k <= |t| && stack != [] && Consistent(ParseObject, stack) && Printable(d)
    requires Placed(t, k, ":") && Placed(t, k + 1, Text(d))
    requires end == k + 1 + |Text(d)| && end < |t| && (t[end] == ',' || t[end] == '}')
    ensures WrittenAt(t, Machine(k, ParseObjectPair, stack), d)
  {
    InObject(stack);
    Delimits(t, end, d, ParseObjectMaybe);
  }

  /** Inside an object, after a key, the parser's state and stack agree. */
  lemma InObject(stack: seq<ParserState>)
    requires stack != [] && Consistent(ParseObject, stack)
    ensures Consistent(ParseObjectPair, stack)
  {
  }

  // ------------------------------------------------------------ round trips

  /**
   * The round trip: at the start of the input or between documents, one
   * call of `Builder::next` over a written document yields its meaning and
   * stops right after it, between documents again with no flag left over.
   */
  lemma BuildRoundTrip(t: seq<char>, i: nat, d: Doc)
    requires i <= |t| && Printable(d) && Reads(t, i, Text(d))
    requires d.DocNumber? ==> !ContinuesNumber(At(t, i + |Text(d)|))
    ensures BuildNext(t, Machine(i, Undefined, []), [])
         == (Yield(Some(Meaning(d))), Machine(i + |Text(d)|, Undefined, []), [])
  {
    RoundTripWritten(t, i, d);
    BuildsDocument(t, d, Machine(i, Undefined, []), [], (Yield(Some(Meaning(d))), Machine(i + |Text(d)|, Undefined, []), []));
  }

  /** A document read at the start of the input or between documents is written where a value is read. */
  lemma RoundTripWritten(t: seq<char>, i: nat, d: Doc)
    requires i <= |t| && Printable(d) && Reads(t, i, Text(d))
    requires d.DocNumber? ==> !ContinuesNumber(At(t, i + |Text(d)|))
    ensures WrittenAt(t, Machine(i, Undefined, []), d)
    ensures (Yield(Some(Meaning(d))), Machine(i + |Text(d)|, Undefined, []), []) == Built(Machine(i, Undefined, []), d, [])
  {
    ReadsPlaced(t, i, Text(d));
  }

  /** A written array `[w1,...,wn]` builds the list of the elements' values, in document order. */
  lemma BuildsListInOrder(t: seq<char>, i: nat, items: seq<Doc>)
    requires i <= |t| && Printable(DocArray(items)) && Reads(t, i, Text(DocArray(items)))
    ensures var r := BuildNext(t, Machine(i, Undefined, []), []);
      && r.0 == Yield(Some(List(Values(items, |items|))))
      && |Values(items, |items|)| == |items|
      && forall k :: 0 <= k < |items| ==> Values(items, |items|)[k] == Meaning(items[k])
  {
    BuildRoundTrip(t, i, DocArray(items));
    ValuesInOrder(items, |items|);
  }

  /**
   * A written object builds the map whose keys are the written keys and in
   * which each key holds the value of its last member: a later duplicate
   * key overwrites an earlier one.
   */
  lemma BuildsObjectLastWins(t: seq<char>, i: nat, members: seq<Member>)
    requires i <= |t| && Printable(DocObject(members)) && Reads(t, i, Text(DocObject(members)))
    ensures var r := BuildNext(t, Machine(i, Undefined, []), []);
      && r.0 == Yield(Some(Object(Inserted(members, |members|))))
      && (forall key :: key in Inserted(members, |members|) <==> exists k :: 0 <= k < |members| && members[k].key == key)
      && forall k :: 0 <= k < |members| && LastWith(members, k) ==>
           Inserted(members, |members|)[members[k].key] == Meaning(members[k].value)
  {
    BuildRoundTrip(t, i, DocObject(members));
    InsertedKeys(members, |members|);
    InsertedLastWins(members, |members|);
  }
}
