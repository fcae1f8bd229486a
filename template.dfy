/**
 * The path and message templates of the file output
 * (src/logdrop/output/files.rs): `FormatParser` splits a template such as
 * `/var/log/{source/host}.log` into `Literal` runs and `Placeholder` key
 * paths, and `consume` resolves one token against a record.
 *
 * `NextToken` is the pure specification of one call of `next` over the
 * template and a `Scanner` (how many characters the reader has yielded and
 * the parser state); the class `FormatParser` follows the Rust code and is
 * proved against it. The record is a `Value` of module JsonValue; how a
 * number is rendered as text is a parameter (`numberText`), since the
 * source leaves it to a floating-point formatter.
 */
module Template {
  import opened Wrappers
  import opened JsonValue

  /** `ParserError` of the template parser. */
  datatype FormatError = EOFWhileParsingPlaceholder

  /** `ParserEvent`: a literal run, a placeholder's key path, or an error. */
  datatype Token = Literal(text: string) | Placeholder(path: seq<string>) | Error(err: FormatError)

  /** `ParserState` of the template parser. */
  datatype FormatState = Undefined | ParsePlaceholder | Broken(err: FormatError)

  /** The reader's position in the template and the parser state. */
  datatype Scanner = Scanner(pos: nat, state: FormatState)

  const Start: Scanner := Scanner(0, Undefined)

  // ------------------------------------------------------------ key paths

  /** `split('/')` collected: the pieces between slashes, in order; an empty text is one empty piece. */
  function Split(s: string): (r: seq<string>)
    ensures |r| >= 1
    decreases |s|
  {
    if s == [] then [[]]
    else
      var rest := Split(s[1..]);
      if s[0] == '/' then [[]] + rest
      else [[s[0]] + rest[0]] + rest[1..]
  }

  /** The pieces put back together with a slash between each two. */
  function Join(parts: seq<string>): string
    requires |parts| >= 1
  {
    if |parts| == 1 then parts[0] else parts[0] + "/" + Join(parts[1..])
  }

  predicate NoSlash(s: string) {
    forall k :: 0 <= k < |s| ==> s[k] != '/'
  }

  /** Splitting loses nothing: the pieces joined give the text back. */
  lemma {:induction false} JoinSplit(s: string)
    ensures Join(Split(s)) == s
    decreases |s|
  {
    if s != [] {
      var rest := Split(s[1..]);
      JoinSplit(s[1..]);
      if s[0] == '/' {
        assert Join(Split(s)) == [] + "/" + Join(rest);
      } else {
        var first := [s[0]] + rest[0];
        if |rest| == 1 {
          assert Join(Split(s)) == first;
        } else {
          assert Split(s)[1..] == rest[1..];
          assert Join(Split(s)) == first + "/" + Join(rest[1..]);
          assert Join(rest) == rest[0] + "/" + Join(rest[1..]);
        }
        assert s == [s[0]] + s[1..];
      }
    }
  }

  /** No piece of a split holds a slash. */
  lemma {:induction false} SplitPieces(s: string)
    ensures forall k :: 0 <= k < |Split(s)| ==> NoSlash(Split(s)[k])
    decreases |s|
  {
    if s != [] {
      SplitPieces(s[1..]);
    }
  }

  /** A slash-free prefix joins the first piece of what follows it. */
  lemma {:induction false} SplitPrefix(a: string, rest: string)
    requires NoSlash(a)
    ensures Split(a + rest) == [a + Split(rest)[0]] + Split(rest)[1..]
    decreases |a|
  {
    if a != [] {
      assert (a + rest)[1..] == a[1..] + rest;
      SplitPrefix(a[1..], rest);
      assert [a[0]] + (a[1..] + Split(rest)[0]) == a + Split(rest)[0];
    } else {
      assert a + rest == rest && [] + Split(rest)[0] == Split(rest)[0];
      assert Split(rest) == [Split(rest)[0]] + Split(rest)[1..];
    }
  }

  /** Joining loses nothing either: slash-free pieces are split back into themselves. */
  lemma {:induction false} SplitJoin(parts: seq<string>)
    requires |parts| >= 1 && forall k :: 0 <= k < |parts| ==> NoSlash(parts[k])
    ensures Split(Join(parts)) == parts
    decreases |parts|
  {
    if |parts| == 1 {
      SplitPrefix(parts[0], []);
      assert parts[0] + [] == parts[0];
    } else {
      var rest := Join(parts[1..]);
      SplitJoin(parts[1..]);
      SplitPrefix(parts[0], "/" + rest);
      assert Split("/" + rest) == [[]] + Split(rest) by {
        assert ("/" + rest)[1..] == rest;
      }
      assert parts[0] + "/" + rest == parts[0] + ("/" + rest);
      assert parts[0] + [] == parts[0];
    }
  }

  // ------------------------------------------------------------ the tokenizer

  /** The index of the first c at or after i, or the end of t. */
  function Scan(t: string, i: nat, c: char): (j: nat)
    requires i <= |t|
    ensures i <= j <= |t|
    ensures j < |t| ==> t[j] == c
    decreases |t| - i
  {
    if i == |t| || t[i] == c then i else Scan(t, i + 1, c)
  }

  /** Nothing before the end of a scan is the character scanned for. */
  lemma {:induction false} ScanSkips(t: string, i: nat, c: char)
    requires i <= |t|
    ensures forall k :: i <= k < Scan(t, i, c) ==> t[k] != c
    decreases |t| - i
  {
    if i < |t| && t[i] != c {
      ScanSkips(t, i + 1, c);
    }
  }

  /**
   * `parse_literal`, with the first character at index i: the run up to the
   * next `{` (which is consumed and switches to `ParsePlaceholder`) or up to
   * the end of the template.
   */
  function LiteralStep(t: string, i: nat): (r: (Option<Token>, Scanner))
    requires i < |t|
    ensures r.0.Some? && r.0.value.Literal? && r.0.value.text != []
    ensures i < r.1.pos <= |t|
    ensures r.1.state.Undefined? || r.1.state.ParsePlaceholder?
    ensures r.1.state.Undefined? ==> r.1.pos == |t|
  {
    var j := Scan(t, i + 1, '{');
    if j < |t| then (Some(Literal(t[i..j])), Scanner(j + 1, ParsePlaceholder))
    else (Some(Literal(t[i..])), Scanner(|t|, Undefined))
  }

  /**
   * `parse_placeholder` from index i: the text up to the next `}` split on
   * `/`, back in `Undefined`; without a `}` the parser breaks.
   */
  function PlaceholderStep(t: string, i: nat): (r: (Option<Token>, Scanner))
    requires i <= |t|
    ensures r.0.Some? && (r.0.value.Placeholder? || r.0.value == Error(EOFWhileParsingPlaceholder))
    ensures r.0.value.Placeholder? ==> |r.0.value.path| >= 1 && i < r.1.pos <= |t| && r.1.state.Undefined?
    ensures r.0.value.Error? ==> r.1 == Scanner(|t|, Broken(EOFWhileParsingPlaceholder))
  {
    var j := Scan(t, i, '}');
    if j < |t| then (Some(Placeholder(Split(t[i..j]))), Scanner(j + 1, Undefined))
    else (Some(Error(EOFWhileParsingPlaceholder)), Scanner(|t|, Broken(EOFWhileParsingPlaceholder)))
  }

  /** `FormatParser::next` over the template t. */
  function NextToken(t: string, s: Scanner): (r: (Option<Token>, Scanner))
    requires s.pos <= |t|
    ensures r.1.pos <= |t|
    ensures r.0.Some? && !r.0.value.Error? ==> s.pos < r.1.pos && !r.1.state.Broken?
    ensures r.0.None? <==> s.state.Undefined? && s.pos == |t|
  {
    match s.state
    case Broken(e) => (Some(Error(e)), s)
    case ParsePlaceholder => PlaceholderStep(t, s.pos)
    case Undefined =>
      if s.pos == |t| then (None, s)
      else if t[s.pos] == '{' then PlaceholderStep(t, s.pos + 1)
      else LiteralStep(t, s.pos)
  }

  /** The template parser over a template read one character at a time. */
  class FormatParser {
    /** The characters the reader yields, in order. */
    const input: string
    /** How many of them it has yielded. */
    var pos: nat
    var state: FormatState

    ghost predicate Valid()
      reads this
    {
      pos <= |input|
    }

    ghost function Abs(): Scanner
      reads this
    {
      Scanner(pos, state)
    }

    /** `FormatParser::new`: nothing read yet, state `Undefined`. */
    constructor (input: string)
      ensures Valid() && this.input == input && Abs() == Start
    {
      this.input := input;
      pos := 0;
      state := Undefined;
    }

    /** `reader.next()`: the next character, or nothing (for good) at the end. */
    method Read() returns (c: Option<char>)
      requires Valid()
      modifies this`pos
      ensures Valid()
      ensures old(pos) < |input| ==> c == Some(input[old(pos)]) && pos == old(pos) + 1
      ensures old(pos) == |input| ==> c == None && pos == old(pos)
    {
      if pos < |input| {
        c := Some(input[pos]);
        pos := pos + 1;
      } else {
        c := None;
      }
    }

    /** `parse`: a `{` starts a placeholder, any other character a literal. */
    method Parse() returns (r: Option<Token>)
      requires Valid() && state == Undefined
      modifies this
      ensures Valid()
      ensures (r, Abs()) == NextToken(input, old(Abs()))
    {
      var c := Read();
      if c == Some('{') {
        r := ParsePlaceholder();
      } else if c.Some? {
        r := ParseLiteral(c.value);
      } else {
        r := None;
      }
    }

    /** `parse_literal(ch)`, ch being the character just read. */
    method ParseLiteral(ch: char) returns (r: Option<Token>)
      requires Valid() && 0 < pos && input[pos - 1] == ch && state == Undefined
      modifies this
      ensures Valid()
      ensures (r, Abs()) == LiteralStep(input, old(pos) - 1)
    {
      ghost var start := pos - 1;
      var result := [ch];
      while true
        invariant Valid() && start < pos && state == Undefined
        invariant result == input[start..pos]
        invariant Scan(input, start + 1, '{') == Scan(input, pos, '{')
        decreases |input| - pos
      {
        var c := Read();
        if c == Some('{') {
          assert Scan(input, pos - 1, '{') == pos - 1;
          state := FormatState.ParsePlaceholder;
          break;
        } else if c.Some? {
          result := result + [c.value];
        } else {
          assert pos == |input| && input[start..pos] == input[start..];
          assert Scan(input, start + 1, '{') == |input|;
          break;
        }
      }
      r := Some(Literal(result));
    }

    /** `parse_placeholder`: the text up to `}`, split on `/`. */
    method ParsePlaceholder() returns (r: Option<Token>)
      requires Valid()
      modifies this
      ensures Valid()
      ensures (r, Abs()) == PlaceholderStep(input, old(pos))
    {
      ghost var start := pos;
      var result := [];
      while true
        invariant Valid() && start <= pos
        invariant result == input[start..pos]
        invariant Scan(input, start, '}') == Scan(input, pos, '}')
        decreases |input| - pos
      {
        var c := Read();
        if c == Some('}') {
          state := Undefined;
          return Some(Placeholder(Split(result)));
        } else if c.Some? {
          result := result + [c.value];
        } else {
          state := Broken(EOFWhileParsingPlaceholder);
          return Some(Error(EOFWhileParsingPlaceholder));
        }
      }
    }

    /** `next`: dispatch on the state; a broken parser repeats its error. */
    method Next() returns (r: Option<Token>)
      requires Valid()
      modifies this
      ensures Valid()
      ensures (r, Abs()) == NextToken(input, old(Abs()))
    {
      match state
      case Undefined => r := Parse();
      case ParsePlaceholder => r := ParsePlaceholder();
      case Broken(err) => r := Some(Error(err));
    }
  }

  // ------------------------------------------------------------ all the tokens

  /**
   * The tokens of a template from scanner s: every token up to the end of
   * the template, or up to and including the first error.
   */
  function Tokens(t: string, s: Scanner): (r: seq<Token>)
    requires s.pos <= |t|
    ensures forall k :: 0 <= k < |r| - 1 ==> !r[k].Error?
    decreases |t| - s.pos, if s.state.Broken? then 0 else 1
  {
    var r := NextToken(t, s);
    if r.0.None? then []
    else if r.0.value.Error? then [r.0.value]
    else [r.0.value] + Tokens(t, r.1)
  }

  /** The text a token stands for in the template. */
  function Unparse(tok: Token): string {
    match tok
    case Literal(text) => text
    case Placeholder(path) => if |path| >= 1 then "{" + Join(path) + "}" else "{}"
    case Error(_) => []
  }

  function UnparseAll(tokens: seq<Token>): string {
    if tokens == [] then [] else Unparse(tokens[0]) + UnparseAll(tokens[1..])
  }

  lemma UnparseCons(tok: Token, rest: seq<Token>)
    ensures UnparseAll([tok] + rest) == Unparse(tok) + UnparseAll(rest)
  {
    assert ([tok] + rest)[1..] == rest;
  }

  predicate NoError(tokens: seq<Token>) {
    forall k :: 0 <= k < |tokens| ==> !tokens[k].Error?
  }

  /** What the scanner's state stands for that the template has already shown: the `{` of an open placeholder. */
  function Opened(s: Scanner): string {
    if s.state.ParsePlaceholder? then "{" else []
  }

  /** A closed placeholder unparses to its text between braces. */
  lemma PlaceholderUnparse(t: string, i: nat)
    requires i <= |t| && Scan(t, i, '}') < |t|
    ensures var j := Scan(t, i, '}');
      Unparse(Placeholder(Split(t[i..j]))) + t[j + 1..] == "{" + t[i..]
  {
    var j := Scan(t, i, '}');
    var text := t[i..j];
    JoinSplit(text);
    calc {
      Unparse(Placeholder(Split(text))) + t[j + 1..];
      ("{" + text + "}") + t[j + 1..];
      { assert ("{" + text + "}") + t[j + 1..] == "{" + (text + ("}" + t[j + 1..])); }
      "{" + (text + ("}" + t[j + 1..]));
      { assert t[j..] == "}" + t[j + 1..]; assert t[i..] == text + t[j..]; }
      "{" + t[i..];
    }
  }

  /** One token unparsed, followed by what is left of the template, is what was left before it. */
  lemma StepUnparse(t: string, s: Scanner)
    requires s.pos <= |t| && !s.state.Broken?
    requires NextToken(t, s).0.Some? && !NextToken(t, s).0.value.Error?
    ensures var r := NextToken(t, s);
      Opened(s) + t[s.pos..] == Unparse(r.0.value) + (Opened(r.1) + t[r.1.pos..])
  {
    if s.state.ParsePlaceholder? {
      ClosingUnparse(t, s);
    } else if t[s.pos] == '{' {
      OpeningUnparse(t, s);
    } else {
      LiteralUnparse(t, s);
    }
  }

  /** StepUnparse for a placeholder already open. */
  lemma ClosingUnparse(t: string, s: Scanner)
    requires s.pos <= |t| && s.state.ParsePlaceholder?
    requires NextToken(t, s).0.Some? && !NextToken(t, s).0.value.Error?
    ensures var r := NextToken(t, s);
      Opened(s) + t[s.pos..] == Unparse(r.0.value) + (Opened(r.1) + t[r.1.pos..])
  {
    PlaceholderUnparse(t, s.pos);
  }

  /** StepUnparse for a placeholder opened by the next character. */
  lemma OpeningUnparse(t: string, s: Scanner)
    requires s.pos < |t| && s.state.Undefined? && t[s.pos] == '{'
    requires NextToken(t, s).0.Some? && !NextToken(t, s).0.value.Error?
    ensures var r := NextToken(t, s);
      Opened(s) + t[s.pos..] == Unparse(r.0.value) + (Opened(r.1) + t[r.1.pos..])
  {
    PlaceholderUnparse(t, s.pos + 1);
    assert t[s.pos..] == "{" + t[s.pos + 1..];
  }

  /** StepUnparse for a literal. */
  lemma LiteralUnparse(t: string, s: Scanner)
    requires s.pos < |t| && s.state.Undefined? && t[s.pos] != '{'
    ensures var r := NextToken(t, s);
      Opened(s) + t[s.pos..] == Unparse(r.0.value) + (Opened(r.1) + t[r.1.pos..])
  {
    var j := Scan(t, s.pos + 1, '{');
    if j < |t| {
      assert t[s.pos..] == t[s.pos..j] + "{" + t[j + 1..];
    } else {
      assert t[|t|..] == [];
    }
  }

  /**
   * The tokens of a template, unparsed, give the template back when there is
   * no error: a literal holds its text verbatim and a placeholder its text
   * between the braces, split on `/`.
   */
  lemma {:induction false} TokensRoundTrip(t: string, s: Scanner)
    requires s.pos <= |t| && !s.state.Broken? && NoError(Tokens(t, s))
    ensures UnparseAll(Tokens(t, s)) == Opened(s) + t[s.pos..]
    decreases |t| - s.pos
  {
    var r := NextToken(t, s);
    if r.0.Some? {
      assert Tokens(t, s)[0] == r.0.value;
      TokensCons(t, s);
      NoErrorCons(r.0.value, Tokens(t, r.1));
      TokensRoundTrip(t, r.1);
      UnparseCons(r.0.value, Tokens(t, r.1));
      StepUnparse(t, s);
    } else {
      assert t[s.pos..] == [];
    }
  }

  /** Some `{` at or after index i has no `}` anywhere after it. */
  predicate Unclosed(t: string, i: nat)
    requires i <= |t|
    decreases |t| - i
  {
    i < |t| && ((t[i] == '{' && Scan(t, i + 1, '}') == |t|) || Unclosed(t, i + 1))
  }

  /** Scanning from inside a scanned run finds the same end. */
  lemma {:induction false} ScanFrom(t: string, i: nat, k: nat, c: char)
    requires i <= |t| && i <= k <= Scan(t, i, c)
    ensures Scan(t, k, c) == Scan(t, i, c)
    decreases k - i
  {
    if i < k {
      ScanFrom(t, i + 1, k, c);
    }
  }

  /** A stretch in which every `{` is closed does not change whether the rest is unclosed. */
  lemma {:induction false} UnclosedSkip(t: string, i: nat, j: nat)
    requires i <= j <= |t|
    requires forall k :: i <= k < j ==> !(t[k] == '{' && Scan(t, k + 1, '}') == |t|)
    ensures Unclosed(t, i) == Unclosed(t, j)
    decreases j - i
  {
    if i < j {
      UnclosedSkip(t, i + 1, j);
    }
  }

  /** Up to a closing `}` found by a scan from i, every `{` is closed. */
  lemma ClosedRun(t: string, i: nat)
    requires i <= |t| && Scan(t, i, '}') < |t|
    ensures Unclosed(t, i) == Unclosed(t, Scan(t, i, '}') + 1)
  {
    var j := Scan(t, i, '}');
    forall k | i <= k < j + 1
      ensures !(t[k] == '{' && Scan(t, k + 1, '}') == |t|)
    {
      if k < j {
        ScanFrom(t, i, k + 1, '}');
      }
    }
    UnclosedSkip(t, i, j + 1);
  }

  /** A `{` left open at the scanner or further on. */
  predicate OpenFrom(t: string, s: Scanner)
    requires s.pos <= |t|
  {
    (s.state.ParsePlaceholder? && Scan(t, s.pos, '}') == |t|) || Unclosed(t, s.pos)
  }

  /** A token that is not an error leaves whatever is left open as it was. */
  lemma StepOpen(t: string, s: Scanner)
    requires s.pos <= |t| && !s.state.Broken?
    requires NextToken(t, s).0.Some? && !NextToken(t, s).0.value.Error?
    ensures OpenFrom(t, s) == OpenFrom(t, NextToken(t, s).1)
  {
    if s.state.ParsePlaceholder? {
      ClosedRun(t, s.pos);
    } else if t[s.pos] == '{' {
      ClosedRun(t, s.pos + 1);
    } else {
      ScanSkips(t, s.pos + 1, '{');
      UnclosedSkip(t, s.pos, Scan(t, s.pos + 1, '{'));
    }
  }

  /** The tokens after one that is not an error. */
  lemma TokensCons(t: string, s: Scanner)
    requires s.pos <= |t|
    requires NextToken(t, s).0.Some? && !NextToken(t, s).0.value.Error?
    ensures Tokens(t, s) == [NextToken(t, s).0.value] + Tokens(t, NextToken(t, s).1)
  {
  }

  /**
   * One pull of the collecting loop: the tokens collected so far, then the
   * ones after the scanner, are all the tokens, before and after the pull.
   */
  lemma TokensPull(t: string, s: Scanner, token: Option<Token>, s1: Scanner, done: seq<Token>, all: seq<Token>)
    requires s.pos <= |t| && (token, s1) == NextToken(t, s) && done + Tokens(t, s) == all
    ensures s1.pos <= |t|
    ensures token.None? ==> done == all
    ensures token.Some? && token.value.Error? ==> done + [token.value] == all
    ensures token.Some? && !token.value.Error? ==>
      (done + [token.value]) + Tokens(t, s1) == all && s.pos < s1.pos && !s1.state.Broken?
  {
    if token.None? {
      assert done + [] == done;
    } else if !token.value.Error? {
      assert done + ([token.value] + Tokens(t, s1)) == (done + [token.value]) + Tokens(t, s1);
    }
  }

  lemma NoErrorCons(tok: Token, rest: seq<Token>)
    ensures NoError([tok] + rest) <==> !tok.Error? && NoError(rest)
  {
    var tokens := [tok] + rest;
    assert tokens[0] == tok;
    if !NoError(rest) {
      var k :| 0 <= k < |rest| && rest[k].Error?;
      assert tokens[k + 1] == rest[k];
    }
    if !NoError(tokens) {
      var k :| 0 <= k < |tokens| && tokens[k].Error?;
      assert k == 0 || rest[k - 1] == tokens[k];
    }
  }

  /**
   * The tokens hold an error exactly when the template has a `{` that is
   * never closed: the placeholder open at the scanner, or one further on.
   */
  lemma {:induction false} ErrorIffUnclosed(t: string, s: Scanner)
    requires s.pos <= |t| && !s.state.Broken?
    ensures !NoError(Tokens(t, s)) <==> OpenFrom(t, s)
    decreases |t| - s.pos
  {
    var r := NextToken(t, s);
    var tokens := Tokens(t, s);
    if r.0.Some? && !r.0.value.Error? {
      TokensCons(t, s);
      NoErrorCons(r.0.value, Tokens(t, r.1));
      ErrorIffUnclosed(t, r.1);
      StepOpen(t, s);
    } else if r.0.Some? {
      assert tokens == [r.0.value] && tokens[0].Error?;
      if s.state.Undefined? {
        assert Unclosed(t, s.pos);
      }
    } else {
      assert tokens == [] && !Unclosed(t, s.pos);
    }
  }

  /** A template with every `{` closed gives its tokens back: the round trip from the start. */
  lemma TemplateRoundTrip(t: string)
    requires !Unclosed(t, 0)
    ensures NoError(Tokens(t, Start))
    ensures UnparseAll(Tokens(t, Start)) == t
  {
    ErrorIffUnclosed(t, Start);
    TokensRoundTrip(t, Start);
    assert t[0..] == t;
  }

  /** Every literal is a non-empty run without `{`, and every key path has at least one piece. */
  lemma {:induction false} TokenShapes(t: string, s: Scanner)
    requires s.pos <= |t|
    ensures forall k :: 0 <= k < |Tokens(t, s)| ==>
      (Tokens(t, s)[k].Literal? ==> Tokens(t, s)[k].text != [] && '{' !in Tokens(t, s)[k].text) &&
      (Tokens(t, s)[k].Placeholder? ==> |Tokens(t, s)[k].path| >= 1)
    decreases |t| - s.pos, if s.state.Broken? then 0 else 1
  {
    var r := NextToken(t, s);
    if r.0.Some? && !r.0.value.Error? {
      TokenShapes(t, r.1);
      var tokens := Tokens(t, s);
      assert tokens == [r.0.value] + Tokens(t, r.1);
      if s.state.Undefined? && t[s.pos] != '{' {
        var j := Scan(t, s.pos + 1, '{');
        ScanSkips(t, s.pos + 1, '{');
        assert '{' !in t[s.pos..j];
      }
    }
  }

  /** An empty template has no token; a template without braces is one literal. */
  lemma PlainTemplates(t: string)
    requires forall k :: 0 <= k < |t| ==> t[k] != '{'
    ensures t == [] ==> Tokens(t, Start) == []
    ensures t != [] ==> Tokens(t, Start) == [Literal(t)]
  {
    if t != [] {
      var j := Scan(t, 1, '{');
      assert j == |t|;
      assert NextToken(t, Start) == (Some(Literal(t)), Scanner(|t|, Undefined));
    }
  }

  /** A key path is split on `/`, in order: `{id/source}` is the path `id`, `source`. */
  lemma NestedPlaceholder()
    ensures Tokens("{id/source}", Start) == [Placeholder(["id", "source"])]
  {
    var t := "{id/source}";
    assert Split(t[1..10]) == ["id", "source"] by {
      assert t[1..10] == "id/source";
      assert NoSlash("id") && NoSlash("source");
      assert Join(["id", "source"]) == "id/source";
      SplitJoin(["id", "source"]);
    }
    assert NextToken(t, Start) == (Some(Placeholder(["id", "source"])), Scanner(11, Undefined)) by {
      assert Scan(t, 1, '}') == 10;
    }
  }

  /** A broken parser answers the error that broke it, for good. */
  lemma BrokenRepeats(t: string, s: Scanner)
    requires s.pos <= |t| && s.state.Broken?
    ensures NextToken(t, s) == (Some(Error(s.state.err)), s)
  {
  }

  /**
   * A template whose last `{` is never closed breaks the parser: the
   * scanner's error is the last token, and the parser stays broken.
   */
  lemma UnclosedPlaceholder(t: string, i: nat)
    requires i <= |t| && Scan(t, i, '}') == |t|
    ensures Tokens(t, Scanner(i, ParsePlaceholder)) == [Error(EOFWhileParsingPlaceholder)]
    ensures NextToken(t, Scanner(i, ParsePlaceholder)).1 == Scanner(|t|, Broken(EOFWhileParsingPlaceholder))
  {
  }

  /**
   * `FormatParser::new(...).collect()` as `FileOutput::new` writes it,
   * given at most `fuel` calls of `next`: the tokens if `next` answers
   * `None` within them, nothing otherwise.
   */
  function CollectAsWritten(t: string, s: Scanner, fuel: nat): Option<seq<Token>>
    requires s.pos <= |t|
    decreases fuel
  {
    if fuel == 0 then None
    else
      var r := NextToken(t, s);
      if r.0.None? then Some([])
      else match CollectAsWritten(t, r.1, fuel - 1)
        case None => None
        case Some(rest) => Some([r.0.value] + rest)
  }

  /**
   * Once the parser is broken, `collect` never gets its `None`: however many
   * calls it makes, it is still collecting errors. An unclosed placeholder,
   * as in `{path`, therefore never lets `FileOutput::new` return.
   */
  lemma {:induction false} CollectNeverEnds(t: string, s: Scanner, fuel: nat)
    requires s.pos <= |t| && s.state.Broken?
    ensures CollectAsWritten(t, s, fuel).None?
    decreases fuel
  {
    if fuel > 0 {
      CollectNeverEnds(t, s, fuel - 1);
    }
  }

  lemma UnclosedTemplateHangs(fuel: nat)
    ensures CollectAsWritten("{path", Start, fuel).None?
  {
    var t := "{path";
    if fuel > 0 {
      assert Scan(t, 1, '}') == |t|;
      var broken := Scanner(|t|, Broken(EOFWhileParsingPlaceholder));
      assert NextToken(t, Start) == (Some(Error(EOFWhileParsingPlaceholder)), broken);
      CollectNeverEnds(t, broken, fuel - 1);
    }
  }

  /**
   * The collection `FileOutput::new` evidently means: pull tokens until
   * `None`, keeping the first error and stopping there.
   */
  method Tokenize(template: string) returns (tokens: seq<Token>)
    ensures tokens == Tokens(template, Start)
  {
    var parser := new FormatParser(template);
    tokens := [];
    while true
      invariant parser.Valid() && parser.input == template && !parser.state.Broken?
      invariant tokens + Tokens(template, parser.Abs()) == Tokens(template, Start)
      decreases |template| - parser.pos
    {
      ghost var before := parser.Abs();
      var token := parser.Next();
      TokensPull(template, before, token, parser.Abs(), tokens, Tokens(template, Start));
      if token.None? {
        break;
      }
      tokens := tokens + [token.value];
      if token.value.Error? {
        break;
      }
    }
  }

  // ------------------------------------------------------------ consume

  /** `TokenError`. */
  datatype TokenError = KeyNotFound(key: string) | TypeMismatch | SyntaxError(err: FormatError)

  /** The walk of `consume` down a key path: the value reached, or the first key missing on the way. */
  function Lookup(v: Value, path: seq<string>): (r: Result<Value, string>)
    ensures r.Err? ==> r.error in path
    decreases |path|
  {
    if path == [] then Ok(v)
    else match Find(v, path[0])
      case None => Err(path[0])
      case Some(w) => Lookup(w, path[1..])
  }

  /** How a reached value is written: a string as itself, scalars as text, containers refused. */
  function Render(v: Value, numberText: Number -> string): (r: Result<string, TokenError>)
    ensures r.Err? <==> v.List? || v.Object?
    ensures r.Err? ==> r.error == TypeMismatch
  {
    match v
    case String(s) => Ok(s)
    case List(_) => Err(TypeMismatch)
    case Object(_) => Err(TypeMismatch)
    case Null => Ok("null")
    case Bool(b) => Ok(if b then "true" else "false")
    case F64(n) => Ok(numberText(n))
  }

  /** What `consume` answers for a token and a record. */
  function TokenText(tok: Token, payload: Value, numberText: Number -> string): (r: Result<string, TokenError>)
    ensures tok.Literal? ==> r.Ok?
    ensures tok.Error? <==> r.Err? && r.error.SyntaxError?
    ensures r.Err? && r.error.KeyNotFound? ==> tok.Placeholder? && r.error.key in tok.path
  {
    match tok
    case Literal(text) => Ok(text)
    case Placeholder(path) =>
      (match Lookup(payload, path)
       case Err(key) => Err(KeyNotFound(key))
       case Ok(v) => Render(v, numberText))
    case Error(e) => Err(SyntaxError(e))
  }

  /** `consume`, with its loop over the key path. */
  method Consume(tok: Token, payload: Value, numberText: Number -> string) returns (r: Result<string, TokenError>)
    ensures r == TokenText(tok, payload, numberText)
  {
    match tok
    case Literal(text) => r := Ok(text);
    case Error(e) => r := Err(SyntaxError(e));
    case Placeholder(path) =>
      var current := payload;
      for i := 0 to |path|
        invariant Lookup(payload, path) == Lookup(current, path[i..])
      {
        match Find(current, path[i])
        case Some(v) =>
          assert path[i..][1..] == path[i + 1..];
          current := v;
        case None =>
          return Err(KeyNotFound(path[i]));
      }
      assert path[|path|..] == [];
      r := Render(current, numberText);
  }

  /** Walking a path in two legs is walking it in one. */
  lemma {:induction false} LookupConcat(v: Value, p: seq<string>, q: seq<string>)
    ensures Lookup(v, p + q) == match Lookup(v, p) case Err(key) => Err(key) case Ok(w) => Lookup(w, q)
    decreases |p|
  {
    if p != [] {
      assert (p + q)[0] == p[0] && (p + q)[1..] == p[1..] + q;
      if Find(v, p[0]).Some? {
        LookupConcat(Find(v, p[0]).value, p[1..], q);
      }
    } else {
      assert p + q == q;
    }
  }

  /**
   * The walk reports the first missing key: it fails with `key` exactly when
   * some prefix of the path reaches an object without `key` next on the path.
   */
  lemma FirstMissingKey(v: Value, path: seq<string>, key: string)
    ensures Lookup(v, path) == Err(key) <==>
      exists k :: 0 <= k < |path| && Lookup(v, path[..k]).Ok? && path[k] == key &&
        Find(Lookup(v, path[..k]).value, key).None?
  {
    if Lookup(v, path) == Err(key) {
      var k := MissingAt(v, path);
      assert Lookup(v, path[..k]).Ok? && path[k] == key && Find(Lookup(v, path[..k]).value, key).None?;
    }
    if exists k :: 0 <= k < |path| && Lookup(v, path[..k]).Ok? && path[k] == key &&
        Find(Lookup(v, path[..k]).value, key).None? {
      var k :| 0 <= k < |path| && Lookup(v, path[..k]).Ok? && path[k] == key &&
        Find(Lookup(v, path[..k]).value, key).None?;
      assert path == path[..k] + path[k..];
      LookupConcat(v, path[..k], path[k..]);
      assert path[k..][0] == key;
    }
  }

  /** Where a failing walk stops. */
  lemma {:induction false} MissingAt(v: Value, path: seq<string>) returns (k: nat)
    requires Lookup(v, path).Err?
    ensures k < |path| && Lookup(v, path[..k]).Ok? && path[k] == Lookup(v, path).error
    ensures Find(Lookup(v, path[..k]).value, path[k]).None?
    decreases |path|
  {
    if Find(v, path[0]).None? {
      k := 0;
      assert path[..0] == [];
    } else {
      var w := Find(v, path[0]).value;
      var k' := MissingAt(w, path[1..]);
      k := k' + 1;
      assert path[..k][0] == path[0] && path[..k][1..] == path[1..][..k'];
    }
  }

  /**
   * How `consume` resolves a one-key placeholder against an object: a
   * missing key, a container, a string, `null` and the booleans.
   */
  lemma ConsumeOneKey(members: map<string, Value>, key: string, numberText: Number -> string)
    ensures var r := TokenText(Placeholder([key]), Object(members), numberText);
      && (key !in members ==> r == Err(KeyNotFound(key)))
      && (key in members && (members[key].List? || members[key].Object?) ==> r == Err(TypeMismatch))
      && (key in members && members[key].String? ==> r == Ok(members[key].s))
      && (key in members && members[key] == Null ==> r == Ok("null"))
      && (key in members && members[key] == Bool(true) ==> r == Ok("true"))
      && (key in members && members[key] == Bool(false) ==> r == Ok("false"))
  {
    assert [key][1..] == [];
    if key in members {
      assert Lookup(Object(members), [key]) == Lookup(members[key], []);
    }
  }
}
