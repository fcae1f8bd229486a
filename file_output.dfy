/**
 * `FileOutput` of src/logdrop/output/files.rs: each record is written, as
 * the message template resolved against it plus a newline, to the file the
 * path template resolves to. Files are opened once, on first use, and kept
 * in a cache keyed by the resolved path text. A record for which either
 * template fails to resolve is dropped.
 *
 * Opening and writing files is I/O: a handle is the number of the opening
 * (the n-th file opened), `opens` logs the paths opened in order and
 * `written` logs every write as the handle and the bytes.
 */
module FileSink {
  import opened Wrappers
  import opened JsonValue
  import opened Template

  /** The text of a sequence of tokens against a record: the texts in order, or the first token's error. */
  function Resolve(tokens: seq<Token>, payload: Value, numberText: Number -> string): (r: Result<string, TokenError>)
    ensures r.Err? ==> exists k :: 0 <= k < |tokens| && TokenText(tokens[k], payload, numberText) == Err(r.error)
    decreases |tokens|
  {
    if tokens == [] then Ok([])
    else match Resolve(tokens[..|tokens| - 1], payload, numberText)
      case Err(e) => Err(e)
      case Ok(prefix) =>
        match TokenText(tokens[|tokens| - 1], payload, numberText)
        case Err(e) => Err(e)
        case Ok(text) => Ok(prefix + text)
  }

  /** A template without placeholders resolves to its own text whatever the record. */
  lemma {:induction false} ResolveLiterals(tokens: seq<Token>, payload: Value, numberText: Number -> string)
    requires forall k :: 0 <= k < |tokens| ==> tokens[k].Literal?
    ensures Resolve(tokens, payload, numberText) == Ok(UnparseAll(tokens))
    decreases |tokens|
  {
    if tokens != [] {
      var n := |tokens| - 1;
      ResolveLiterals(tokens[..n], payload, numberText);
      UnparseSnoc(tokens[..n], tokens[n]);
      assert tokens[..n] + [tokens[n]] == tokens;
    }
  }

  lemma {:induction false} UnparseSnoc(tokens: seq<Token>, tok: Token)
    ensures UnparseAll(tokens + [tok]) == UnparseAll(tokens) + Unparse(tok)
    decreases |tokens|
  {
    if tokens == [] {
      assert [] + [tok] == [tok];
    } else {
      assert (tokens + [tok])[1..] == tokens[1..] + [tok];
      UnparseSnoc(tokens[1..], tok);
    }
  }

  /** A record is dropped exactly when some token of the template fails to resolve against it. */
  lemma {:induction false} ResolveFails(tokens: seq<Token>, payload: Value, numberText: Number -> string)
    ensures Resolve(tokens, payload, numberText).Err? <==>
      exists k :: 0 <= k < |tokens| && TokenText(tokens[k], payload, numberText).Err?
    decreases |tokens|
  {
    if tokens != [] {
      var n := |tokens| - 1;
      ResolveFails(tokens[..n], payload, numberText);
      if exists k :: 0 <= k < n && TokenText(tokens[..n][k], payload, numberText).Err? {
        var k :| 0 <= k < n && TokenText(tokens[..n][k], payload, numberText).Err?;
        assert tokens[k] == tokens[..n][k];
      }
      if exists k :: 0 <= k < |tokens| && TokenText(tokens[k], payload, numberText).Err? {
        var k :| 0 <= k < |tokens| && TokenText(tokens[k], payload, numberText).Err?;
        assert k == n || tokens[..n][k] == tokens[k];
      }
    }
  }

  /** `FileOutput`: the two token lists, the handle cache, and the logs of opens and writes. */
  class FileOutput {
    const path: seq<Token>
    const message: seq<Token>
    /** How a number is written as text. */
    const numberText: Number -> string
    var files: map<string, nat>
    var opens: seq<string>
    var written: seq<(nat, string)>

    /**
     * The cache and the openings agree: the handle of each cache entry is
     * the opening of that path, and each opening is the handle cached for
     * its path; so no path is opened twice.
     */
    ghost predicate Valid()
      reads this
    {
      && (forall p :: p in files ==> files[p] < |opens| && opens[files[p]] == p)
      && (forall i :: 0 <= i < |opens| ==> opens[i] in files && files[opens[i]] == i)
    }

    /** `FileOutput::new`, with the collection of the tokens stopping at the first error. */
    constructor (pathTemplate: string, messageTemplate: string, numberText: Number -> string)
      ensures Valid()
      ensures path == Tokens(pathTemplate, Start) && message == Tokens(messageTemplate, Start)
      ensures this.numberText == numberText && files == map[] && opens == [] && written == []
    {
      var pathTokens := Tokenize(pathTemplate);
      var messageTokens := Tokenize(messageTemplate);
      path := pathTokens;
      message := messageTokens;
      this.numberText := numberText;
      files := map[];
      opens := [];
      written := [];
    }

    /** The text of tokens against a record, one `consume` at a time. */
    method Assemble(tokens: seq<Token>, payload: Value) returns (r: Result<string, TokenError>)
      ensures r == Resolve(tokens, payload, numberText)
    {
      var text := [];
      for i := 0 to |tokens|
        invariant Resolve(tokens[..i], payload, numberText) == Ok(text)
      {
        var token := Consume(tokens[i], payload, numberText);
        assert tokens[..i + 1][..i] == tokens[..i];
        match token
        case Err(e) =>
          assert Resolve(tokens[..i + 1], payload, numberText) == Err(e);
          ResolvePrefix(tokens, payload, numberText, i + 1);
          return Err(e);
        case Ok(t) =>
          text := text + t;
      }
      assert tokens[..|tokens|] == tokens;
      r := Ok(text);
    }

    /**
     * `feed`: resolve the path (or drop the record), take the cached handle
     * or open one, resolve the message (or drop the record, keeping the
     * handle) and write it with a newline.
     */
    method Feed(payload: Value)
      requires Valid()
      modifies this
      ensures Valid()
      ensures Resolve(path, payload, numberText).Err? ==> files == old(files) && opens == old(opens) && written == old(written)
      ensures Resolve(path, payload, numberText).Ok? ==>
        var p := Resolve(path, payload, numberText).value;
        && (p in old(files) ==> files == old(files) && opens == old(opens))
        && (p !in old(files) ==> files == old(files)[p := |old(opens)|] && opens == old(opens) + [p])
        && (Resolve(message, payload, numberText).Err? ==> written == old(written))
        && (Resolve(message, payload, numberText).Ok? ==>
              written == old(written) + [(files[p], Resolve(message, payload, numberText).value + "\n")])
    {
      var resolved := Assemble(path, payload);
      if resolved.Err? {
        return;
      }
      var p := resolved.value;
      var handle: nat;
      if p in files {
        handle := files[p];
      } else {
        handle := |opens|;
        files := files[p := handle];
        opens := opens + [p];
      }
      var text := Assemble(message, payload);
      if text.Err? {
        return;
      }
      written := written + [(handle, text.value + "\n")];
    }
  }

  /** A failing prefix fails the whole template with the same error. */
  lemma {:induction false} ResolvePrefix(tokens: seq<Token>, payload: Value, numberText: Number -> string, i: nat)
    requires i <= |tokens| && Resolve(tokens[..i], payload, numberText).Err?
    ensures Resolve(tokens, payload, numberText) == Resolve(tokens[..i], payload, numberText)
    decreases |tokens| - i
  {
    if i < |tokens| {
      assert tokens[..i + 1][..i] == tokens[..i];
      ResolvePrefix(tokens, payload, numberText, i + 1);
    } else {
      assert tokens[..i] == tokens;
    }
  }
}
