/**
 * The lexical layer of the streaming parser in src/logdrop/json.rs: how a
 * number, a string body, a hex escape, a keyword and a run of blanks are read
 * from the input. Each reader is a function of the whole input `t` and the
 * index `i` where reading starts, and answers with what it read and the
 * index where it stopped; the parser's own methods (module JsonParser) are
 * proved against them. Next to each reader sits a writer with a round-trip
 * lemma: whatever the writer puts at index i is read back from there.
 */
module JsonLexer {
  import opened Wrappers
  import opened JsonValue

  /** `Error` in json.rs: the kinds of syntax error. */
  datatype ErrorKind =
    | ExpectedValue
    | ExpectedValueOrArrayEnd
    | ExpectedKeyOrObjectEnd
    | ExpectedColon
    | EOFWhileParsingString
    | EOFWhileParsingArray
    | EOFWhileParsingObject
    | EOFWhileParsingObjectKey
    | EOFWhileParsingObjectColon
    | EOFWhileParsingObjectValue
    | InvalidEscape
    | InvalidUnicodeCodePoint
    | LoneLeadingSurrogateInHexEscape
    | UnexpectedEndOfHexEscape
    | ToDo

  /**
   * 2^64. The integer part is accumulated in a `u64` and the exponent in a
   * `usize` (a 64-bit target is assumed); both wrap around as in a release build.
   */
  const WORD: nat := 0x1_0000_0000_0000_0000

  /** The character `char()` sees at index i of t: NUL once the input is exhausted. */
  function At(t: seq<char>, i: nat): char {
    if i < |t| then t[i] else '\0'
  }

  predicate IsDigit(c: char) {
    '0' <= c <= '9'
  }

  predicate IsWhitespace(c: char) {
    c == ' ' || c == '\n' || c == '\t' || c == '\r'
  }

  predicate AllDigits(s: seq<char>) {
    forall k :: 0 <= k < |s| ==> IsDigit(s[k])
  }

  /** The characters of t from index i to index j (exclusive) are digits. */
  predicate Digits(t: seq<char>, i: nat, j: nat) {
    j <= |t| && forall k :: i <= k < j ==> IsDigit(t[k])
  }

  /** The text s stands in t at index i. */
  predicate Reads(t: seq<char>, i: nat, s: seq<char>)
    decreases |s|
  {
    i + |s| <= |t| && (s != [] ==> t[i] == s[0] && Reads(t, i + 1, s[1..]))
  }

  /** A text followed by another stands in t when each stands in its place. */
  lemma {:induction false} ReadsConcat(t: seq<char>, i: nat, a: seq<char>, b: seq<char>)
    ensures Reads(t, i, a + b) <==> Reads(t, i, a) && Reads(t, i + |a|, b)
    decreases |a|
  {
    if a == [] {
      assert a + b == b;
    } else {
      assert (a + b)[1..] == a[1..] + b;
      ReadsConcat(t, i + 1, a[1..], b);
    }
  }

  /** Each character of a text that stands in t at index i is in its place. */
  lemma {:induction false} ReadsAt(t: seq<char>, i: nat, s: seq<char>, k: nat)
    requires Reads(t, i, s) && k < |s|
    ensures i + k < |t| && t[i + k] == s[k]
    decreases k
  {
    if k > 0 {
      ReadsAt(t, i + 1, s[1..], k - 1);
    }
  }

  /** A text whose characters are each in their place stands in t. */
  lemma {:induction false} ReadsFromChars(t: seq<char>, i: nat, s: seq<char>)
    requires i + |s| <= |t| && forall k :: 0 <= k < |s| ==> t[i + k] == s[k]
    ensures Reads(t, i, s)
    decreases |s|
  {
    if s != [] {
      assert t[i] == s[0];
      forall k | 0 <= k < |s| - 1
        ensures t[i + 1 + k] == s[1..][k]
      {
        assert t[i + (k + 1)] == s[k + 1];
      }
      ReadsFromChars(t, i + 1, s[1..]);
    }
  }

  /** A text does not stand in t at index i when one of its characters is not what `char()` sees there. */
  lemma NotReads(t: seq<char>, i: nat, s: seq<char>, k: nat)
    requires k < |s| && At(t, i + k) != s[k] && s[k] != '\0'
    ensures !Reads(t, i, s)
  {
    if Reads(t, i, s) {
      ReadsAt(t, i, s, k);
    }
  }

  /** A text that stands in t at index i is the slice of t there. */
  lemma ReadsSlice(t: seq<char>, i: nat, s: seq<char>)
    requires Reads(t, i, s)
    ensures i + |s| <= |t| && t[i..i + |s|] == s
  {
    forall k | 0 <= k < |s|
      ensures t[i + k] == s[k]
    {
      ReadsAt(t, i, s, k);
    }
  }

  lemma ReadsSplit(t: seq<char>, i: nat, a: seq<char>, b: seq<char>)
    requires Reads(t, i, a + b)
    ensures Reads(t, i, a) && Reads(t, i + |a|, b)
  {
    ReadsConcat(t, i, a, b);
  }

  // ---------------------------------------------------------------- blanks

  /** `whitespaces`: the index of the first character from i on that is not a blank. */
  function SkipWhitespace(t: seq<char>, i: nat): (j: nat)
    requires i <= |t|
    ensures i <= j <= |t| && !IsWhitespace(At(t, j))
    decreases |t| - i
  {
    if i < |t| && IsWhitespace(t[i]) then SkipWhitespace(t, i + 1) else i
  }

  /** Every character `whitespaces` passes over is a blank. */
  lemma {:induction false} SkipsBlanks(t: seq<char>, i: nat)
    requires i <= |t|
    ensures forall k :: i <= k < SkipWhitespace(t, i) ==> IsWhitespace(t[k])
    decreases |t| - i
  {
    if i < |t| && IsWhitespace(t[i]) {
      SkipsBlanks(t, i + 1);
    }
  }

  // --------------------------------------------------------------- numbers

  /** The end of the run of digits that starts at index i. */
  function DigitRun(t: seq<char>, i: nat): (j: nat)
    requires i <= |t|
    ensures i <= j && Digits(t, i, j) && !IsDigit(At(t, j))
    decreases |t| - i
  {
    if i < |t| && IsDigit(t[i]) then DigitRun(t, i + 1) else i
  }

  /** A run is determined by its digits and the non-digit that ends it. */
  lemma {:induction false} DigitRunIs(t: seq<char>, i: nat, j: nat)
    requires i <= j && Digits(t, i, j) && !IsDigit(At(t, j))
    ensures DigitRun(t, i) == j
    decreases j - i
  {
    if i < j {
      DigitRunIs(t, i + 1, j);
    }
  }

  function DigitValue(c: char): nat
    requires IsDigit(c)
  {
    c as int - '0' as int
  }

  /** The value of a string of decimal digits. */
  function Decimal(ds: seq<char>): nat
    requires AllDigits(ds)
  {
    if ds == [] then 0 else Decimal(ds[..|ds| - 1]) * 10 + DigitValue(ds[|ds| - 1])
  }

  /** Reduction modulo 2^64: what is left in a 64-bit unsigned accumulator. */
  function Wrap(x: nat): (r: nat)
    ensures r < WORD
  {
    x % 0x1_0000_0000_0000_0000
  }

  /**
   * The digits of t from index i to index j, read left to right into a
   * 64-bit accumulator, `n = n * 10 + digit` wrapping around at 2^64 as in
   * a release build.
   */
  function Accumulate(t: seq<char>, i: nat, j: nat): (n: nat)
    requires i <= j && Digits(t, i, j)
    ensures n < WORD
    decreases j - i
  {
    if i == j then 0 else Wrap(Accumulate(t, i, j - 1) * 10 + DigitValue(t[j - 1]))
  }

  /** A value below 2^64 is its own remainder. */
  lemma WrapSmall(x: nat)
    requires x < WORD
    ensures Wrap(x) == x
  {
  }

  /** Wrapping before a step `n * 10 + d` does not change the result. */
  lemma WrapStep(a: nat, d: nat)
    ensures Wrap(Wrap(a) * 10 + d) == Wrap(a * 10 + d)
  {
    var q := a / 0x1_0000_0000_0000_0000;
    assert a == q * 0x1_0000_0000_0000_0000 + Wrap(a);
    assert a * 10 + d == (Wrap(a) * 10 + d) + (q * 10) * 0x1_0000_0000_0000_0000;
  }

  /** Wrapping before an addition does not change the result. */
  lemma WrapAdd(a: nat, d: nat)
    ensures Wrap(Wrap(a) + d) == Wrap(a + d)
  {
    var q := a / 0x1_0000_0000_0000_0000;
    assert a == q * 0x1_0000_0000_0000_0000 + Wrap(a);
    assert a + d == (Wrap(a) + d) + q * 0x1_0000_0000_0000_0000;
  }

  /** A written run of digits is read into the accumulator as its value modulo 2^64. */
  lemma {:induction false} AccumulateReads(t: seq<char>, i: nat, ds: seq<char>)
    requires AllDigits(ds) && Reads(t, i, ds)
    ensures Digits(t, i, i + |ds|) && Accumulate(t, i, i + |ds|) == Wrap(Decimal(ds))
    decreases |ds|
  {
    if ds != [] {
      var init := ds[..|ds| - 1];
      assert ds == init + [ds[|ds| - 1]];
      ReadsSplit(t, i, init, [ds[|ds| - 1]]);
      AccumulateReads(t, i, init);
      ReadsAt(t, i, ds, |ds| - 1);
      WrapStep(Decimal(init), DigitValue(ds[|ds| - 1]));
    }
  }

  /** What `parse_number_impl` reads: a number and the index after it. */
  datatype NumberLex = NumberOk(n: Number, end: nat) | NumberErr

  /**
   * The integer part at index i: its value modulo 2^64 and the index after
   * it. A leading `0` may not be followed by another digit.
   */
  function LexInteger(t: seq<char>, i: nat): (r: Option<(nat, nat)>)
    requires i <= |t|
    ensures r.Some? ==> r.value.0 < WORD && i < r.value.1 <= |t| && !IsDigit(At(t, r.value.1))
  {
    if !IsDigit(At(t, i)) || (At(t, i) == '0' && IsDigit(At(t, i + 1))) then None
    else
      var j := DigitRun(t, i);
      Some((Accumulate(t, i, j), j))
  }

  /** An optional `.` at index i, which must be followed by at least one digit: the digits and the index after them. */
  function LexFraction(t: seq<char>, i: nat): (r: Option<(seq<char>, nat)>)
    requires i <= |t|
    ensures r.Some? ==> AllDigits(r.value.0) && i <= r.value.1 <= |t|
    ensures r.Some? && At(t, i) != '.' ==> r.value == ([], i)
  {
    if At(t, i) != '.' then Some(([], i))
    else if !IsDigit(At(t, i + 1)) then None
    else
      var j := DigitRun(t, i + 1);
      Some((t[i + 1..j], j))
  }

  /**
   * An optional `e` or `E` at index i, then an optional sign that is read
   * and dropped, then at least one digit: the exponent modulo 2^64 and the
   * index after it.
   */
  function LexExponent(t: seq<char>, i: nat): (r: Option<(nat, nat)>)
    requires i <= |t|
    ensures r.Some? ==> r.value.0 < WORD && i <= r.value.1 <= |t|
    ensures r.Some? && At(t, i) != 'e' && At(t, i) != 'E' ==> r.value == (0, i)
  {
    if At(t, i) != 'e' && At(t, i) != 'E' then Some((0, i))
    else
      var s := if At(t, i + 1) == '+' || At(t, i + 1) == '-' then i + 2 else i + 1;
      if !IsDigit(At(t, s)) then None
      else
        var j := DigitRun(t, s);
        Some((Accumulate(t, s, j), j))
  }

  /**
   * `parse_number_impl` without its final end-of-input check: an optional
   * `-`, the integer part, the fraction and the exponent. A missing digit
   * is an error (the source reports it as `ToDo`).
   */
  function LexNumber(t: seq<char>, i: nat): (r: NumberLex)
    requires i <= |t|
    ensures r.NumberOk? ==> i < r.end <= |t|
  {
    var negative := At(t, i) == '-';
    match LexInteger(t, if negative then i + 1 else i)
    case None => NumberErr
    case Some((integer, a)) =>
      match LexFraction(t, a)
      case None => NumberErr
      case Some((fraction, b)) =>
        match LexExponent(t, b)
        case None => NumberErr
        case Some((exponent, c)) => NumberOk(Number(negative, integer, fraction, exponent), c)
  }

  function DigitChar(d: nat): char
    requires d < 10
  {
    ('0' as int + d) as char
  }

  /** The decimal digits of n, without leading zeros. */
  function DecimalText(n: nat): (s: seq<char>)
    ensures s != [] && AllDigits(s) && Decimal(s) == n
    ensures n == 0 <==> s[0] == '0'
    ensures n == 0 ==> s == ['0']
  {
    if n < 10 then [DigitChar(n)]
    else
      var s := DecimalText(n / 10) + [DigitChar(n % 10)];
      assert s[..|s| - 1] == DecimalText(n / 10);
      s
  }

  function FractionText(fraction: seq<char>): seq<char> {
    if fraction == [] then "" else "." + fraction
  }

  function ExponentText(exponent: nat): seq<char> {
    if exponent == 0 then "" else "e" + DecimalText(exponent)
  }

  function SignText(negative: bool): seq<char> {
    if negative then "-" else ""
  }

  function UnsignedText(n: Number): seq<char> {
    DecimalText(n.integer) + (FractionText(n.fraction) + ExponentText(n.exponent))
  }

  /** A number written out: sign, integer part, fraction digits if any, exponent if not zero. */
  function NumberText(n: Number): seq<char> {
    SignText(n.negative) + UnsignedText(n)
  }

  /** A character that would extend a number the parser is reading. */
  predicate ContinuesNumber(c: char) {
    IsDigit(c) || c == '.' || c == 'e' || c == 'E'
  }

  /** A written run of digits followed by a non-digit is read whole. */
  lemma DigitsRead(t: seq<char>, i: nat, ds: seq<char>)
    requires AllDigits(ds) && Reads(t, i, ds) && !IsDigit(At(t, i + |ds|))
    ensures Digits(t, i, i + |ds|) && DigitRun(t, i) == i + |ds|
    ensures Accumulate(t, i, i + |ds|) == Wrap(Decimal(ds))
  {
    AccumulateReads(t, i, ds);
    DigitRunIs(t, i, i + |ds|);
  }

  /** A written integer part (no leading zero unless it is `0`) is read whole. */
  lemma IntegerRead(t: seq<char>, i: nat, ds: seq<char>)
    requires ds != [] && AllDigits(ds) && (ds[0] == '0' ==> |ds| == 1)
    requires Reads(t, i, ds) && !IsDigit(At(t, i + |ds|))
    ensures LexInteger(t, i) == Some((Wrap(Decimal(ds)), i + |ds|))
  {
    DigitsRead(t, i, ds);
    HeadAt(t, i, ds);
  }

  lemma IntegerRoundTrip(t: seq<char>, i: nat, n: nat)
    requires n < WORD && Reads(t, i, DecimalText(n)) && !IsDigit(At(t, i + |DecimalText(n)|))
    ensures LexInteger(t, i) == Some((n, i + |DecimalText(n)|))
  {
    IntegerRead(t, i, DecimalText(n));
    WrapSmall(n);
  }

  /** A written `.` and run of digits are read whole. */
  lemma FractionRead(t: seq<char>, i: nat, ds: seq<char>)
    requires ds != [] && AllDigits(ds) && Reads(t, i, "." + ds) && !IsDigit(At(t, i + 1 + |ds|))
    ensures LexFraction(t, i) == Some((ds, i + 1 + |ds|))
  {
    ReadsSplit(t, i, ".", ds);
    HeadAt(t, i, ".");
    HeadAt(t, i + 1, ds);
    DigitsRead(t, i + 1, ds);
    ReadsSlice(t, i + 1, ds);
  }

  lemma FractionRoundTrip(t: seq<char>, i: nat, fraction: seq<char>)
    requires AllDigits(fraction) && Reads(t, i, FractionText(fraction))
    requires !IsDigit(At(t, i + |FractionText(fraction)|))
    requires fraction == [] ==> At(t, i) != '.'
    ensures LexFraction(t, i) == Some((fraction, i + |FractionText(fraction)|))
  {
    if fraction != [] {
      FractionRead(t, i, fraction);
    }
  }

  /** A written `e` and run of digits are read whole. */
  lemma ExponentRead(t: seq<char>, i: nat, ds: seq<char>)
    requires ds != [] && AllDigits(ds) && Reads(t, i, "e" + ds) && !IsDigit(At(t, i + 1 + |ds|))
    ensures LexExponent(t, i) == Some((Wrap(Decimal(ds)), i + 1 + |ds|))
  {
    ReadsSplit(t, i, "e", ds);
    HeadAt(t, i, "e");
    HeadAt(t, i + 1, ds);
    DigitsRead(t, i + 1, ds);
  }

  lemma ExponentRoundTrip(t: seq<char>, i: nat, exponent: nat)
    requires exponent < WORD && Reads(t, i, ExponentText(exponent))
    requires !IsDigit(At(t, i + |ExponentText(exponent)|))
    requires exponent == 0 ==> At(t, i) != 'e' && At(t, i) != 'E'
    ensures LexExponent(t, i) == Some((exponent, i + |ExponentText(exponent)|))
  {
    if exponent != 0 {
      ExponentRead(t, i, DecimalText(exponent));
      WrapSmall(exponent);
    }
  }

  /** The first character of a text that stands at index i, or what follows an empty one. */
  lemma HeadAt(t: seq<char>, i: nat, a: seq<char>)
    requires Reads(t, i, a) && a != []
    ensures At(t, i) == a[0]
  {
  }

  /** t holds, from index i, the sign, the integer part, the fraction and the exponent of n one after the other. */
  predicate WrittenNumber(t: seq<char>, i: nat, n: Number, p: nat, a: nat, b: nat, c: nat) {
    && p == i + |SignText(n.negative)| && Reads(t, i, SignText(n.negative))
    && a == p + |DecimalText(n.integer)| && Reads(t, p, DecimalText(n.integer))
    && b == a + |FractionText(n.fraction)| && Reads(t, a, FractionText(n.fraction))
    && c == b + |ExponentText(n.exponent)| && Reads(t, b, ExponentText(n.exponent))
  }

  /** The four parts of a written number stand one after the other from index i. */
  lemma NumberParts(t: seq<char>, i: nat, n: Number, p: nat, a: nat, b: nat)
    requires Reads(t, i, NumberText(n))
    requires p == i + |SignText(n.negative)| && a == p + |DecimalText(n.integer)| && b == a + |FractionText(n.fraction)|
    ensures WrittenNumber(t, i, n, p, a, b, i + |NumberText(n)|)
  {
    ReadsSplit4(t, i, SignText(n.negative), DecimalText(n.integer), FractionText(n.fraction), ExponentText(n.exponent));
  }

  /** Four texts one after the other stand in t each in its place. */
  lemma ReadsSplit4(t: seq<char>, i: nat, s0: seq<char>, s1: seq<char>, s2: seq<char>, s3: seq<char>)
    requires Reads(t, i, s0 + (s1 + (s2 + s3)))
    ensures Reads(t, i, s0) && Reads(t, i + |s0|, s1)
    ensures Reads(t, i + |s0| + |s1|, s2) && Reads(t, i + |s0| + |s1| + |s2|, s3)
  {
    ReadsSplit(t, i, s0, s1 + (s2 + s3));
    ReadsSplit(t, i + |s0|, s1, s2 + s3);
    ReadsSplit(t, i + |s0| + |s1|, s2, s3);
  }

  /** The exponent of a written number reads back, and what stands at its start is known. */
  lemma ExponentPart(t: seq<char>, b: nat, exponent: nat, c: nat)
    requires exponent < WORD && Reads(t, b, ExponentText(exponent)) && c == b + |ExponentText(exponent)|
    requires !ContinuesNumber(At(t, c))
    ensures LexExponent(t, b) == Some((exponent, c))
    ensures !IsDigit(At(t, b)) && At(t, b) != '.'
    ensures exponent == 0 ==> At(t, b) == At(t, c)
  {
    if exponent != 0 {
      HeadAt(t, b, ExponentText(exponent));
    }
    ExponentRoundTrip(t, b, exponent);
  }

  /** The fraction of a written number reads back, and no digit stands at its start. */
  lemma FractionPart(t: seq<char>, a: nat, fraction: seq<char>, b: nat)
    requires AllDigits(fraction) && Reads(t, a, FractionText(fraction)) && b == a + |FractionText(fraction)|
    requires !IsDigit(At(t, b)) && At(t, b) != '.'
    ensures LexFraction(t, a) == Some((fraction, b))
    ensures !IsDigit(At(t, a))
  {
    if fraction != [] {
      HeadAt(t, a, FractionText(fraction));
    }
    FractionRoundTrip(t, a, fraction);
  }

  /** A number is its sign, its integer part, its fraction and its exponent, read one after the other. */
  lemma LexNumberParts(t: seq<char>, i: nat, negative: bool, p: nat, integer: nat, a: nat, fraction: seq<char>, b: nat, exponent: nat, c: nat)
    requires i <= |t| && (At(t, i) == '-' <==> negative) && p == (if negative then i + 1 else i)
    requires p <= |t| && LexInteger(t, p) == Some((integer, a))
    requires LexFraction(t, a) == Some((fraction, b))
    requires LexExponent(t, b) == Some((exponent, c))
    ensures LexNumber(t, i) == NumberOk(Number(negative, integer, fraction, exponent), c)
  {
  }

  /** The sign of a written number is read as its sign. */
  lemma SignPart(t: seq<char>, i: nat, negative: bool, integer: nat, p: nat)
    requires Reads(t, i, SignText(negative)) && Reads(t, p, DecimalText(integer)) && p == i + |SignText(negative)|
    ensures i <= |t| && (At(t, i) == '-' <==> negative) && p == (if negative then i + 1 else i)
  {
    HeadAt(t, p, DecimalText(integer));
    if negative {
      HeadAt(t, i, SignText(negative));
    }
  }

  /** The parts of a number written one after the other from index i are read back as that number. */
  lemma NumberRead(t: seq<char>, i: nat, n: Number, p: nat, a: nat, b: nat, c: nat)
    requires n.integer < WORD && n.exponent < WORD && AllDigits(n.fraction)
    requires WrittenNumber(t, i, n, p, a, b, c) && !ContinuesNumber(At(t, c))
    ensures LexNumber(t, i) == NumberOk(n, c)
  {
    PartsRead(t, i, n, p, a, b, c);
    LexNumberParts(t, i, n.negative, p, n.integer, a, n.fraction, b, n.exponent, c);
  }

  /** Each part of a number written from index i is read back by the scanner for that part. */
  lemma PartsRead(t: seq<char>, i: nat, n: Number, p: nat, a: nat, b: nat, c: nat)
    requires n.integer < WORD && n.exponent < WORD && AllDigits(n.fraction)
    requires WrittenNumber(t, i, n, p, a, b, c) && !ContinuesNumber(At(t, c))
    ensures i <= |t| && (At(t, i) == '-' <==> n.negative) && p == (if n.negative then i + 1 else i)
    ensures p <= |t| && LexInteger(t, p) == Some((n.integer, a))
    ensures LexFraction(t, a) == Some((n.fraction, b))
    ensures LexExponent(t, b) == Some((n.exponent, c))
  {
    ExponentPart(t, b, n.exponent, c);
    FractionPart(t, a, n.fraction, b);
    IntegerRoundTrip(t, p, n.integer);
    SignPart(t, i, n.negative, n.integer, p);
  }

  /**
   * Reading back a written number at any index gives the same number and
   * stops right after its text, provided no digit, `.`, `e` or `E` follows.
   */
  lemma NumberRoundTrip(t: seq<char>, i: nat, n: Number)
    requires n.integer < WORD && n.exponent < WORD && AllDigits(n.fraction)
    requires Reads(t, i, NumberText(n)) && !ContinuesNumber(At(t, i + |NumberText(n)|))
    ensures LexNumber(t, i) == NumberOk(n, i + |NumberText(n)|)
  {
    var p := i + |SignText(n.negative)|;
    var a := p + |DecimalText(n.integer)|;
    var b := a + |FractionText(n.fraction)|;
    NumberParts(t, i, n, p, a, b);
    NumberRead(t, i, n, p, a, b, i + |NumberText(n)|);
  }

  // ------------------------------------------------------------ hex escapes

  /** One hexadecimal digit, either case. */
  function HexDigit(c: char): (r: Option<nat>)
    ensures r.Some? ==> r.value < 16
  {
    if '0' <= c <= '9' then Some(c as nat - '0' as nat)
    else if 'a' <= c <= 'f' then Some(c as nat - 'a' as nat + 10)
    else if 'A' <= c <= 'F' then Some(c as nat - 'A' as nat + 10)
    else None
  }

  /** The characters of t from index i to index j (exclusive) are hex digits. */
  predicate HexDigits(t: seq<char>, i: nat, j: nat) {
    j <= |t| && forall k :: i <= k < j ==> HexDigit(t[k]).Some?
  }

  /** The hex digits of t from index i to index j, read left to right as `n * 16 + digit`. */
  function HexValue(t: seq<char>, i: nat, j: nat): nat
    requires i <= j && HexDigits(t, i, j)
    decreases j - i
  {
    if i == j then 0 else HexValue(t, i, j - 1) * 16 + HexDigit(t[j - 1]).value
  }

  /**
   * `decode_hex_escape` from index i (the character after the `u`): the
   * value of the next four hex digits, or nothing when one of them is not a
   * hex digit (end of input reads as NUL, which is not one).
   */
  function HexQuad(t: seq<char>, i: nat): (r: Option<nat>)
    ensures r.Some? ==> r.value < 0x10000 && i + 4 <= |t|
  {
    if HexDigits(t, i, i + 4) then HexQuadBound(t, i); Some(HexValue(t, i, i + 4)) else None
  }

  lemma HexQuadBound(t: seq<char>, i: nat)
    requires HexDigits(t, i, i + 4)
    ensures HexValue(t, i, i + 4) < 0x10000
  {
    assert HexValue(t, i, i + 1) < 16;
    assert HexValue(t, i, i + 2) < 256;
    assert HexValue(t, i, i + 3) < 4096;
  }

  function HexChar(d: nat): char
    requires d < 16
  {
    "0123456789abcdef"[d]
  }

  /** The four lower-case hex digits of a 16-bit value. */
  function Hex4(n: nat): seq<char>
    requires n < 0x10000
  {
    [HexChar(n / 4096), HexChar(n / 256 % 16), HexChar(n / 16 % 16), HexChar(n % 16)]
  }

  lemma HexCharValue(d: nat)
    requires d < 16
    ensures HexDigit(HexChar(d)) == Some(d)
  {
  }

  lemma Base16(n: nat)
    requires n < 0x10000
    ensures ((n / 4096 * 16 + n / 256 % 16) * 16 + n / 16 % 16) * 16 + n % 16 == n
  {
    assert n / 4096 * 16 + n / 256 % 16 == n / 256;
    assert n / 256 * 16 + n / 16 % 16 == n / 16;
  }

  /** Four written hex digits read back to the same value. */
  lemma HexRoundTrip(t: seq<char>, i: nat, n: nat)
    requires n < 0x10000 && Reads(t, i, Hex4(n))
    ensures HexQuad(t, i) == Some(n)
  {
    var h := Hex4(n);
    ReadsAt(t, i, h, 0);
    ReadsAt(t, i, h, 1);
    ReadsAt(t, i, h, 2);
    ReadsAt(t, i, h, 3);
    HexCharValue(n / 4096);
    HexCharValue(n / 256 % 16);
    HexCharValue(n / 16 % 16);
    HexCharValue(n % 16);
    assert HexDigits(t, i, i + 4);
    assert HexValue(t, i, i + 1) == n / 4096;
    assert HexValue(t, i, i + 2) == n / 4096 * 16 + n / 256 % 16;
    assert HexValue(t, i, i + 3) == (n / 4096 * 16 + n / 256 % 16) * 16 + n / 16 % 16;
    Base16(n);
  }

  // ---------------------------------------------------------------- strings

  /** The escape after a backslash: the character it stands for and the index after it. */
  datatype EscapeLex = EscapeOk(c: char, end: nat) | EscapeErr(e: ErrorKind)

  /**
   * The escape at index i (the character after a backslash): the eight
   * simple escapes, or `u` and four hex digits. A value in 0xDC00-0xDFFF is
   * refused as a lone surrogate, one in 0xD800-0xDBFF is not a scalar
   * value; anything else is an invalid escape.
   */
  function Unescape(t: seq<char>, i: nat): (r: EscapeLex)
    requires i < |t|
    ensures r.EscapeOk? ==> i < r.end <= |t|
  {
    match t[i]
    case '"' => EscapeOk('"', i + 1)
    case '\\' => EscapeOk('\\', i + 1)
    case '/' => EscapeOk('/', i + 1)
    case 'b' => EscapeOk('\U{8}', i + 1)
    case 'f' => EscapeOk('\U{C}', i + 1)
    case 'n' => EscapeOk('\n', i + 1)
    case 'r' => EscapeOk('\r', i + 1)
    case 't' => EscapeOk('\t', i + 1)
    case 'u' =>
      (match HexQuad(t, i + 1)
       case None => EscapeErr(InvalidEscape)
       case Some(n) =>
         if 0xDC00 <= n <= 0xDFFF then EscapeErr(LoneLeadingSurrogateInHexEscape)
         else if 0xD800 <= n <= 0xDBFF then EscapeErr(InvalidUnicodeCodePoint)
         else EscapeOk(n as char, i + 5))
    case _ => EscapeErr(InvalidEscape)
  }

  /** What `parse_string_impl` reads: the decoded text and the index after the closing quote. */
  datatype StringLex = StringOk(s: string, end: nat) | StringErr(e: ErrorKind)

  /** End of input inside a string: the kind depends on whether it is an object key. */
  function EofInString(key: bool): ErrorKind {
    if key then EOFWhileParsingObjectKey else EOFWhileParsingString
  }

  function Prepend(c: char, r: StringLex): StringLex {
    if r.StringOk? then StringOk([c] + r.s, r.end) else r
  }

  /**
   * `parse_string_impl` from index i (after the opening quote): the
   * characters up to the first unescaped quote, with escapes decoded.
   */
  function LexString(t: seq<char>, i: nat, key: bool): (r: StringLex)
    requires i <= |t|
    ensures r.StringOk? ==> i < r.end <= |t| && t[r.end - 1] == '"'
    decreases |t| - i
  {
    if i == |t| then StringErr(EofInString(key))
    else if t[i] == '"' then StringOk("", i + 1)
    else if t[i] == '\\' then
      if i + 1 == |t| then StringErr(EofInString(key))
      else
        match Unescape(t, i + 1)
        case EscapeErr(e) => StringErr(e)
        case EscapeOk(c, j) => Prepend(c, LexString(t, j, key))
    else Prepend(t[i], LexString(t, i + 1, key))
  }

  /** The letter after the backslash when a string writer escapes c, if it does. */
  function EscapeLetter(c: char): Option<char> {
    if c == '"' then Some('"')
    else if c == '\\' then Some('\\')
    else if c == '\U{8}' then Some('b')
    else if c == '\U{C}' then Some('f')
    else if c == '\n' then Some('n')
    else if c == '\r' then Some('r')
    else if c == '\t' then Some('t')
    else None
  }

  /** How a string writer writes one character. */
  function EscapeChar(c: char): (w: seq<char>)
    ensures EscapeLetter(c).Some? ==> w == ['\\', EscapeLetter(c).value]
    ensures EscapeLetter(c).None? ==> w == [c]
  {
    match EscapeLetter(c)
    case Some(e) => ['\\', e]
    case None => [c]
  }

  /** A string body written out with its escapes and the closing quote. */
  function Quote(s: string): seq<char> {
    if s == [] then "\"" else EscapeChar(s[0]) + Quote(s[1..])
  }

  /** An escaped character read back: the backslash and its letter stand for it. */
  lemma LetterRoundTrip(t: seq<char>, i: nat, c: char, key: bool)
    requires EscapeLetter(c).Some? && i + 1 < |t| && t[i] == '\\' && t[i + 1] == EscapeLetter(c).value
    ensures LexString(t, i, key) == Prepend(c, LexString(t, i + 2, key))
  {
    assert Unescape(t, i + 1) == EscapeOk(c, i + 2);
  }

  /** A character written as itself is read back as itself. */
  lemma PlainRoundTrip(t: seq<char>, i: nat, c: char, key: bool)
    requires EscapeLetter(c).None? && i < |t| && t[i] == c
    ensures LexString(t, i, key) == Prepend(c, LexString(t, i + 1, key))
  {
  }

  /**
   * t holds, from index i, the string s written character by character with
   * its escapes and then a closing quote.
   */
  predicate Written(t: seq<char>, i: nat, s: string)
    decreases |s|
  {
    if s == [] then i < |t| && t[i] == '"'
    else match EscapeLetter(s[0])
      case Some(e) => i + 1 < |t| && t[i] == '\\' && t[i + 1] == e && Written(t, i + 2, s[1..])
      case None => i < |t| && t[i] == s[0] && Written(t, i + 1, s[1..])
  }

  /** The written text `Quote(s)` at index i is s written character by character. */
  lemma {:induction false} QuoteWritten(t: seq<char>, i: nat, s: string)
    requires Reads(t, i, Quote(s))
    ensures Written(t, i, s)
    decreases |s|
  {
    if s == [] {
      ReadsAt(t, i, Quote(s), 0);
    } else {
      var w := EscapeChar(s[0]);
      ReadsSplit(t, i, w, Quote(s[1..]));
      ReadsAt(t, i, w, 0);
      if |w| == 2 {
        ReadsAt(t, i, w, 1);
      }
      QuoteWritten(t, i + |w|, s[1..]);
    }
  }

  /** Reading back a string written at index i gives the same text and stops right after its closing quote. */
  lemma {:induction false} WrittenRoundTrip(t: seq<char>, i: nat, s: string, key: bool)
    requires Written(t, i, s)
    ensures LexString(t, i, key) == StringOk(s, i + |Quote(s)|)
    decreases |s|
  {
    if s != [] {
      var c, rest := s[0], s[1..];
      var j := if EscapeLetter(c).Some? then i + 2 else i + 1;
      if EscapeLetter(c).Some? {
        LetterRoundTrip(t, i, c, key);
      } else {
        PlainRoundTrip(t, i, c, key);
      }
      WrittenRoundTrip(t, j, rest, key);
      var end := j + |Quote(rest)|;
      assert i + |Quote(s)| == end;
      assert Prepend(c, StringOk(rest, end)) == StringOk(s, end) by {
        assert [c] + rest == s;
      }
    }
  }

  /** Reading back a written string at any index gives the same text and stops right after its closing quote. */
  lemma QuoteRoundTrip(t: seq<char>, i: nat, s: string, key: bool)
    requires Reads(t, i, Quote(s))
    ensures LexString(t, i, key) == StringOk(s, i + |Quote(s)|)
  {
    QuoteWritten(t, i, s);
    WrittenRoundTrip(t, i, s, key);
  }

  /** A string that is never closed fails at end of input, with the key/value distinction. */
  lemma {:induction false} UnterminatedString(t: seq<char>, i: nat, key: bool)
    requires i <= |t| && forall k :: i <= k < |t| ==> t[k] != '"' && t[k] != '\\'
    ensures LexString(t, i, key) == StringErr(EofInString(key))
    decreases |t| - i
  {
    if i < |t| {
      UnterminatedString(t, i + 1, key);
    }
  }

  /**
   * A `\u` escape at index i: four hex digits are required; a lone low
   * surrogate and a high surrogate are refused with their two error kinds;
   * any other 16-bit value stands for that character.
   */
  lemma HexEscape(t: seq<char>, i: nat, key: bool)
    requires i + 1 < |t| && t[i] == '\\' && t[i + 1] == 'u'
    ensures var h := HexQuad(t, i + 2);
      && (h.None? ==> LexString(t, i, key) == StringErr(InvalidEscape))
      && (h.Some? && 0xDC00 <= h.value <= 0xDFFF ==> LexString(t, i, key) == StringErr(LoneLeadingSurrogateInHexEscape))
      && (h.Some? && 0xD800 <= h.value <= 0xDBFF ==> LexString(t, i, key) == StringErr(InvalidUnicodeCodePoint))
      && (h.Some? && !(0xD800 <= h.value <= 0xDFFF) ==>
            LexString(t, i, key) == Prepend(h.value as char, LexString(t, i + 6, key)))
  {
  }

  /**
   * The eight simple escapes stand for `" \ / \x08 \x0c \n \r \t`; any other
   * character after a backslash, except `u`, is refused.
   */
  lemma SimpleEscape(t: seq<char>, i: nat, key: bool)
    requires i + 1 < |t| && t[i] == '\\' && t[i + 1] != 'u'
    ensures var c, r, rest := t[i + 1], LexString(t, i, key), LexString(t, i + 2, key);
      && (c == '"' ==> r == Prepend('"', rest))
      && (c == '\\' ==> r == Prepend('\\', rest))
      && (c == '/' ==> r == Prepend('/', rest))
      && (c == 'b' ==> r == Prepend('\U{8}', rest))
      && (c == 'f' ==> r == Prepend('\U{C}', rest))
      && (c == 'n' ==> r == Prepend('\n', rest))
      && (c == 'r' ==> r == Prepend('\r', rest))
      && (c == 't' ==> r == Prepend('\t', rest))
      && (c !in "\"\\/bfnrt" ==> r == StringErr(InvalidEscape))
  {
  }
}
