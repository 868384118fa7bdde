/**
 * The JSON text format as the order-preserving codec (utils/serialize.go) sees
 * it through encoding/json: lexical tokens, the text each token stands for,
 * number syntax and integer parsing (section 6 of RFC 8259), insignificant
 * whitespace (section 2 of RFC 8259), string escaping as encoding/json writes
 * it, and the scanner that cuts one complete value out of a token stream.
 */
module JsonTokens {

  import opened Prelude

  /**
   * One lexical token of a JSON text. `Str` carries the string's value with its
   * escapes already resolved; `Number` carries the literal's bytes; `Invalid`
   * stands for any lexical error (bad escape, truncated string, bad literal).
   */
  datatype Token =
    | BeginObject | EndObject | BeginArray | EndArray | Colon | Comma
    | Str(s: Bytes)
    | Number(lit: Bytes)
    | True | False | Null
    | Invalid

  /*
   * Whitespace and firstNonWS.
   */

  /** The insignificant whitespace of section 2 of RFC 8259: space, line feed, carriage return, tab. */
  predicate IsWhitespace(b: byte)
  {
    b == 0x20 || b == 0x0A || b == 0x0D || b == 0x09
  }

  /** firstNonWS: the first byte that is not whitespace, or 0 for empty or all-whitespace input. */
  function FirstNonWS(data: Bytes): (b: byte)
    ensures (forall i :: 0 <= i < |data| ==> IsWhitespace(data[i])) ==> b == 0
    ensures b != 0 ==> b in data && !IsWhitespace(b)
  {
    if data == [] then 0
    else if IsWhitespace(data[0]) then FirstNonWS(data[1..])
    else data[0]
  }

  /** Leading whitespace does not change the result: any input is whitespace followed by the byte found. */
  lemma {:induction false} FirstNonWSSkipsWhitespace(ws: Bytes, rest: Bytes)
    requires forall i :: 0 <= i < |ws| ==> IsWhitespace(ws[i])
    ensures FirstNonWS(ws + rest) == FirstNonWS(rest)
    ensures rest != [] && !IsWhitespace(rest[0]) ==> FirstNonWS(ws + rest) == rest[0]
  {
    if ws == [] {
      assert ws + rest == rest;
    } else {
      assert (ws + rest)[0] == ws[0];
      assert (ws + rest)[1..] == ws[1..] + rest;
      FirstNonWSSkipsWhitespace(ws[1..], rest);
    }
  }

  /*
   * Number literals (section 6 of RFC 8259).
   */

  predicate IsDigit(b: byte)
  {
    0x30 <= b <= 0x39
  }

  predicate AllDigits(ds: Bytes)
  {
    forall k :: 0 <= k < |ds| ==> IsDigit(ds[k])
  }

  /** The index just past the run of digits that starts at `i`. */
  function SkipDigits(s: Bytes, i: nat): (j: nat)
    requires i <= |s|
    ensures i <= j <= |s|
    ensures forall k :: i <= k < j ==> IsDigit(s[k])
    ensures j == |s| || !IsDigit(s[j])
    decreases |s| - i
  {
    if i < |s| && IsDigit(s[i]) then SkipDigits(s, i + 1) else i
  }

  /** `int = zero / ( digit1-9 *DIGIT )`, starting at `i`. */
  function IntPartEnd(s: Bytes, i: nat): (r: Option<nat>)
    requires i <= |s|
    ensures r.Some? ==> i < r.value <= |s|
  {
    if i == |s| then None
    else if s[i] == 0x30 then Some(i + 1)
    else if IsDigit(s[i]) then Some(SkipDigits(s, i + 1))
    else None
  }

  /** `[ frac ]` with `frac = decimal-point 1*DIGIT`, starting at `i`. */
  function FractionEnd(s: Bytes, i: nat): (r: Option<nat>)
    requires i <= |s|
    ensures r.Some? ==> i <= r.value <= |s|
  {
    if i < |s| && s[i] == 0x2E then
      var j := SkipDigits(s, i + 1);
      if j == i + 1 then None else Some(j)
    else Some(i)
  }

  /** `[ exp ]` with `exp = e [ minus / plus ] 1*DIGIT`, starting at `i`. */
  function ExponentEnd(s: Bytes, i: nat): (r: Option<nat>)
    requires i <= |s|
    ensures r.Some? ==> i <= r.value <= |s|
  {
    if i < |s| && (s[i] == 0x65 || s[i] == 0x45) then
      var k := if i + 1 < |s| && (s[i + 1] == 0x2B || s[i + 1] == 0x2D) then i + 2 else i + 1;
      var j := SkipDigits(s, k);
      if j == k then None else Some(j)
    else Some(i)
  }

  /** `number = [ minus ] int [ frac ] [ exp ]`, covering the whole literal. */
  predicate ValidNumber(s: Bytes)
  {
    var start := if |s| > 0 && s[0] == 0x2D then 1 else 0;
    match IntPartEnd(s, start)
    case None => false
    case Some(a) =>
      match FractionEnd(s, a)
      case None => false
      case Some(b) => ExponentEnd(s, b) == Some(|s|)
  }

  /** A valid literal starts with a minus sign or a digit, so never with whitespace. */
  lemma ValidNumberStart(s: Bytes)
    requires ValidNumber(s)
    ensures |s| > 0 && (s[0] == 0x2D || IsDigit(s[0]))
  {
  }

  const MinInt64: int := -0x8000_0000_0000_0000
  const MaxInt64: int := 0x7FFF_FFFF_FFFF_FFFF

  /** The value of a run of decimal digits. */
  function DigitsValue(ds: Bytes): nat
    requires AllDigits(ds)
  {
    if ds == [] then 0 else DigitsValue(ds[..|ds| - 1]) * 10 + (ds[|ds| - 1] - 0x30) as int
  }

  /** The digits of an integer literal, after its optional sign. */
  function Unsigned(lit: Bytes): Bytes
  {
    if |lit| > 0 && (lit[0] == 0x2D || lit[0] == 0x2B) then lit[1..] else lit
  }

  /** An optional `+` or `-` followed by one or more decimal digits. */
  predicate IntLiteral(lit: Bytes)
  {
    Unsigned(lit) != [] && AllDigits(Unsigned(lit))
  }

  /** The integer an integer literal denotes, whatever its size. */
  function IntLiteralValue(lit: Bytes): int
    requires IntLiteral(lit)
  {
    if lit[0] == 0x2D then -(DigitsValue(Unsigned(lit)) as int) else DigitsValue(Unsigned(lit)) as int
  }

  /**
   * strconv.ParseInt(lit, 10, 64), which unmarshalling into an int64 uses: an
   * optional sign and one or more decimal digits whose value fits in 64 bits.
   */
  function ParseInt64(lit: Bytes): (r: Option<int>)
    ensures r.Some? <==> IntLiteral(lit) && MinInt64 <= IntLiteralValue(lit) <= MaxInt64
    ensures r.Some? ==> r.value == IntLiteralValue(lit)
    ensures r.Some? ==> MinInt64 <= r.value <= MaxInt64
    ensures r.Some? ==> forall k :: 0 <= k < |lit| ==> IsDigit(lit[k]) || (k == 0 && (lit[0] == 0x2D || lit[0] == 0x2B))
  {
    var signed := |lit| > 0 && (lit[0] == 0x2D || lit[0] == 0x2B);
    var ds := if signed then lit[1..] else lit;
    if ds == [] || !AllDigits(ds) then None
    else
      var v: int := if signed && lit[0] == 0x2D then -(DigitsValue(ds) as int) else DigitsValue(ds) as int;
      if MinInt64 <= v <= MaxInt64 then Some(v) else None
  }

  /** An integer literal above the int64 range is not an int64, however it is written. */
  lemma AboveInt64IsNotInt64(lit: Bytes)
    requires IntLiteral(lit) && IntLiteralValue(lit) > MaxInt64
    ensures ParseInt64(lit).None?
  {
  }

  /** An integer literal below the int64 range is not an int64 either. */
  lemma BelowInt64IsNotInt64(lit: Bytes)
    requires IntLiteral(lit) && IntLiteralValue(lit) < MinInt64
    ensures ParseInt64(lit).None?
  {
  }

  /** `-0`, `+0` and `0` all read as the int64 zero, as strconv.ParseInt reads them. */
  lemma SignedZeroIsZero()
    ensures ParseInt64([0x2D, 0x30]) == Some(0)
    ensures ParseInt64([0x2B, 0x30]) == Some(0)
    ensures ParseInt64([0x30]) == Some(0)
  {
    assert Unsigned([0x2D, 0x30]) == [0x30];
    assert Unsigned([0x2B, 0x30]) == [0x30];
    assert DigitsValue([0x30]) == 0 by { assert [0x30][..0] == []; }
  }

  /** A literal with a fraction or an exponent is never an int64. */
  lemma FractionIsNotInt64(lit: Bytes, k: nat)
    requires k < |lit| && (lit[k] == 0x2E || lit[k] == 0x65 || lit[k] == 0x45)
    ensures ParseInt64(lit).None?
  {
  }

  /** The decimal digits of `n`, without leading zeros (strconv.FormatInt for non-negative values). */
  function NatDigits(n: nat): (ds: Bytes)
    ensures |ds| > 0 && AllDigits(ds) && DigitsValue(ds) == n
    ensures |ds| > 1 ==> ds[0] != 0x30
    decreases n
  {
    if n < 10 then [(0x30 + n) as byte]
    else
      var ds := NatDigits(n / 10) + [(0x30 + n % 10) as byte];
      assert ds[..|ds| - 1] == NatDigits(n / 10);
      ds
  }

  /** An integer as encoding/json writes it: strconv.FormatInt(i, 10). */
  function Decimal(i: int): (lit: Bytes)
    ensures |lit| > 0
  {
    if i < 0 then [0x2D] + NatDigits(-i) else NatDigits(i)
  }

  /** Digits without leading zeros, read from `start` to the end, form a valid number literal. */
  lemma DigitsAreValidFrom(s: Bytes, start: nat)
    requires start < |s|
    requires AllDigits(s[start..])
    requires |s| - start > 1 ==> s[start] != 0x30
    ensures IntPartEnd(s, start) == Some(|s|)
    ensures FractionEnd(s, |s|) == Some(|s|) && ExponentEnd(s, |s|) == Some(|s|)
  {
    assert forall k :: start <= k < |s| ==> IsDigit(s[k]) by {
      forall k | start <= k < |s| ensures IsDigit(s[k]) {
        assert s[start..][k - start] == s[k];
      }
    }
    if s[start] != 0x30 {
      assert SkipDigits(s, start + 1) == |s|;
    }
  }

  /** Every int64 written in decimal reads back as itself, and its text is a valid number literal. */
  lemma DecimalRoundTrip(i: int)
    requires MinInt64 <= i <= MaxInt64
    ensures ParseInt64(Decimal(i)) == Some(i)
    ensures ValidNumber(Decimal(i))
  {
    var lit := Decimal(i);
    if i < 0 {
      var ds := NatDigits(-i);
      assert lit[1..] == ds;
      DigitsAreValidFrom(lit, 1);
    } else {
      assert lit[0..] == lit;
      DigitsAreValidFrom(lit, 0);
    }
  }

  /*
   * String escaping, as encoding/json writes a string (HTML-safe mode).
   */

  /** A lower-case hexadecimal digit. */
  function HexDigit(n: nat): byte
    requires n < 16
  {
    if n < 10 then (0x30 + n) as byte else (0x61 + n - 10) as byte
  }

  /**
   * The escaped form of one byte: `\"` and `\\`; the short escapes `\b`, `\f`,
   * `\n`, `\r`, `\t`; `\u00XX` for the other control bytes and for `<`, `>` and
   * `&`; any other byte as it is.
   */
  function EscapeByte(b: byte): (r: Bytes)
    ensures |r| > 0
    ensures |r| == 1 <==> r == [b]
    ensures |r| > 1 <==> b < 0x20 || b == 0x22 || b == 0x5C || b == 0x3C || b == 0x3E || b == 0x26
    ensures |r| > 1 ==> r[0] == 0x5C
  {
    if b == 0x22 || b == 0x5C then [0x5C, b]
    else if b == 0x08 then [0x5C, 0x62]
    else if b == 0x0C then [0x5C, 0x66]
    else if b == 0x0A then [0x5C, 0x6E]
    else if b == 0x0D then [0x5C, 0x72]
    else if b == 0x09 then [0x5C, 0x74]
    else if b < 0x20 || b == 0x3C || b == 0x3E || b == 0x26 then
      [0x5C, 0x75, 0x30, 0x30, HexDigit(b as int / 16), HexDigit(b as int % 16)]
    else [b]
  }

  /** The body of a string literal: each byte escaped in turn. */
  function Escape(s: Bytes): (r: Bytes)
    ensures |r| >= |s|
  {
    if s == [] then [] else EscapeByte(s[0]) + Escape(s[1..])
  }

  /** A byte that encoding/json writes unescaped and that is ASCII. */
  predicate IsPlain(b: byte)
  {
    0x20 <= b < 0x7F && b != 0x22 && b != 0x5C && b != 0x3C && b != 0x3E && b != 0x26
  }

  /** Text made of plain bytes is written as it is. */
  lemma {:induction false} EscapePlain(s: Bytes)
    requires forall i :: 0 <= i < |s| ==> IsPlain(s[i])
    ensures Escape(s) == s
  {
    if s != [] {
      EscapePlain(s[1..]);
    }
  }

  /** No byte of an escaped body is an unescaped quote: every `"` in it follows a backslash. */
  lemma {:induction false} EscapedQuotesFollowBackslash(s: Bytes)
    ensures forall i :: 0 <= i < |Escape(s)| && Escape(s)[i] == 0x22 ==> i > 0 && Escape(s)[i - 1] == 0x5C
  {
    if s != [] {
      EscapedQuotesFollowBackslash(s[1..]);
      var e := EscapeByte(s[0]);
      var r := Escape(s[1..]);
      assert Escape(s) == e + r;
      forall i | 0 <= i < |e + r| && (e + r)[i] == 0x22 ensures i > 0 && (e + r)[i - 1] == 0x5C {
        if i >= |e| {
          assert (e + r)[i] == r[i - |e|];
          if i - |e| > 0 {
            assert (e + r)[i - 1] == r[i - |e| - 1];
          }
        }
      }
    }
  }

  /**
   * How a JSON scanner reads the inside of a string literal: a backslash
   * takes the byte after it along, and an unescaped `"` ends the string.
   * A body satisfies this when the scanner reaches its end without meeting
   * such a quote and without stopping inside an escape.
   */
  predicate NoBareQuote(e: Bytes)
    decreases |e|
  {
    e == [] ||
    (e[0] != 0x22 &&
     if e[0] == 0x5C then |e| >= 2 && NoBareQuote(e[2..]) else NoBareQuote(e[1..]))
  }

  /** The scanner passes over one escaped byte and carries on with what follows. */
  lemma EscapeByteNoBareQuote(b: byte, rest: Bytes)
    ensures NoBareQuote(EscapeByte(b) + rest) <==> NoBareQuote(rest)
  {
    var e := EscapeByte(b);
    if |e| == 1 {
      assert (e + rest)[1..] == rest;
    } else if |e| == 2 {
      assert (e + rest)[2..] == rest;
    } else {
      // `\u00XX`: the scanner takes `\u`, then four hex digits, none a quote or backslash
      var x := e + rest;
      assert |e| == 6 && e[0] == 0x5C && e[2] == 0x30 && e[3] == 0x30;
      assert 0x30 <= e[4] <= 0x66 && e[4] != 0x5C && 0x30 <= e[5] <= 0x66 && e[5] != 0x5C;
      assert NoBareQuote(x) <==> NoBareQuote(x[2..]);
      assert NoBareQuote(x[2..]) <==> NoBareQuote(x[3..]) by { assert x[2..][1..] == x[3..]; }
      assert NoBareQuote(x[3..]) <==> NoBareQuote(x[4..]) by { assert x[3..][1..] == x[4..]; }
      assert NoBareQuote(x[4..]) <==> NoBareQuote(x[5..]) by { assert x[4..][1..] == x[5..]; }
      assert NoBareQuote(x[5..]) <==> NoBareQuote(x[6..]) by { assert x[5..][1..] == x[6..]; }
      assert x[6..] == rest;
    }
  }

  /** An escaped body never ends the string literal early: the only quote the scanner stops at is the closing one. */
  lemma {:induction false} EscapeHasNoBareQuote(s: Bytes)
    ensures NoBareQuote(Escape(s))
  {
    if s != [] {
      EscapeHasNoBareQuote(s[1..]);
      EscapeByteNoBareQuote(s[0], Escape(s[1..]));
    }
  }

  /** A quoted JSON string literal. */
  function Quote(s: Bytes): (r: Bytes)
    ensures |r| >= 2 && r[0] == 0x22 && r[|r| - 1] == 0x22
  {
    [0x22] + Escape(s) + [0x22]
  }

  /*
   * Token text.
   */

  /** The text of one token in compact output (an `Invalid` token has none). */
  function TokenText(t: Token): Bytes
  {
    match t
    case BeginObject => [0x7B]
    case EndObject => [0x7D]
    case BeginArray => [0x5B]
    case EndArray => [0x5D]
    case Colon => [0x3A]
    case Comma => [0x2C]
    case Str(s) => Quote(s)
    case Number(lit) => lit
    case True => [0x74, 0x72, 0x75, 0x65]
    case False => [0x66, 0x61, 0x6C, 0x73, 0x65]
    case Null => [0x6E, 0x75, 0x6C, 0x6C]
    case Invalid => []
  }

  /** The compact text of a token sequence: the token texts, with no whitespace between them. */
  function Text(ts: seq<Token>): Bytes
  {
    if ts == [] then [] else TokenText(ts[0]) + Text(ts[1..])
  }

  lemma {:induction false} TextAppend(a: seq<Token>, b: seq<Token>)
    ensures Text(a + b) == Text(a) + Text(b)
  {
    if a == [] {
      assert a + b == b;
    } else {
      assert (a + b)[0] == a[0];
      assert (a + b)[1..] == a[1..] + b;
      TextAppend(a[1..], b);
    }
  }

  /** A token the tokenizer can hand out: not a lexical error, and a number only with valid syntax. */
  predicate Lexeme(t: Token)
  {
    t != Invalid && (t.Number? ==> ValidNumber(t.lit))
  }

  /**
   * The byte firstNonWS finds in the text of a token sequence is the first byte
   * of its first token: `{` exactly for an object, `[` exactly for an array.
   */
  lemma FirstNonWSOfText(ts: seq<Token>)
    requires ts != [] && Lexeme(ts[0])
    ensures FirstNonWS(Text(ts)) == TokenText(ts[0])[0]
    ensures FirstNonWS(Text(ts)) == 0x7B <==> ts[0] == BeginObject
    ensures FirstNonWS(Text(ts)) == 0x5B <==> ts[0] == BeginArray
  {
    var t := ts[0];
    if t.Number? {
      ValidNumberStart(t.lit);
    }
    var txt := TokenText(t);
    assert |txt| > 0 && !IsWhitespace(txt[0]);
    assert Text(ts) == txt + Text(ts[1..]);
    assert Text(ts)[0] == txt[0];
  }

  /*
   * The scanner: one complete value, as Decoder.Decode reads into a json.RawMessage.
   */

  /** The end of the complete value that starts at `i`, or None when none starts there. */
  function ScanValue(toks: seq<Token>, i: nat): (r: Option<nat>)
    ensures r.Some? ==> i < r.value <= |toks|
    decreases |toks| - i, 1
  {
    if i >= |toks| then None
    else match toks[i]
      case Str(_) => Some(i + 1)
      case True => Some(i + 1)
      case False => Some(i + 1)
      case Null => Some(i + 1)
      case Number(lit) => if ValidNumber(lit) then Some(i + 1) else None
      case BeginObject =>
        if i + 1 < |toks| && toks[i + 1] == EndObject then Some(i + 2) else ScanMembers(toks, i + 1)
      case BeginArray =>
        if i + 1 < |toks| && toks[i + 1] == EndArray then Some(i + 2) else ScanElements(toks, i + 1)
      case _ => None
  }

  /** `name : value`, then `,` and more members or the closing `}`; returns the index past `}`. */
  function ScanMembers(toks: seq<Token>, i: nat): (r: Option<nat>)
    ensures r.Some? ==> i < r.value <= |toks|
    decreases |toks| - i, 0
  {
    if i + 1 < |toks| && toks[i].Str? && toks[i + 1] == Colon then
      match ScanValue(toks, i + 2)
      case None => None
      case Some(j) =>
        if j < |toks| && toks[j] == Comma then ScanMembers(toks, j + 1)
        else if j < |toks| && toks[j] == EndObject then Some(j + 1)
        else None
    else None
  }

  /** `value`, then `,` and more elements or the closing `]`; returns the index past `]`. */
  function ScanElements(toks: seq<Token>, i: nat): (r: Option<nat>)
    ensures r.Some? ==> i < r.value <= |toks|
    decreases |toks| - i, 2
  {
    match ScanValue(toks, i)
    case None => None
    case Some(j) =>
      if j < |toks| && toks[j] == Comma then ScanElements(toks, j + 1)
      else if j < |toks| && toks[j] == EndArray then Some(j + 1)
      else None
  }

  /** A complete value starts with a token the tokenizer can hand out. */
  lemma ScannedValueStartsWithLexeme(toks: seq<Token>, i: nat)
    requires ScanValue(toks, i).Some?
    ensures Lexeme(toks[i])
  {
  }
}
