/**
 * The order-preserving JSON object codec of utils/serialize.go: OrderedObject,
 * its first-match lookup, the decoder (UnmarshalJSON, determineValueType,
 * unmarshalArray) and the encoder (MarshalJSON) as specification functions.
 *
 * Decoding reads the token stream of encoding/json's Decoder. Float64 parsing
 * (strconv.ParseFloat) and float64 formatting are not modelled: the decoder
 * takes the parser and the encoder takes the formatter as parameters, and a
 * float64 is held as its IEEE-754 bit pattern.
 */
module OrderedJson {

  import opened Prelude
  import opened JsonTokens

  /** strconv.ParseFloat(lit, 64): the float64 nearest the literal, or None when it is out of range. */
  type FloatParser = Bytes -> Option<bv64>

  /** strconv's shortest text for a float64, as encoding/json writes it. */
  type FloatFormatter = bv64 -> Bytes

  /** The Go values an OrderedObject member may hold. */
  datatype Value =
    | Nil
    | Bool(b: bool)
    | Int(i: int)
    | Float(bits: bv64)
    | String(s: Bytes)
    | Array(elems: seq<Value>)
    | Object(members: seq<Member>)

  /** ObjectMember: one name/value pair. */
  datatype Member = Member(key: Bytes, value: Value)

  /** OrderedObject: members in order; names may repeat. */
  type OrderedObject = seq<Member>

  /** How a decode fails. */
  datatype DecodeError =
    | SyntaxError            // the tokenizer or the Decoder's grammar checks reject the input
    | NotAnObject            // "expected JSON object start"
    | NotAnArray             // "expected JSON array start"
    | CannotDecode(raw: seq<Token>)   // no primitive type accepts the raw value
    | NumberTypeError(lit: Bytes)     // json's UnmarshalTypeError: a number no float64 holds, read into `any`

  datatype Result<+T> = Ok(value: T) | Err(error: DecodeError)

  /*
   * Lookup.
   */

  /** Get: the value of the first member named `key`, or None when no member has that name. */
  function Get(o: OrderedObject, key: Bytes): (r: Option<Value>)
    ensures r.None? <==> forall i :: 0 <= i < |o| ==> o[i].key != key
    ensures r.Some? ==> exists i :: 0 <= i < |o| && o[i] == Member(key, r.value)
                                    && forall j :: 0 <= j < i ==> o[j].key != key
  {
    if o == [] then None
    else if o[0].key == key then Some(o[0].value)
    else
      var r := Get(o[1..], key);
      assert forall i :: 1 <= i < |o| ==> o[i] == o[1..][i - 1];
      if r.Some? then
        var i :| 0 <= i < |o[1..]| && o[1..][i] == Member(key, r.value)
                 && forall j :: 0 <= j < i ==> o[1..][j].key != key;
        assert o[i + 1] == Member(key, r.value);
        r
      else r
  }

  /** A member appended after one of the same name never shadows it: the first one wins. */
  lemma {:induction false} GetIgnoresLaterDuplicate(o: OrderedObject, m: Member)
    requires Get(o, m.key).Some?
    ensures Get(o + [m], m.key) == Get(o, m.key)
  {
    if o[0].key != m.key {
      assert (o + [m])[1..] == o[1..] + [m];
      GetIgnoresLaterDuplicate(o[1..], m);
    }
  }

  /*
   * Decoding.
   *
   * `toks` is what encoding/json's Decoder reads; positions index into it.
   * A raw value (json.RawMessage) is the token slice of one complete value.
   */

  /** Decoder.More: another element follows unless the input ended or the next token closes a container. */
  predicate More(toks: seq<Token>, pos: nat)
  {
    pos < |toks| && toks[pos] != EndObject && toks[pos] != EndArray
  }

  /**
   * The error of a first Decoder.Token() that does not yield the expected
   * delimiter: a token that cannot start a value is a syntax error; a number
   * is read into `any` as a float64, so one the float parser rejects is json's
   * type error; any other value is the "expected ... start" error.
   */
  function FirstTokenError(t: Token, notIt: DecodeError, parse: FloatParser): (e: DecodeError)
    requires notIt == NotAnObject || notIt == NotAnArray
    ensures e == SyntaxError <==> !Lexeme(t) || t in {EndObject, EndArray, Colon, Comma}
    ensures e.NumberTypeError? <==> Lexeme(t) && t.Number? && parse(t.lit).None?
    ensures e.NumberTypeError? ==> e.lit == t.lit
    ensures e == notIt || e == SyntaxError || e.NumberTypeError?
  {
    if !Lexeme(t) || t in {EndObject, EndArray, Colon, Comma} then SyntaxError
    else if t.Number? && parse(t.lit).None? then NumberTypeError(t.lit)
    else notIt
  }

  /** UnmarshalJSON: `{`, then the members, then `}`; tokens after the closing `}` are not read. */
  function DecodeObject(toks: seq<Token>, parse: FloatParser): (r: Result<OrderedObject>)
    ensures r.Ok? ==> |toks| > 0 && toks[0] == BeginObject
    decreases |toks|, 1, 0
  {
    if toks == [] then Err(SyntaxError)
    else if toks[0] != BeginObject then Err(FirstTokenError(toks[0], NotAnObject, parse))
    else DecodeMembers(toks, 1, [], parse)
  }

  /**
   * The loop of UnmarshalJSON from position `pos`, with `acc` decoded so far.
   * Each member is a name token (after a `,` once a member has been read), a
   * `:` and one complete value; each is appended, duplicates included.
   */
  function DecodeMembers(toks: seq<Token>, pos: nat, acc: OrderedObject, parse: FloatParser): (r: Result<OrderedObject>)
    requires 1 <= pos <= |toks|
    ensures r.Ok? ==> |acc| <= |r.value| && r.value[..|acc|] == acc
    decreases |toks|, 0, |toks| - pos
  {
    if !More(toks, pos) then
      // the closing dec.Token()
      if pos < |toks| && toks[pos] == EndObject then Ok(acc) else Err(SyntaxError)
    else
      // the name: dec.Token() consumes a separating comma first once a member has been read
      var k := if acc == [] then pos else pos + 1;
      if acc != [] && toks[pos] != Comma then Err(SyntaxError)
      else if k >= |toks| || !toks[k].Str? then Err(SyntaxError)
      // the value: dec.Decode(&raw) wants the colon, then one complete value
      else if k + 1 >= |toks| || toks[k + 1] != Colon then Err(SyntaxError)
      else
        match ScanValue(toks, k + 2)
        case None => Err(SyntaxError)
        case Some(j) =>
          match Classify(toks[k + 2..j], parse)
          case Err(e) => Err(e)
          case Ok(v) =>
            var r := DecodeMembers(toks, j, acc + [Member(toks[k].s, v)], parse);
            assert r.Ok? ==> r.value[..|acc|] == (r.value[..|acc| + 1])[..|acc|];
            r
  }

  /**
   * determineValueType: exactly `null` is Nil; a value whose first byte is `{`
   * is a nested OrderedObject and `[` an array; anything else is the first of
   * int64, float64, bool and string that accepts it.
   */
  function Classify(raw: seq<Token>, parse: FloatParser): (r: Result<Value>)
    ensures raw == [Null] ==> r == Ok(Nil)
    ensures r.Ok? ==> raw != [] && (r.value.Object? <==> raw[0] == BeginObject) && (r.value.Array? <==> raw[0] == BeginArray)
    decreases |raw|, 2, 0
  {
    if raw == [Null] then Ok(Nil)
    else if raw != [] && raw[0] == BeginObject then
      match DecodeObject(raw, parse)
      case Ok(ms) => Ok(Object(ms))
      case Err(e) => Err(e)
    else if raw != [] && raw[0] == BeginArray then
      match DecodeArray(raw, parse)
      case Ok(es) => Ok(Array(es))
      case Err(e) => Err(e)
    else Cascade(raw, parse)
  }

  /** The unmarshalPrimitive attempts, in order: int64, float64, bool, string. */
  function Cascade(raw: seq<Token>, parse: FloatParser): (r: Result<Value>)
    ensures |raw| == 1 && raw[0].Number? && ParseInt64(raw[0].lit).Some? ==>
              r == Ok(Int(ParseInt64(raw[0].lit).value))
    ensures |raw| == 1 && raw[0].Number? && ParseInt64(raw[0].lit).None? && parse(raw[0].lit).Some? ==>
              r == Ok(Float(parse(raw[0].lit).value))
    ensures raw == [True] ==> r == Ok(Bool(true))
    ensures raw == [False] ==> r == Ok(Bool(false))
    ensures |raw| == 1 && raw[0].Str? ==> r == Ok(String(raw[0].s))
    ensures r.Ok? ==> |raw| == 1
    ensures r.Ok? && r.value.Int? ==> raw[0].Number? && ParseInt64(raw[0].lit) == Some(r.value.i)
    ensures r.Ok? && r.value.Float? ==>
              raw[0].Number? && ParseInt64(raw[0].lit).None? && parse(raw[0].lit) == Some(r.value.bits)
    ensures r.Ok? && r.value.Bool? ==> raw[0] == (if r.value.b then True else False)
    ensures r.Ok? && r.value.String? ==> raw[0] == Str(r.value.s)
    ensures r.Ok? ==> r.value.Int? || r.value.Float? || r.value.Bool? || r.value.String?
    ensures r.Err? ==> r.error == CannotDecode(raw)
  {
    if |raw| == 1 && raw[0].Number? && ParseInt64(raw[0].lit).Some? then
      Ok(Int(ParseInt64(raw[0].lit).value))
    else if |raw| == 1 && raw[0].Number? && parse(raw[0].lit).Some? then
      Ok(Float(parse(raw[0].lit).value))
    else if raw == [True] || raw == [False] then
      Ok(Bool(raw == [True]))
    else if |raw| == 1 && raw[0].Str? then
      Ok(String(raw[0].s))
    else Err(CannotDecode(raw))
  }

  /**
   * The dispatch in determineValueType reads firstNonWS of the raw text; on a
   * complete value that byte is `{` exactly when its first token opens an
   * object and `[` exactly when it opens an array, the tests Classify makes.
   */
  lemma ClassifyDispatchAgrees(raw: seq<Token>)
    requires ScanValue(raw, 0).Some?
    ensures FirstNonWS(Text(raw)) == 0x7B <==> raw[0] == BeginObject
    ensures FirstNonWS(Text(raw)) == 0x5B <==> raw[0] == BeginArray
  {
    ScannedValueStartsWithLexeme(raw, 0);
    FirstNonWSOfText(raw);
  }

  /** unmarshalArray: `[`, then the elements, then `]`. */
  function DecodeArray(raw: seq<Token>, parse: FloatParser): (r: Result<seq<Value>>)
    ensures r.Ok? ==> |raw| > 0 && raw[0] == BeginArray
    decreases |raw|, 1, 0
  {
    if raw == [] then Err(SyntaxError)
    else if raw[0] != BeginArray then Err(FirstTokenError(raw[0], NotAnArray, parse))
    else DecodeElements(raw, 1, [], parse)
  }

  /**
   * The loop of unmarshalArray from position `pos`, with `acc` decoded so far:
   * one complete value per element (after a `,` once an element has been read),
   * appended in order.
   */
  function DecodeElements(raw: seq<Token>, pos: nat, acc: seq<Value>, parse: FloatParser): (r: Result<seq<Value>>)
    requires 1 <= pos <= |raw|
    ensures r.Ok? ==> |acc| <= |r.value| && r.value[..|acc|] == acc
    decreases |raw|, 0, |raw| - pos
  {
    if !More(raw, pos) then
      if pos < |raw| && raw[pos] == EndArray then Ok(acc) else Err(SyntaxError)
    else
      // dec.Decode(&raw) wants a comma between elements
      var k := if acc == [] then pos else pos + 1;
      if acc != [] && raw[pos] != Comma then Err(SyntaxError)
      else
        match ScanValue(raw, k)
        case None => Err(SyntaxError)
        case Some(j) =>
          match Element(raw[k..j], parse)
          case Err(e) => Err(e)
          case Ok(v) =>
            var r := DecodeElements(raw, j, acc + [v], parse);
            assert r.Ok? ==> r.value[..|acc|] == (r.value[..|acc| + 1])[..|acc|];
            r
  }

  /**
   * One array element: `{` a nested OrderedObject, `[` a nested array, anything
   * else the generic decoding into `any` (null, bool, float64, string).
   */
  function Element(raw: seq<Token>, parse: FloatParser): (r: Result<Value>)
    ensures r.Ok? ==> !r.value.Int?
    ensures r.Ok? ==> raw != [] && (r.value.Object? <==> raw[0] == BeginObject) && (r.value.Array? <==> raw[0] == BeginArray)
    decreases |raw|, 2, 0
  {
    if raw != [] && raw[0] == BeginObject then
      match DecodeObject(raw, parse)
      case Ok(ms) => Ok(Object(ms))
      case Err(e) => Err(e)
    else if raw != [] && raw[0] == BeginArray then
      match DecodeArray(raw, parse)
      case Ok(es) => Ok(Array(es))
      case Err(e) => Err(e)
    else Generic(raw, parse)
  }

  /**
   * json.Unmarshal into `any`: every number becomes a float64, never an int64,
   * and a number the float parser rejects is json's type error.
   */
  function Generic(raw: seq<Token>, parse: FloatParser): (r: Result<Value>)
    ensures raw == [Null] ==> r == Ok(Nil)
    ensures raw == [True] ==> r == Ok(Bool(true))
    ensures raw == [False] ==> r == Ok(Bool(false))
    ensures |raw| == 1 && raw[0].Number? && parse(raw[0].lit).Some? ==> r == Ok(Float(parse(raw[0].lit).value))
    ensures |raw| == 1 && raw[0].Number? && parse(raw[0].lit).None? ==> r == Err(NumberTypeError(raw[0].lit))
    ensures |raw| == 1 && raw[0].Str? ==> r == Ok(String(raw[0].s))
    ensures r.Ok? ==> !r.value.Int?
    ensures r.Ok? ==> |raw| == 1
    ensures r.Ok? ==> raw[0].Null? || raw[0].True? || raw[0].False? || raw[0].Number? || raw[0].Str?
    ensures r.Err? && !(|raw| == 1 && raw[0].Number?) ==> r.error == CannotDecode(raw)
    ensures r.Ok? && r.value.Float? ==> raw[0].Number? && parse(raw[0].lit) == Some(r.value.bits)
    ensures r.Ok? ==> r.value.Nil? || r.value.Bool? || r.value.Float? || r.value.String?
  {
    if raw == [Null] then Ok(Nil)
    else if raw == [True] || raw == [False] then Ok(Bool(raw == [True]))
    else if |raw| == 1 && raw[0].Number? then
      if parse(raw[0].lit).Some? then Ok(Float(parse(raw[0].lit).value)) else Err(NumberTypeError(raw[0].lit))
    else if |raw| == 1 && raw[0].Str? then Ok(String(raw[0].s))
    else Err(CannotDecode(raw))
  }

  /*
   * Encoding, as a token sequence; its compact text is what MarshalJSON writes.
   */

  /** The tokens json.Marshal writes for a value (an OrderedObject through its MarshalJSON). */
  function ValueTokens(v: Value, format: FloatFormatter): (ts: seq<Token>)
    ensures ts != []
    decreases v, 1
  {
    match v
    case Nil => [Null]
    case Bool(b) => if b then [True] else [False]
    case Int(i) => [Number(Decimal(i))]
    case Float(f) => [Number(format(f))]
    case String(s) => [Str(s)]
    case Array(es) => [BeginArray] + ElementsFrom(es, 0, format) + [EndArray]
    case Object(ms) => ObjectTokens(ms, format)
  }

  /** MarshalJSON's tokens: `{`, the members separated by `,`, `}`. */
  function ObjectTokens(o: OrderedObject, format: FloatFormatter): (ts: seq<Token>)
    ensures |ts| >= 2 && ts[0] == BeginObject && ts[|ts| - 1] == EndObject
    decreases o, 2
  {
    [BeginObject] + MembersFrom(o, 0, format) + [EndObject]
  }

  /** The tokens of member `i`: a `,` unless it is the first, the quoted name, `:`, the value. */
  function MemberChunk(o: OrderedObject, i: nat, format: FloatFormatter): seq<Token>
    requires i < |o|
    decreases o, 0
  {
    assert o[i] in o;
    (if i > 0 then [Comma] else []) + [Str(o[i].key), Colon] + ValueTokens(o[i].value, format)
  }

  /** The tokens of the members from `i` on. */
  function MembersFrom(o: OrderedObject, i: nat, format: FloatFormatter): seq<Token>
    requires i <= |o|
    decreases o, 1, |o| - i
  {
    if i == |o| then [] else MemberChunk(o, i, format) + MembersFrom(o, i + 1, format)
  }

  /** The tokens of the elements from `i` on, separated by `,`. */
  function ElementsFrom(es: seq<Value>, i: nat, format: FloatFormatter): seq<Token>
    requires i <= |es|
    decreases es, 0, |es| - i
  {
    if i == |es| then []
    else
      assert es[i] in es;
      (if i > 0 then [Comma] else []) + ValueTokens(es[i], format) + ElementsFrom(es, i + 1, format)
  }

  /** What MarshalJSON returns. */
  function Marshal(o: OrderedObject, format: FloatFormatter): Bytes
  {
    Text(ObjectTokens(o, format))
  }

  /*
   * The slice unmarshalArray returns. The decoder above builds a non-nil
   * slice for every array; the Go code as written returns the nil slice for `[]`.
   */

  /** A Go []any: its elements, and whether it is the nil slice. */
  datatype GoSlice = GoSlice(elems: seq<Value>, isNil: bool)

  /**
   * unmarshalArray as written: the same reads and checks as DecodeArray, but
   * the result starts as `var arr []any`, the nil slice, and only an append
   * makes it non-nil.
   */
  function DecodeArrayAsWritten(raw: seq<Token>, parse: FloatParser): (r: Result<GoSlice>)
    ensures r.Ok? ==> raw != [] && raw[0] == BeginArray
    ensures r.Ok? && r.value.isNil ==> r.value.elems == []
  {
    if raw == [] then Err(SyntaxError)
    else if raw[0] != BeginArray then Err(FirstTokenError(raw[0], NotAnArray, parse))
    else DecodeElementsAsWritten(raw, 1, GoSlice([], true), parse)
  }

  /** The loop of unmarshalArray as written, appending to the Go slice `arr`. */
  function DecodeElementsAsWritten(raw: seq<Token>, pos: nat, arr: GoSlice, parse: FloatParser): (r: Result<GoSlice>)
    ensures r.Ok? ==> |arr.elems| <= |r.value.elems| && r.value.elems[..|arr.elems|] == arr.elems
    ensures r.Ok? && r.value.isNil ==> r.value == arr
    requires 1 <= pos <= |raw|
    decreases |raw| - pos
  {
    if !More(raw, pos) then
      if pos < |raw| && raw[pos] == EndArray then Ok(arr) else Err(SyntaxError)
    else
      var k := if arr.elems == [] then pos else pos + 1;
      if arr.elems != [] && raw[pos] != Comma then Err(SyntaxError)
      else
        match ScanValue(raw, k)
        case None => Err(SyntaxError)
        case Some(j) =>
          match Element(raw[k..j], parse)
          case Err(e) => Err(e)
          case Ok(v) =>
            var r := DecodeElementsAsWritten(raw, j, GoSlice(arr.elems + [v], false), parse);
            assert r.Ok? ==> r.value.elems[..|arr.elems|] == (r.value.elems[..|arr.elems| + 1])[..|arr.elems|];
            r
  }

  /** The as-written loop agrees with DecodeElements on everything but nil-ness, which it keeps tied to emptiness. */
  lemma {:induction false} ElementsAsWrittenAgree(raw: seq<Token>, pos: nat, arr: GoSlice, parse: FloatParser)
    requires 1 <= pos <= |raw|
    requires arr.isNil <==> arr.elems == []
    ensures var r := DecodeElementsAsWritten(raw, pos, arr, parse);
            var d := DecodeElements(raw, pos, arr.elems, parse);
            (r.Ok? <==> d.Ok?) && (r.Err? ==> r.error == d.error) &&
            (r.Ok? ==> r.value.elems == d.value && (r.value.isNil <==> r.value.elems == []))
    decreases |raw| - pos
  {
    if More(raw, pos) {
      var k := if arr.elems == [] then pos else pos + 1;
      if !(arr.elems != [] && raw[pos] != Comma) {
        match ScanValue(raw, k)
        case None =>
        case Some(j) =>
          match Element(raw[k..j], parse)
          case Err(_) =>
          case Ok(v) => ElementsAsWrittenAgree(raw, j, GoSlice(arr.elems + [v], false), parse);
      }
    }
  }

  /**
   * For every raw value, unmarshalArray as written succeeds and fails exactly
   * as DecodeArray does, with the same elements, and its slice is nil exactly
   * when there are none.
   */
  lemma ArrayAsWrittenAgrees(raw: seq<Token>, parse: FloatParser)
    ensures var r := DecodeArrayAsWritten(raw, parse);
            var d := DecodeArray(raw, parse);
            (r.Ok? <==> d.Ok?) && (r.Err? ==> r.error == d.error) &&
            (r.Ok? ==> r.value.elems == d.value && (r.value.isNil <==> r.value.elems == []))
  {
    if raw != [] && raw[0] == BeginArray {
      ElementsAsWrittenAgree(raw, 1, GoSlice([], true), parse);
    }
  }

  /** json.Marshal of a []any: the nil slice is written as `null`, any other slice as an array. */
  function SliceTokens(s: GoSlice, format: FloatFormatter): seq<Token>
  {
    if s.isNil then [Null] else ValueTokens(Array(s.elems), format)
  }
}
