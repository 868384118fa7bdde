/**
 * The loops of utils/serialize.go as methods, each proved to compute the
 * specification function of the same name in OrderedJson or JsonTokens:
 * firstNonWS, Get, UnmarshalJSON (which replaces the object it is called on),
 * determineValueType, unmarshalArray and MarshalJSON.
 */
module OrderedJsonImpl {

  import opened Prelude
  import opened JsonTokens
  import opened OrderedJson

  /** firstNonWS: the first byte that is not a space, `\n`, `\r` or `\t`; 0 when there is none. */
  method FirstNonWhitespace(data: Bytes) returns (b: byte)
    ensures b == FirstNonWS(data)
  {
    assert data[0..] == data;
    var i := 0;
    while i < |data|
      invariant 0 <= i <= |data|
      invariant FirstNonWS(data[i..]) == FirstNonWS(data)
    {
      if !IsWhitespace(data[i]) {
        return data[i];
      }
      assert data[i..][1..] == data[i + 1..];
      i := i + 1;
    }
    return 0;
  }

  /** The tokens MarshalJSON has written for the members before member `i`. */
  ghost function MembersBefore(o: OrderedObject, i: nat, format: FloatFormatter): seq<Token>
    requires i <= |o|
  {
    if i == 0 then [] else MembersBefore(o, i - 1, format) + MemberChunk(o, i - 1, format)
  }

  /** The members before `i` and those from `i` on make up all the members. */
  lemma {:induction false} MembersBeforeAndFrom(o: OrderedObject, i: nat, format: FloatFormatter)
    requires i <= |o|
    ensures MembersBefore(o, i, format) + MembersFrom(o, i, format) == MembersFrom(o, 0, format)
    decreases i
  {
    if i > 0 {
      MembersBeforeAndFrom(o, i - 1, format);
      var before := MembersBefore(o, i - 1, format);
      var chunk := MemberChunk(o, i - 1, format);
      assert MembersFrom(o, i - 1, format) == chunk + MembersFrom(o, i, format);
      assert before + chunk + MembersFrom(o, i, format) == before + (chunk + MembersFrom(o, i, format));
    }
  }

  /** The text of one token on its own. */
  lemma TextOfOne(t: Token)
    ensures Text([t]) == TokenText(t)
  {
    assert [t][1..] == [];
  }

  /** The text of a quoted name followed by a colon. */
  lemma NameText(key: Bytes)
    ensures Text([Str(key), Colon]) == Quote(key) + [0x3A]
  {
    assert [Str(key), Colon][1..] == [Colon];
    TextOfOne(Colon);
  }

  /** The text of member `i`: a comma unless it is the first, the quoted name, a colon, the value's text. */
  lemma ChunkText(o: OrderedObject, i: nat, format: FloatFormatter)
    requires i < |o|
    ensures Text(MemberChunk(o, i, format))
            == (if i > 0 then [0x2C] else []) + Quote(o[i].key) + [0x3A] + Text(ValueTokens(o[i].value, format))
  {
    var sep: seq<Token> := if i > 0 then [Comma] else [];
    var name := [Str(o[i].key), Colon];
    var vt := ValueTokens(o[i].value, format);
    assert MemberChunk(o, i, format) == sep + name + vt;
    TextAppend(sep + name, vt);
    TextAppend(sep, name);
    if i > 0 {
      TextOfOne(Comma);
    } else {
      assert sep == [];
    }
    NameText(o[i].key);
    AppendAssoc(Text(sep), Quote(o[i].key), [0x3A]);
  }

  /** Appending four pieces one at a time is appending their concatenation. */
  lemma AppendFour(w: Bytes, a: Bytes, b: Bytes, c: Bytes, d: Bytes)
    ensures w + (a + b + c + d) == w + a + b + c + d
  {
  }

  lemma AppendAssoc<T>(a: seq<T>, b: seq<T>, c: seq<T>)
    ensures a + (b + c) == a + b + c
  {
  }

  /** Writing member `i` after the text of the members before it gives the text of the members up to `i`. */
  lemma MarshalStep(o: OrderedObject, i: nat, format: FloatFormatter, written: Bytes)
    requires i < |o| && written == Text([BeginObject] + MembersBefore(o, i, format))
    ensures written + (if i > 0 then [0x2C] else []) + Quote(o[i].key) + [0x3A] + Text(ValueTokens(o[i].value, format))
            == Text([BeginObject] + MembersBefore(o, i + 1, format))
  {
    var b := [BeginObject] + MembersBefore(o, i, format);
    var chunk := MemberChunk(o, i, format);
    ChunkText(o, i, format);
    TextAppend(b, chunk);
    AppendFour(written, if i > 0 then [0x2C] else [], Quote(o[i].key), [0x3A], Text(ValueTokens(o[i].value, format)));
    assert MembersBefore(o, i + 1, format) == MembersBefore(o, i, format) + chunk;
    AppendAssoc([BeginObject], MembersBefore(o, i, format), chunk);
  }

  /** The text MarshalJSON starts from, and the text it ends with. */
  lemma MarshalEnds(o: OrderedObject, format: FloatFormatter)
    ensures Text([BeginObject] + MembersBefore(o, 0, format)) == [0x7B]
    ensures Text([BeginObject] + MembersBefore(o, |o|, format)) + [0x7D] == Marshal(o, format)
  {
    assert [BeginObject] + MembersBefore(o, 0, format) == [BeginObject];
    TextOfOne(BeginObject);
    MembersBeforeAndFrom(o, |o|, format);
    assert MembersFrom(o, |o|, format) == [];
    assert MembersBefore(o, |o|, format) == MembersFrom(o, 0, format);
    TextAppend([BeginObject] + MembersFrom(o, 0, format), [EndObject]);
    TextOfOne(EndObject);
  }

  /** An OrderedObject variable: the slice a pointer receiver points at. */
  class OrderedObjectVar {
    /** The members, in order. */
    var members: OrderedObject

    constructor (ms: OrderedObject)
      ensures members == ms
    {
      members := ms;
    }

    /** Get: walks the members in order and stops at the first one named `key`; (nil, false) when none is. */
    method Get(key: Bytes) returns (value: Value, found: bool)
      ensures found <==> OrderedJson.Get(members, key).Some?
      ensures found ==> value == OrderedJson.Get(members, key).value
      ensures !found ==> value == Nil
    {
      assert members[0..] == members;
      var i := 0;
      while i < |members|
        invariant 0 <= i <= |members|
        invariant OrderedJson.Get(members[i..], key) == OrderedJson.Get(members, key)
      {
        if members[i].key == key {
          return members[i].value, true;
        }
        assert members[i..][1..] == members[i + 1..];
        i := i + 1;
      }
      return Nil, false;
    }

    /**
     * UnmarshalJSON: reads `{`, then name, `:` and raw value for as long as
     * the Decoder reports more, classifying each raw value and appending the
     * member, then the closing `}`. Only on success does it replace the
     * members; on any error they are left as they were.
     */
    method UnmarshalJSON(toks: seq<Token>, parse: FloatParser) returns (err: Option<DecodeError>)
      modifies this
      ensures DecodeObject(toks, parse).Ok? ==> err == None && members == DecodeObject(toks, parse).value
      ensures DecodeObject(toks, parse).Err? ==>
                err == Some(DecodeObject(toks, parse).error) && members == old(members)
      decreases |toks|, 0
    {
      if toks == [] {
        return Some(SyntaxError);
      }
      if toks[0] != BeginObject {
        return Some(FirstTokenError(toks[0], NotAnObject, parse));
      }
      var out: OrderedObject := [];
      var pos := 1;
      while More(toks, pos)
        invariant 1 <= pos <= |toks|
        invariant DecodeMembers(toks, pos, out, parse) == DecodeObject(toks, parse)
        invariant members == old(members)
        decreases |toks| - pos
      {
        // the name, after the separating comma once a member has been read
        var k := pos;
        if out != [] {
          if toks[pos] != Comma {
            return Some(SyntaxError);
          }
          k := pos + 1;
        }
        if k >= |toks| || !toks[k].Str? {
          return Some(SyntaxError);
        }
        var key := toks[k].s;
        // the raw value after the colon
        if k + 1 >= |toks| || toks[k + 1] != Colon {
          return Some(SyntaxError);
        }
        var end := ScanValue(toks, k + 2);
        if end.None? {
          return Some(SyntaxError);
        }
        var j := end.value;
        var val := DetermineValueType(toks[k + 2..j], parse);
        if val.Err? {
          return Some(val.error);
        }
        out := out + [Member(key, val.value)];
        pos := j;
      }
      // the closing `}`
      if pos < |toks| && toks[pos] == EndObject {
        members := out;
        return None;
      }
      return Some(SyntaxError);
    }

    /**
     * MarshalJSON: `{`, then for each member in order a `,` unless it is the
     * first, the quoted name, `:` and json.Marshal of the value, then `}`.
     * The error it returns is always nil and is left out.
     */
    method MarshalJSON(format: FloatFormatter) returns (data: Bytes)
      ensures data == Marshal(members, format)
    {
      var o := members;
      MarshalEnds(o, format);
      var buf: Bytes := [0x7B];
      var i := 0;
      while i < |o|
        invariant 0 <= i <= |o|
        invariant buf == Text([BeginObject] + MembersBefore(o, i, format))
      {
        MarshalStep(o, i, format, buf);
        ghost var before := buf;
        if i > 0 {
          buf := buf + [0x2C];
        } else {
          assert buf == before + [];
        }
        buf := buf + Quote(o[i].key);
        buf := buf + [0x3A];
        buf := buf + Text(ValueTokens(o[i].value, format));
        i := i + 1;
      }
      buf := buf + [0x7D];
      return buf;
    }
  }

  /**
   * determineValueType: exactly `null` is nil; a raw value opening with `{`
   * is decoded into a new OrderedObject, one opening with `[` by
   * unmarshalArray; anything else goes through the int64, float64, bool and
   * string attempts.
   */
  method DetermineValueType(raw: seq<Token>, parse: FloatParser) returns (r: Result<Value>)
    ensures r == Classify(raw, parse)
    decreases |raw|, 1
  {
    if raw == [Null] {
      return Ok(Nil);
    }
    if raw != [] && raw[0] == BeginObject {
      var nested := new OrderedObjectVar([]);
      var err := nested.UnmarshalJSON(raw, parse);
      if err.Some? {
        return Err(err.value);
      }
      return Ok(Object(nested.members));
    }
    if raw != [] && raw[0] == BeginArray {
      var arr := UnmarshalArray(raw, parse);
      if arr.Err? {
        return Err(arr.error);
      }
      return Ok(Array(arr.value));
    }
    return Cascade(raw, parse);
  }

  /**
   * unmarshalArray: reads `[`, then one raw value per element for as long as
   * the Decoder reports more (a nested object into a new OrderedObject, a
   * nested array recursively, anything else into `any`), then `]`.
   */
  method UnmarshalArray(raw: seq<Token>, parse: FloatParser) returns (r: Result<seq<Value>>)
    ensures r == DecodeArray(raw, parse)
    decreases |raw|, 0
  {
    if raw == [] {
      return Err(SyntaxError);
    }
    if raw[0] != BeginArray {
      return Err(FirstTokenError(raw[0], NotAnArray, parse));
    }
    var arr: seq<Value> := [];
    var pos := 1;
    while More(raw, pos)
      invariant 1 <= pos <= |raw|
      invariant DecodeElements(raw, pos, arr, parse) == DecodeArray(raw, parse)
      decreases |raw| - pos
    {
      var k := pos;
      if arr != [] {
        if raw[pos] != Comma {
          return Err(SyntaxError);
        }
        k := pos + 1;
      }
      var end := ScanValue(raw, k);
      if end.None? {
        return Err(SyntaxError);
      }
      var j := end.value;
      var elem := raw[k..j];
      var v: Result<Value>;
      if elem != [] && elem[0] == BeginObject {
        var nested := new OrderedObjectVar([]);
        var err := nested.UnmarshalJSON(elem, parse);
        v := if err.Some? then Err(err.value) else Ok(Object(nested.members));
      } else if elem != [] && elem[0] == BeginArray {
        var inner := UnmarshalArray(elem, parse);
        v := if inner.Err? then Err(inner.error) else Ok(Array(inner.value));
      } else {
        v := Generic(elem, parse);
      }
      if v.Err? {
        return Err(v.error);
      }
      arr := arr + [v.value];
      pos := j;
    }
    if pos < |raw| && raw[pos] == EndArray {
      return Ok(arr);
    }
    return Err(SyntaxError);
  }
}
