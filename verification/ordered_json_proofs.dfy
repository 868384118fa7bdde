/**
 * What decoding does with what encoding writes (utils/serialize.go): member
 * order and duplicate names survive, nested objects and arrays recurse, and
 * numbers inside arrays come back as float64.
 */
module OrderedJsonProofs {

  import opened Prelude
  import opened JsonTokens
  import opened OrderedJson

  /** `toks` holds `x` starting at position `p`, token by token. */
  predicate HasAt(toks: seq<Token>, p: nat, x: seq<Token>)
    decreases |x|
  {
    if x == [] then p <= |toks| else p < |toks| && toks[p] == x[0] && HasAt(toks, p + 1, x[1..])
  }

  lemma {:induction false} HasAtSlice(toks: seq<Token>, p: nat, x: seq<Token>)
    requires HasAt(toks, p, x)
    ensures p + |x| <= |toks| && toks[p..p + |x|] == x
    decreases |x|
  {
    if x != [] {
      HasAtSlice(toks, p + 1, x[1..]);
      assert toks[p..p + |x|] == [toks[p]] + toks[p + 1..p + |x|];
    }
  }

  lemma {:induction false} SuffixAt(x: seq<Token>, p: nat)
    requires p <= |x|
    ensures HasAt(x, p, x[p..])
    decreases |x| - p
  {
    if p < |x| {
      SuffixAt(x, p + 1);
      assert x[p..][1..] == x[p + 1..];
    }
  }

  lemma {:induction false} HasAtSplit(toks: seq<Token>, p: nat, a: seq<Token>, b: seq<Token>)
    requires HasAt(toks, p, a + b)
    ensures HasAt(toks, p, a) && HasAt(toks, p + |a|, b)
    decreases |a|
  {
    if a == [] {
      assert a + b == b;
      HasAtSlice(toks, p, b);
    } else {
      assert (a + b)[1..] == a[1..] + b;
      HasAtSplit(toks, p + 1, a[1..], b);
    }
  }

  lemma {:induction false} HasAtJoin(toks: seq<Token>, p: nat, a: seq<Token>, b: seq<Token>)
    requires HasAt(toks, p, a) && HasAt(toks, p + |a|, b)
    ensures HasAt(toks, p, a + b)
    decreases |a|
  {
    if a == [] {
      assert a + b == b;
    } else {
      assert (a + b)[1..] == a[1..] + b;
      HasAtJoin(toks, p + 1, a[1..], b);
    }
  }

  lemma HasAtFirst(toks: seq<Token>, p: nat, x: seq<Token>)
    requires HasAt(toks, p, x) && x != []
    ensures p < |toks| && toks[p] == x[0]
  {
  }

  /** Two given tokens at `p`. */
  lemma PairAt(toks: seq<Token>, p: nat, a: Token, b: Token)
    requires HasAt(toks, p, [a, b])
    ensures p + 1 < |toks| && toks[p] == a && toks[p + 1] == b
  {
    assert [a, b][1..] == [b];
  }

  /** The tokens of member `k` and those after it, the separating comma first. */
  lemma MembersFromUnfold(ms: OrderedObject, k: nat, format: FloatFormatter)
    requires k < |ms|
    ensures k == 0 ==> MembersFrom(ms, k, format)
                       == [Str(ms[k].key), Colon] + ValueTokens(ms[k].value, format) + MembersFrom(ms, k + 1, format)
    ensures k > 0 ==> MembersFrom(ms, k, format)
                      == [Comma] + ([Str(ms[k].key), Colon] + ValueTokens(ms[k].value, format) + MembersFrom(ms, k + 1, format))
  {
  }

  /** A scalar is written as one token, an array between `[` and `]`, an object between `{` and `}`. */
  lemma ValueTokensShape(v: Value, format: FloatFormatter)
    ensures var ts := ValueTokens(v, format);
            (!v.Array? && !v.Object? ==> |ts| == 1) &&
            (v.Array? ==> |ts| >= 2 && ts[0] == BeginArray && ts[|ts| - 1] == EndArray) &&
            (v.Object? ==> |ts| >= 2 && ts[0] == BeginObject && ts[|ts| - 1] == EndObject)
  {
  }

  /** A written value never starts with a token that closes or separates. */
  lemma ValueTokensStart(v: Value, format: FloatFormatter)
    ensures ValueTokens(v, format)[0] !in {EndObject, EndArray, Comma, Colon}
  {
  }

  /*
   * Where the encoder puts things: each lemma takes one written piece apart.
   */

  /** `{ members }` at `i`. */
  lemma ObjectOpenAt(v: Value, toks: seq<Token>, i: nat, format: FloatFormatter)
    requires v.Object? && HasAt(toks, i, ValueTokens(v, format))
    ensures i < |toks| && toks[i] == BeginObject
    ensures HasAt(toks, i + 1, MembersFrom(v.members, 0, format) + [EndObject])
    ensures |ValueTokens(v, format)| == |MembersFrom(v.members, 0, format)| + 2
  {
    var body := MembersFrom(v.members, 0, format);
    assert ValueTokens(v, format) == [BeginObject] + body + [EndObject];
    HasAtSplit(toks, i, [BeginObject] + body, [EndObject]);
    HasAtSplit(toks, i, [BeginObject], body);
    HasAtFirst(toks, i, [BeginObject]);
    HasAtJoin(toks, i + 1, body, [EndObject]);
  }

  /** `[ elements ]` at `i`. */
  lemma ArrayOpenAt(v: Value, toks: seq<Token>, i: nat, format: FloatFormatter)
    requires v.Array? && HasAt(toks, i, ValueTokens(v, format))
    ensures i < |toks| && toks[i] == BeginArray
    ensures HasAt(toks, i + 1, ElementsFrom(v.elems, 0, format) + [EndArray])
    ensures |ValueTokens(v, format)| == |ElementsFrom(v.elems, 0, format)| + 2
  {
    var body := ElementsFrom(v.elems, 0, format);
    assert ValueTokens(v, format) == [BeginArray] + body + [EndArray];
    HasAtSplit(toks, i, [BeginArray] + body, [EndArray]);
    HasAtSplit(toks, i, [BeginArray], body);
    HasAtFirst(toks, i, [BeginArray]);
    HasAtJoin(toks, i + 1, body, [EndArray]);
  }

  /** Member `k`, with its separating comma, at `p`; its name is at `q`. */
  lemma MemberAt(toks: seq<Token>, p: nat, ms: OrderedObject, k: nat, q: nat, format: FloatFormatter)
    requires k < |ms| && HasAt(toks, p, MembersFrom(ms, k, format) + [EndObject])
    requires q == if k > 0 then p + 1 else p
    ensures k > 0 ==> p < |toks| && toks[p] == Comma
    ensures q + 1 < |toks| && toks[q] == Str(ms[k].key) && toks[q + 1] == Colon
    ensures HasAt(toks, q + 2, ValueTokens(ms[k].value, format))
    ensures HasAt(toks, q + 2 + |ValueTokens(ms[k].value, format)|, MembersFrom(ms, k + 1, format) + [EndObject])
    ensures |MembersFrom(ms, k, format)| == q - p + 2 + |ValueTokens(ms[k].value, format)| + |MembersFrom(ms, k + 1, format)|
  {
    var sep: seq<Token> := if k > 0 then [Comma] else [];
    var name := [Str(ms[k].key), Colon];
    var vt := ValueTokens(ms[k].value, format);
    var chunk := MemberChunk(ms, k, format);
    var next := MembersFrom(ms, k + 1, format);
    assert chunk == sep + name + vt;
    assert MembersFrom(ms, k, format) == chunk + next;
    HasAtSplit(toks, p, chunk + next, [EndObject]);
    HasAtSplit(toks, p, chunk, next);
    HasAtSplit(toks, p, sep + name, vt);
    HasAtSplit(toks, p, sep, name);
    if k > 0 {
      HasAtFirst(toks, p, sep);
    }
    PairAt(toks, q, Str(ms[k].key), Colon);
    HasAtJoin(toks, q + 2 + |vt|, next, [EndObject]);
  }

  /** After the last member comes `}`. */
  lemma MembersEndAt(toks: seq<Token>, p: nat, ms: OrderedObject, format: FloatFormatter)
    requires HasAt(toks, p, MembersFrom(ms, |ms|, format) + [EndObject])
    ensures p < |toks| && toks[p] == EndObject && MembersFrom(ms, |ms|, format) == []
  {
    HasAtFirst(toks, p, [EndObject]);
  }

  /** Element `k`, with its separating comma, at `p`; the value itself is at `q`. */
  lemma ElementAt(toks: seq<Token>, p: nat, es: seq<Value>, k: nat, q: nat, format: FloatFormatter)
    requires k < |es| && HasAt(toks, p, ElementsFrom(es, k, format) + [EndArray])
    requires q == if k > 0 then p + 1 else p
    ensures k > 0 ==> p < |toks| && toks[p] == Comma
    ensures q < |toks| && toks[q] != EndArray && toks[q] != EndObject
    ensures HasAt(toks, q, ValueTokens(es[k], format))
    ensures HasAt(toks, q + |ValueTokens(es[k], format)|, ElementsFrom(es, k + 1, format) + [EndArray])
    ensures |ElementsFrom(es, k, format)| == q - p + |ValueTokens(es[k], format)| + |ElementsFrom(es, k + 1, format)|
  {
    var sep: seq<Token> := if k > 0 then [Comma] else [];
    var vt := ValueTokens(es[k], format);
    var next := ElementsFrom(es, k + 1, format);
    assert ElementsFrom(es, k, format) == sep + vt + next;
    HasAtSplit(toks, p, sep + vt + next, [EndArray]);
    HasAtSplit(toks, p, sep + vt, next);
    HasAtSplit(toks, p, sep, vt);
    if k > 0 {
      HasAtFirst(toks, p, sep);
    }
    HasAtFirst(toks, q, vt);
    ValueTokensStart(es[k], format);
    HasAtJoin(toks, q + |vt|, next, [EndArray]);
  }

  /** After the last element comes `]`. */
  lemma ElementsEndAt(toks: seq<Token>, p: nat, es: seq<Value>, format: FloatFormatter)
    requires HasAt(toks, p, ElementsFrom(es, |es|, format) + [EndArray])
    ensures p < |toks| && toks[p] == EndArray && ElementsFrom(es, |es|, format) == []
  {
    HasAtFirst(toks, p, [EndArray]);
  }

  /*
   * Single steps of the scanner and of the decoding loops.
   */

  /** ScanValue at `{` or `[`: an empty container, or the scan of its members or elements. */
  lemma ScanValueOpen(toks: seq<Token>, i: nat)
    requires i + 1 < |toks|
    ensures toks[i] == BeginObject && toks[i + 1] == EndObject ==> ScanValue(toks, i) == Some(i + 2)
    ensures toks[i] == BeginObject && toks[i + 1] != EndObject ==> ScanValue(toks, i) == ScanMembers(toks, i + 1)
    ensures toks[i] == BeginArray && toks[i + 1] == EndArray ==> ScanValue(toks, i) == Some(i + 2)
    ensures toks[i] == BeginArray && toks[i + 1] != EndArray ==> ScanValue(toks, i) == ScanElements(toks, i + 1)
  {
  }

  /** ScanMembers past one member followed by `,` or `}`. */
  lemma ScanMembersStep(toks: seq<Token>, p: nat, j: nat)
    requires p + 1 < |toks| && toks[p].Str? && toks[p + 1] == Colon
    requires ScanValue(toks, p + 2) == Some(j) && j < |toks|
    ensures toks[j] == Comma ==> ScanMembers(toks, p) == ScanMembers(toks, j + 1)
    ensures toks[j] == EndObject ==> ScanMembers(toks, p) == Some(j + 1)
  {
  }

  /** ScanElements past one element followed by `,` or `]`. */
  lemma ScanElementsStep(toks: seq<Token>, p: nat, j: nat)
    requires ScanValue(toks, p) == Some(j) && j < |toks|
    ensures toks[j] == Comma ==> ScanElements(toks, p) == ScanElements(toks, j + 1)
    ensures toks[j] == EndArray ==> ScanElements(toks, p) == Some(j + 1)
  {
  }

  /** One iteration of the UnmarshalJSON loop: `,` (after the first), name, `:` and a value that classifies. */
  lemma DecodeMembersStep(toks: seq<Token>, pos: nat, acc: OrderedObject, parse: FloatParser, q: nat, j: nat, m: Member)
    requires 1 <= pos <= |toks|
    requires q == if acc == [] then pos else pos + 1
    requires acc != [] ==> pos < |toks| && toks[pos] == Comma
    requires q + 1 < |toks| && toks[q] == Str(m.key) && toks[q + 1] == Colon
    requires ScanValue(toks, q + 2) == Some(j)
    requires Classify(toks[q + 2..j], parse) == Ok(m.value)
    ensures DecodeMembers(toks, pos, acc, parse) == DecodeMembers(toks, j, acc + [m], parse)
  {
    assert More(toks, pos);
    assert !(acc != [] && toks[pos] != Comma);
    assert q < |toks| && toks[q].Str? && Member(toks[q].s, m.value) == m;
    assert q + 1 < |toks| && toks[q + 1] == Colon;
    assert ScanValue(toks, q + 2) == Some(j) && Classify(toks[q + 2..j], parse) == Ok(m.value);
  }

  /** The UnmarshalJSON loop stops at `}` with what it has decoded. */
  lemma DecodeMembersEnd(toks: seq<Token>, pos: nat, acc: OrderedObject, parse: FloatParser)
    requires 1 <= pos < |toks| && toks[pos] == EndObject
    ensures DecodeMembers(toks, pos, acc, parse) == Ok(acc)
  {
  }

  /** One iteration of the unmarshalArray loop: `,` (after the first) and a value that decodes. */
  lemma DecodeElementsStep(toks: seq<Token>, pos: nat, acc: seq<Value>, parse: FloatParser, q: nat, j: nat, e: Value)
    requires 1 <= pos <= |toks|
    requires q == if acc == [] then pos else pos + 1
    requires acc != [] ==> pos < |toks| && toks[pos] == Comma
    requires q < |toks| && toks[q] != EndObject && toks[q] != EndArray
    requires ScanValue(toks, q) == Some(j)
    requires Element(toks[q..j], parse) == Ok(e)
    ensures DecodeElements(toks, pos, acc, parse) == DecodeElements(toks, j, acc + [e], parse)
  {
  }

  /** The unmarshalArray loop stops at `]` with what it has decoded. */
  lemma DecodeElementsEnd(toks: seq<Token>, pos: nat, acc: seq<Value>, parse: FloatParser)
    requires 1 <= pos < |toks| && toks[pos] == EndArray
    ensures DecodeElements(toks, pos, acc, parse) == Ok(acc)
  {
  }

  /** Growing a prefix by one element. */
  lemma PrefixStep<T>(s: seq<T>, k: nat)
    requires k < |s|
    ensures s[..k] + [s[k]] == s[..k + 1]
    ensures s[..k] == [] <==> k == 0
  {
  }

  /** A value with no float64 in it and every integer within int64: its tokens scan and parse back. */
  predicate Encodable(v: Value)
  {
    match v
    case Float(_) => false
    case Int(i) => MinInt64 <= i <= MaxInt64
    case Array(es) => forall e | e in es :: Encodable(e)
    case Object(ms) => forall m | m in ms :: Encodable(m.value)
    case _ => true
  }

  /**
   * A value that decodes back to itself as an object member: no float64, every
   * integer within int64, and no number inside an array (array elements go
   * through the generic decoding).
   */
  predicate MemberSafe(v: Value)
  {
    match v
    case Float(_) => false
    case Int(i) => MinInt64 <= i <= MaxInt64
    case Array(es) => forall e | e in es :: ElementSafe(e)
    case Object(ms) => forall m | m in ms :: MemberSafe(m.value)
    case _ => true
  }

  /** A value that decodes back to itself as an array element: no number in it at array level. */
  predicate ElementSafe(v: Value)
  {
    match v
    case Float(_) => false
    case Int(_) => false
    case Array(es) => forall e | e in es :: ElementSafe(e)
    case Object(ms) => forall m | m in ms :: MemberSafe(m.value)
    case _ => true
  }

  lemma {:induction false} SafeIsEncodable(v: Value)
    ensures MemberSafe(v) ==> Encodable(v)
    ensures ElementSafe(v) ==> Encodable(v)
  {
    match v
    case Array(es) =>
      forall e | e in es ensures (ElementSafe(e) ==> Encodable(e)) { SafeIsEncodable(e); }
    case Object(ms) =>
      forall m | m in ms ensures (MemberSafe(m.value) ==> Encodable(m.value)) { SafeIsEncodable(m.value); }
    case _ =>
  }

  /*
   * Scanning what the encoder writes.
   */

  /** The tokens of an encodable value are exactly one complete value. */
  lemma {:induction false} ScanValueOf(v: Value, toks: seq<Token>, i: nat, format: FloatFormatter)
    requires Encodable(v)
    requires HasAt(toks, i, ValueTokens(v, format))
    ensures ScanValue(toks, i) == Some(i + |ValueTokens(v, format)|)
    decreases v, 3
  {
    if v.Array? {
      ScanArrayOf(v, toks, i, format);
    } else if v.Object? {
      ScanObjectOf(v, toks, i, format);
    } else {
      HasAtFirst(toks, i, ValueTokens(v, format));
      ScanScalarOf(v, toks, i, format);
    }
  }

  /** A written scalar is one token, which the scanner takes as a complete value. */
  lemma ScanScalarOf(v: Value, toks: seq<Token>, i: nat, format: FloatFormatter)
    requires Encodable(v) && !v.Array? && !v.Object?
    requires i < |toks| && toks[i] == ValueTokens(v, format)[0]
    ensures |ValueTokens(v, format)| == 1 && ScanValue(toks, i) == Some(i + 1)
  {
    match v
    case Int(n) =>
      DecimalRoundTrip(n);
      assert toks[i] == Number(Decimal(n));
    case String(t) =>
      assert toks[i] == Str(t);
    case _ =>
  }

  lemma {:induction false} ScanArrayOf(v: Value, toks: seq<Token>, i: nat, format: FloatFormatter)
    requires v.Array? && Encodable(v)
    requires HasAt(toks, i, ValueTokens(v, format))
    ensures ScanValue(toks, i) == Some(i + |ValueTokens(v, format)|)
    decreases v, 2
  {
    ArrayOpenAt(v, toks, i, format);
    if v.elems == [] {
      ElementsEndAt(toks, i + 1, v.elems, format);
    } else {
      ElementAt(toks, i + 1, v.elems, 0, i + 1, format);
      ScanElementsOf(v, 0, toks, i + 1, format);
    }
    ScanValueOpen(toks, i);
  }

  lemma {:induction false} ScanObjectOf(v: Value, toks: seq<Token>, i: nat, format: FloatFormatter)
    requires v.Object? && Encodable(v)
    requires HasAt(toks, i, ValueTokens(v, format))
    ensures ScanValue(toks, i) == Some(i + |ValueTokens(v, format)|)
    decreases v, 2
  {
    ObjectOpenAt(v, toks, i, format);
    if v.members == [] {
      MembersEndAt(toks, i + 1, v.members, format);
    } else {
      MemberAt(toks, i + 1, v.members, 0, i + 1, format);
      ScanMembersOf(v, 0, toks, i + 1, format);
    }
    ScanValueOpen(toks, i);
  }

  /** The members of an object from member `k` on, and the closing `}`, scan as one piece. */
  lemma {:induction false} ScanMembersOf(o: Value, k: nat, toks: seq<Token>, p: nat, format: FloatFormatter)
    requires o.Object? && Encodable(o) && k < |o.members|
    requires HasAt(toks, p, MembersFrom(o.members, k, format) + [EndObject])
    ensures k > 0 ==> p < |toks| && toks[p] == Comma
    ensures ScanMembers(toks, if k > 0 then p + 1 else p) == Some(p + |MembersFrom(o.members, k, format)| + 1)
    decreases o, 1, |o.members| - k
  {
    var ms := o.members;
    var q := if k > 0 then p + 1 else p;
    MemberAt(toks, p, ms, k, q, format);
    assert ms[k] in ms;
    ScanValueOf(ms[k].value, toks, q + 2, format);
    var j := q + 2 + |ValueTokens(ms[k].value, format)|;
    if k + 1 == |ms| {
      MembersEndAt(toks, j, ms, format);
    } else {
      ScanMembersOf(o, k + 1, toks, j, format);
    }
    ScanMembersStep(toks, q, j);
  }

  /** The elements of an array from element `k` on, and the closing `]`, scan as one piece. */
  lemma {:induction false} ScanElementsOf(a: Value, k: nat, toks: seq<Token>, p: nat, format: FloatFormatter)
    requires a.Array? && Encodable(a) && k < |a.elems|
    requires HasAt(toks, p, ElementsFrom(a.elems, k, format) + [EndArray])
    ensures k > 0 ==> p < |toks| && toks[p] == Comma
    ensures ScanElements(toks, if k > 0 then p + 1 else p) == Some(p + |ElementsFrom(a.elems, k, format)| + 1)
    decreases a, 1, |a.elems| - k
  {
    var es := a.elems;
    var q := if k > 0 then p + 1 else p;
    ElementAt(toks, p, es, k, q, format);
    assert es[k] in es;
    ScanValueOf(es[k], toks, q, format);
    var j := q + |ValueTokens(es[k], format)|;
    if k + 1 == |es| {
      ElementsEndAt(toks, j, es, format);
    } else {
      ScanElementsOf(a, k + 1, toks, j, format);
    }
    ScanElementsStep(toks, q, j);
  }

  /*
   * Decoding what the encoder writes.
   */

  /** A sequence holds itself at position 0. */
  lemma WholeAt(x: seq<Token>)
    ensures HasAt(x, 0, x)
  {
    SuffixAt(x, 0);
    assert x[0..] == x;
  }

  /** The tokens of a member-safe object, decoded by UnmarshalJSON, are its members. */
  lemma {:induction false} DecodeObjectOf(v: Value, toks: seq<Token>, parse: FloatParser, format: FloatFormatter)
    requires v.Object? && MemberSafe(v)
    requires HasAt(toks, 0, ValueTokens(v, format))
    ensures DecodeObject(toks, parse) == Ok(v.members)
    decreases v, 3
  {
    ObjectOpenAt(v, toks, 0, format);
    DecodeMembersOf(v, 0, toks, 1, parse, format);
    assert v.members[..0] == [];
  }

  /** The tokens of an array of element-safe values, decoded by unmarshalArray, are its elements. */
  lemma {:induction false} DecodeArrayOf(v: Value, toks: seq<Token>, parse: FloatParser, format: FloatFormatter)
    requires v.Array? && forall e | e in v.elems :: ElementSafe(e)
    requires HasAt(toks, 0, ValueTokens(v, format))
    ensures DecodeArray(toks, parse) == Ok(v.elems)
    decreases v, 3
  {
    ArrayOpenAt(v, toks, 0, format);
    DecodeElementsOf(v, 0, toks, 1, parse, format);
    assert v.elems[..0] == [];
  }

  /** A member-safe value, written and classified as an object member, is itself again. */
  lemma {:induction false} ClassifyOf(v: Value, parse: FloatParser, format: FloatFormatter)
    requires MemberSafe(v)
    ensures Classify(ValueTokens(v, format), parse) == Ok(v)
    decreases v, 4
  {
    var ts := ValueTokens(v, format);
    if v.Object? {
      WholeAt(ts);
      DecodeObjectOf(v, ts, parse, format);
    } else if v.Array? {
      WholeAt(ts);
      DecodeArrayOf(v, ts, parse, format);
    } else if v.Int? {
      DecimalRoundTrip(v.i);
    }
  }

  /** An element-safe value, written and decoded as an array element, is itself again. */
  lemma {:induction false} ElementOf(v: Value, parse: FloatParser, format: FloatFormatter)
    requires ElementSafe(v)
    ensures Element(ValueTokens(v, format), parse) == Ok(v)
    decreases v, 4
  {
    var ts := ValueTokens(v, format);
    if v.Object? {
      WholeAt(ts);
      DecodeObjectOf(v, ts, parse, format);
    } else if v.Array? {
      WholeAt(ts);
      DecodeArrayOf(v, ts, parse, format);
    }
  }

  /** A written member-safe value at `i` scans to its end, and what it spans classifies back to it. */
  lemma {:induction false} MemberValueOf(v: Value, toks: seq<Token>, i: nat, parse: FloatParser, format: FloatFormatter)
    requires MemberSafe(v) && HasAt(toks, i, ValueTokens(v, format))
    ensures ScanValue(toks, i) == Some(i + |ValueTokens(v, format)|)
    ensures i + |ValueTokens(v, format)| <= |toks|
    ensures Classify(toks[i..i + |ValueTokens(v, format)|], parse) == Ok(v)
    decreases v, 5
  {
    var w := ValueTokens(v, format);
    SafeIsEncodable(v);
    ScanValueOf(v, toks, i, format);
    HasAtSlice(toks, i, w);
    ClassifyOf(v, parse, format);
    assert toks[i..i + |w|] == w;
  }

  /** A written element-safe value at `i` scans to its end, and what it spans decodes back to it. */
  lemma {:induction false} ElementValueOf(v: Value, toks: seq<Token>, i: nat, parse: FloatParser, format: FloatFormatter)
    requires ElementSafe(v) && HasAt(toks, i, ValueTokens(v, format))
    ensures ScanValue(toks, i) == Some(i + |ValueTokens(v, format)|)
    ensures i + |ValueTokens(v, format)| <= |toks|
    ensures Element(toks[i..i + |ValueTokens(v, format)|], parse) == Ok(v)
    decreases v, 5
  {
    var w := ValueTokens(v, format);
    SafeIsEncodable(v);
    ScanValueOf(v, toks, i, format);
    HasAtSlice(toks, i, w);
    ElementOf(v, parse, format);
    assert toks[i..i + |w|] == w;
  }

  /** One pass of the UnmarshalJSON loop over a written member: it decodes member `k` and moves past it. */
  lemma {:induction false} DecodeMemberOf(o: Value, k: nat, toks: seq<Token>, p: nat, j: nat,
                                         parse: FloatParser, format: FloatFormatter)
    requires o.Object? && MemberSafe(o) && k < |o.members| && 1 <= p
    requires HasAt(toks, p, MembersFrom(o.members, k, format) + [EndObject])
    requires j == p + (if k > 0 then 1 else 0) + 2 + |ValueTokens(o.members[k].value, format)|
    ensures j < |toks| && HasAt(toks, j, MembersFrom(o.members, k + 1, format) + [EndObject])
    ensures DecodeMembers(toks, p, o.members[..k], parse) == DecodeMembers(toks, j, o.members[..k + 1], parse)
    decreases o, 2, |o.members| - k, 0
  {
    var ms := o.members;
    var m := ms[k];
    assert m in ms;
    var q := if k > 0 then p + 1 else p;
    MemberAt(toks, p, ms, k, q, format);
    MemberValueOf(m.value, toks, q + 2, parse, format);
    PrefixStep(ms, k);
    DecodeMembersStep(toks, p, ms[..k], parse, q, j, m);
  }

  /**
   * The UnmarshalJSON loop over written members: from member `k` on, with the
   * first `k` already decoded, it decodes every member, in order, and stops at `}`.
   */
  lemma {:induction false} DecodeMembersOf(o: Value, k: nat, toks: seq<Token>, p: nat,
                                          parse: FloatParser, format: FloatFormatter)
    requires o.Object? && MemberSafe(o) && k <= |o.members| && 1 <= p
    requires HasAt(toks, p, MembersFrom(o.members, k, format) + [EndObject])
    ensures DecodeMembers(toks, p, o.members[..k], parse) == Ok(o.members)
    decreases o, 2, |o.members| - k, 1
  {
    var ms := o.members;
    if k == |ms| {
      MembersEndAt(toks, p, ms, format);
      DecodeMembersEnd(toks, p, ms[..k], parse);
      assert ms[..k] == ms;
    } else {
      var j := p + (if k > 0 then 1 else 0) + 2 + |ValueTokens(ms[k].value, format)|;
      DecodeMemberOf(o, k, toks, p, j, parse, format);
      DecodeMembersOf(o, k + 1, toks, j, parse, format);
    }
  }

  /** One pass of the unmarshalArray loop over a written element: it decodes element `k` and moves past it. */
  lemma {:induction false} DecodeElementOf(a: Value, k: nat, toks: seq<Token>, p: nat, j: nat,
                                          parse: FloatParser, format: FloatFormatter)
    requires a.Array? && (forall e | e in a.elems :: ElementSafe(e)) && k < |a.elems| && 1 <= p
    requires HasAt(toks, p, ElementsFrom(a.elems, k, format) + [EndArray])
    requires j == p + (if k > 0 then 1 else 0) + |ValueTokens(a.elems[k], format)|
    ensures j < |toks| && HasAt(toks, j, ElementsFrom(a.elems, k + 1, format) + [EndArray])
    ensures DecodeElements(toks, p, a.elems[..k], parse) == DecodeElements(toks, j, a.elems[..k + 1], parse)
    decreases a, 2, |a.elems| - k, 0
  {
    var es := a.elems;
    var e := es[k];
    assert e in es;
    var q := if k > 0 then p + 1 else p;
    ElementAt(toks, p, es, k, q, format);
    ElementValueOf(e, toks, q, parse, format);
    PrefixStep(es, k);
    DecodeElementsStep(toks, p, es[..k], parse, q, j, e);
  }

  /**
   * The unmarshalArray loop over written elements: from element `k` on, with
   * the first `k` already decoded, it decodes every element, in order, and stops at `]`.
   */
  lemma {:induction false} DecodeElementsOf(a: Value, k: nat, toks: seq<Token>, p: nat,
                                           parse: FloatParser, format: FloatFormatter)
    requires a.Array? && (forall e | e in a.elems :: ElementSafe(e)) && k <= |a.elems| && 1 <= p
    requires HasAt(toks, p, ElementsFrom(a.elems, k, format) + [EndArray])
    ensures DecodeElements(toks, p, a.elems[..k], parse) == Ok(a.elems)
    decreases a, 2, |a.elems| - k, 1
  {
    var es := a.elems;
    if k == |es| {
      ElementsEndAt(toks, p, es, format);
      DecodeElementsEnd(toks, p, es[..k], parse);
      assert es[..k] == es;
    } else {
      var j := p + (if k > 0 then 1 else 0) + |ValueTokens(es[k], format)|;
      DecodeElementOf(a, k, toks, p, j, parse, format);
      DecodeElementsOf(a, k + 1, toks, j, parse, format);
    }
  }

  /**
   * Decoding what MarshalJSON writes gives back the same members in the same
   * order, duplicate names included, whatever tokens follow the closing `}`,
   * for objects with no float64, int64 integers, and no numbers inside arrays.
   */
  lemma RoundTrip(o: OrderedObject, rest: seq<Token>, parse: FloatParser, format: FloatFormatter)
    requires forall m | m in o :: MemberSafe(m.value)
    ensures DecodeObject(ObjectTokens(o, format) + rest, parse) == Ok(o)
  {
    var v := Object(o);
    var ts := ObjectTokens(o, format);
    var toks := ts + rest;
    WholeAt(toks);
    HasAtSplit(toks, 0, ts, rest);
    assert MemberSafe(v);
    DecodeObjectOf(v, toks, parse, format);
  }

  /*
   * Consequences and the cases of utils/serialize_test.go.
   */

  /** Two members named "a": both are kept, in order, and Get finds the first. */
  lemma DuplicateNamesKept(parse: FloatParser, format: FloatFormatter)
    ensures var a := Ascii("a");
            var o := [Member(a, Int(1)), Member(a, Int(2))];
            DecodeObject(ObjectTokens(o, format), parse) == Ok(o) && Get(o, a) == Some(Int(1))
  {
    var a := Ascii("a");
    var o := [Member(a, Int(1)), Member(a, Int(2))];
    assert forall m | m in o :: MemberSafe(m.value);
    RoundTrip(o, [], parse, format);
    assert ObjectTokens(o, format) + [] == ObjectTokens(o, format);
  }

  /** The object of the integer-in-array case, {"a":[1]}. */
  function IntInArrayExample(): OrderedObject
  {
    [Member(Ascii("a"), Array([Int(1)]))]
  }

  lemma IntInArrayTokens(format: FloatFormatter)
    ensures ObjectTokens(IntInArrayExample(), format)
            == [BeginObject, Str(Ascii("a")), Colon, BeginArray, Number(Decimal(1)), EndArray, EndObject]
  {
    var o := IntInArrayExample();
    assert ValueTokens(Array([Int(1)]), format) == [BeginArray, Number(Decimal(1)), EndArray];
    MembersFromUnfold(o, 0, format);
  }

  /** In the tokens of {"a":[1]}, the value of "a" is the array of the three tokens from 3 to 6. */
  lemma IntInArrayScan(ts: seq<Token>)
    requires ts == [BeginObject, Str(Ascii("a")), Colon, BeginArray, Number(Decimal(1)), EndArray, EndObject]
    ensures ScanValue(ts, 3) == Some(6)
    ensures ts[3..6] == [BeginArray, Number(Decimal(1)), EndArray]
  {
    DecimalRoundTrip(1);
    ScanValueOpen(ts, 3);
    ScanElementsStep(ts, 4, 5);
  }

  /** When the float parser accepts "1", the array [1] classifies as one float64 element. */
  lemma IntInArrayElements(parse: FloatParser, f: bv64)
    requires parse(Decimal(1)) == Some(f)
    ensures Classify([BeginArray, Number(Decimal(1)), EndArray], parse) == Ok(Array([Float(f)]))
  {
    var raw := [BeginArray, Number(Decimal(1)), EndArray];
    DecimalRoundTrip(1);
    assert raw[1..2] == [Number(Decimal(1))];
    DecodeElementsStep(raw, 1, [], parse, 1, 2, Float(f));
    DecodeElementsEnd(raw, 2, [Float(f)], parse);
  }

  /** When the float parser accepts "1", the element of {"a":[1]} is that float64. */
  lemma IntInArrayDecodesFloat(parse: FloatParser, f: bv64)
    requires parse(Decimal(1)) == Some(f)
    ensures DecodeObject([BeginObject, Str(Ascii("a")), Colon, BeginArray, Number(Decimal(1)), EndArray, EndObject], parse)
            == Ok([Member(Ascii("a"), Array([Float(f)]))])
  {
    var a := Ascii("a");
    var ts := [BeginObject, Str(a), Colon, BeginArray, Number(Decimal(1)), EndArray, EndObject];
    IntInArrayScan(ts);
    IntInArrayElements(parse, f);
    var m := Member(a, Array([Float(f)]));
    DecodeMembersStep(ts, 1, [], parse, 1, 6, m);
    DecodeMembersEnd(ts, 6, [m], parse);
  }

  /** When the float parser rejects "1", decoding {"a":[1]} fails with json's type error for that number. */
  lemma IntInArrayFailsWithoutFloat(parse: FloatParser)
    requires parse(Decimal(1)).None?
    ensures DecodeObject([BeginObject, Str(Ascii("a")), Colon, BeginArray, Number(Decimal(1)), EndArray, EndObject], parse)
            == Err(NumberTypeError(Decimal(1)))
  {
    var one := Decimal(1);
    var ts := [BeginObject, Str(Ascii("a")), Colon, BeginArray, Number(one), EndArray, EndObject];
    IntInArrayScan(ts);
    DecimalRoundTrip(1);
    var raw := [BeginArray, Number(one), EndArray];
    assert raw[1..2] == [Number(one)];
    assert Element(raw[1..2], parse) == Err(NumberTypeError(one));
    assert DecodeElements(raw, 1, [], parse) == Err(NumberTypeError(one));
    assert Classify(raw, parse) == Err(NumberTypeError(one));
  }

  /** The tokens of {"a":[1]} decode to a float64 element when the float parser accepts "1", and fail otherwise. */
  lemma IntInArrayDecodes(parse: FloatParser)
    ensures var ts := [BeginObject, Str(Ascii("a")), Colon, BeginArray, Number(Decimal(1)), EndArray, EndObject];
            var r := DecodeObject(ts, parse);
            (parse(Decimal(1)).None? ==> r == Err(NumberTypeError(Decimal(1)))) &&
            (parse(Decimal(1)).Some? ==> r == Ok([Member(Ascii("a"), Array([Float(parse(Decimal(1)).value)]))]))
  {
    match parse(Decimal(1))
    case Some(f) => IntInArrayDecodesFloat(parse, f);
    case None => IntInArrayFailsWithoutFloat(parse);
  }

  /**
   * An integer inside an array does not come back as itself: `{"a":[1]}`
   * decodes to a float64 element, or fails when the float parser rejects "1".
   */
  lemma IntInArrayBecomesFloat(parse: FloatParser, format: FloatFormatter)
    ensures var o := IntInArrayExample();
            var r := DecodeObject(ObjectTokens(o, format), parse);
            r != Ok(o) &&
            (parse(Decimal(1)).Some? ==> r == Ok([Member(Ascii("a"), Array([Float(parse(Decimal(1)).value)]))]))
  {
    IntInArrayTokens(format);
    IntInArrayDecodes(parse);
  }

  /** 42 is a valid literal and an int64. */
  lemma Literal42()
    ensures ParseInt64(Ascii("42")) == Some(42) && ValidNumber(Ascii("42"))
  {
    var n42 := Ascii("42");
    var four: Bytes := [0x34];
    assert n42 == [0x34, 0x32] && n42[..1] == four && four[..0] == [];
    assert DigitsValue(four) == 4;
  }

  /** 5e-324 is a valid literal but not an int64. */
  lemma LiteralTiny()
    ensures ParseInt64(Ascii("5e-324")).None? && ValidNumber(Ascii("5e-324"))
  {
    var tiny := Ascii("5e-324");
    assert tiny == [0x35, 0x65, 0x2D, 0x33, 0x32, 0x34];
    assert SkipDigits(tiny, 1) == 1;
    assert SkipDigits(tiny, 3) == 6;
    FractionIsNotInt64(tiny, 1);
  }

  /** The classification test of utils/serialize_test.go: 42 as a member is an int64. */
  lemma ClassifyInt64Example(parse: FloatParser)
    ensures Classify([Number(Ascii("42"))], parse) == Ok(Int(42))
  {
    Literal42();
  }

  /**
   * An integer literal outside the int64 range, such as 9223372036854775808,
   * is not an int64: as a member value it goes on to the float64 attempt.
   */
  lemma BeyondInt64IsFloat(lit: Bytes, parse: FloatParser)
    requires IntLiteral(lit) && !(MinInt64 <= IntLiteralValue(lit) <= MaxInt64)
    requires parse(lit).Some?
    ensures Classify([Number(lit)], parse) == Ok(Float(parse(lit).value))
  {
  }

  /** 5e-324 as a member is a float64: the int64 attempt fails first. */
  lemma ClassifyFloat64Example(parse: FloatParser, f: bv64)
    requires parse(Ascii("5e-324")) == Some(f)
    ensures Classify([Number(Ascii("5e-324"))], parse) == Ok(Float(f))
  {
    LiteralTiny();
  }

  /** "hello" as a member is a string, true a bool, null nil. */
  lemma ClassifyOtherExamples(parse: FloatParser)
    ensures Classify([Str(Ascii("hello"))], parse) == Ok(String(Ascii("hello")))
    ensures Classify([True], parse) == Ok(Bool(true))
    ensures Classify([Null], parse) == Ok(Nil)
  {
  }

  /**
   * The members of the unmarshal test of utils/serialize_test.go as
   * determineValueType classifies them (see the Classify examples above),
   * `f` being the float64 the parser gives for 5e-324.
   */
  function UnmarshalTestObject(f: bv64): OrderedObject
  {
    [Member(Ascii("int64"), Int(42)),
     Member(Ascii("float64"), Float(f)),
     Member(Ascii("string"), String(Ascii("hello"))),
     Member(Ascii("bool"), Bool(true)),
     Member(Ascii("null"), Nil)]
  }

  /** Get finds member `i` when no member before it has its name. */
  lemma GetAt(o: OrderedObject, i: nat)
    requires i < |o| && forall j :: 0 <= j < i ==> o[j].key != o[i].key
    ensures Get(o, o[i].key) == Some(o[i].value)
  {
    var r := Get(o, o[i].key);
    var i' :| 0 <= i' < |o| && o[i'] == Member(o[i].key, r.value) && forall j :: 0 <= j < i' ==> o[j].key != o[i].key;
    assert !(i' < i) && !(i < i');
  }

  /** In an object whose five names are all different, Get finds each member by its name. */
  lemma GetDistinctFive(o: OrderedObject)
    requires |o| == 5
    requires forall i, j :: 0 <= i < j < 5 ==> o[i].key != o[j].key
    ensures forall i :: 0 <= i < 5 ==> Get(o, o[i].key) == Some(o[i].value)
  {
    forall i | 0 <= i < 5 ensures Get(o, o[i].key) == Some(o[i].value) {
      GetAt(o, i);
    }
  }

  /**
   * The lookups of the unmarshal test: the five names are all different, so
   * Get finds each one holding its own value (an int64, a float64, a string,
   * a bool and nil).
   */
  lemma UnmarshalTestLookups(f: bv64)
    ensures var o := UnmarshalTestObject(f);
            forall i :: 0 <= i < |o| ==> Get(o, o[i].key) == Some(o[i].value)
  {
    var o := UnmarshalTestObject(f);
    assert |o[0].key| == 5 && |o[1].key| == 7 && |o[2].key| == 6 && |o[3].key| == 4 && |o[4].key| == 4;
    assert o[3].key[0] != o[4].key[0];
    GetDistinctFive(o);
  }

  /** The same literals inside an array: 42 becomes a float64 too, when the float parser accepts it. */
  lemma ArrayElementClassification(parse: FloatParser, g: bv64)
    requires parse(Ascii("42")) == Some(g)
    ensures Element([Number(Ascii("42"))], parse) == Ok(Float(g))
    ensures Element([Str(Ascii("hello"))], parse) == Ok(String(Ascii("hello")))
    ensures Element([Null], parse) == Ok(Nil)
  {
  }

  /** The nested object of the member-order test, {"a":1}. */
  lemma NestedExampleTokens(format: FloatFormatter)
    ensures ValueTokens(Object([Member(Ascii("a"), Int(1))]), format)
            == [BeginObject, Str(Ascii("a")), Colon, Number(Ascii("1")), EndObject]
  {
    var inner := [Member(Ascii("a"), Int(1))];
    assert Decimal(1) == Ascii("1");
    MembersFromUnfold(inner, 0, format);
  }

  /** The object of the member-order test of utils/serialize_test.go. */
  function OrderExample(): OrderedObject
  {
    [Member(Ascii("1"), String(Ascii("v1"))),
     Member(Ascii("3"), String(Ascii("v3"))),
     Member(Ascii("2"), Object([Member(Ascii("a"), Int(1))])),
     Member(Ascii("4"), String(Ascii("v4")))]
  }

  /** A member whose value is a string, with its separating comma, in front of those after it. */
  lemma StringMemberChunk(o: OrderedObject, k: nat, key: Bytes, text: Bytes, format: FloatFormatter)
    requires k < |o| && o[k] == Member(key, String(text))
    ensures MembersFrom(o, k, format)
            == (if k > 0 then [Comma] else []) + [Str(key), Colon] + [Str(text)] + MembersFrom(o, k + 1, format)
  {
    assert ValueTokens(o[k].value, format) == [Str(text)];
  }

  lemma OrderExampleFirst(format: FloatFormatter)
    ensures MembersFrom(OrderExample(), 0, format)
            == [Str(Ascii("1")), Colon, Str(Ascii("v1"))] + MembersFrom(OrderExample(), 1, format)
  {
    var o := OrderExample();
    StringMemberChunk(o, 0, Ascii("1"), Ascii("v1"), format);
    assert [] + [Str(Ascii("1")), Colon] + [Str(Ascii("v1"))] == [Str(Ascii("1")), Colon, Str(Ascii("v1"))];
  }

  lemma OrderExampleSecond(format: FloatFormatter)
    ensures MembersFrom(OrderExample(), 1, format)
            == [Comma, Str(Ascii("3")), Colon, Str(Ascii("v3"))] + MembersFrom(OrderExample(), 2, format)
  {
    var o := OrderExample();
    StringMemberChunk(o, 1, Ascii("3"), Ascii("v3"), format);
    assert [Comma] + [Str(Ascii("3")), Colon] + [Str(Ascii("v3"))] == [Comma, Str(Ascii("3")), Colon, Str(Ascii("v3"))];
  }

  lemma OrderExampleThird(format: FloatFormatter)
    ensures MembersFrom(OrderExample(), 2, format)
            == [Comma, Str(Ascii("2")), Colon, BeginObject, Str(Ascii("a")), Colon, Number(Ascii("1")), EndObject]
               + MembersFrom(OrderExample(), 3, format)
  {
    var o := OrderExample();
    NestedExampleTokens(format);
    MembersFromUnfold(o, 2, format);
  }

  lemma OrderExampleLast(format: FloatFormatter)
    ensures MembersFrom(OrderExample(), 3, format) == [Comma, Str(Ascii("4")), Colon, Str(Ascii("v4"))]
  {
    var o := OrderExample();
    StringMemberChunk(o, 3, Ascii("4"), Ascii("v4"), format);
    assert [Comma] + [Str(Ascii("4")), Colon] + [Str(Ascii("v4"))] == [Comma, Str(Ascii("4")), Colon, Str(Ascii("v4"))];
    assert MembersFrom(o, 4, format) == [];
  }

  /** Putting the pieces of the member-order example together, `{` and `}` included. */
  lemma OrderExampleAssembly(m0: seq<Token>, m1: seq<Token>, m2: seq<Token>, m3: seq<Token>, all: seq<Token>)
    requires m3 == [Comma, Str(Ascii("4")), Colon, Str(Ascii("v4"))]
    requires m2 == [Comma, Str(Ascii("2")), Colon, BeginObject, Str(Ascii("a")), Colon, Number(Ascii("1")), EndObject] + m3
    requires m1 == [Comma, Str(Ascii("3")), Colon, Str(Ascii("v3"))] + m2
    requires m0 == [Str(Ascii("1")), Colon, Str(Ascii("v1"))] + m1
    requires all == [BeginObject] + m0 + [EndObject]
    ensures all == [BeginObject,
                    Str(Ascii("1")), Colon, Str(Ascii("v1")), Comma,
                    Str(Ascii("3")), Colon, Str(Ascii("v3")), Comma,
                    Str(Ascii("2")), Colon, BeginObject, Str(Ascii("a")), Colon, Number(Ascii("1")), EndObject, Comma,
                    Str(Ascii("4")), Colon, Str(Ascii("v4")),
                    EndObject]
  {
    assert [BeginObject] + m0
           == [BeginObject,
               Str(Ascii("1")), Colon, Str(Ascii("v1")), Comma,
               Str(Ascii("3")), Colon, Str(Ascii("v3")), Comma,
               Str(Ascii("2")), Colon, BeginObject, Str(Ascii("a")), Colon, Number(Ascii("1")), EndObject, Comma,
               Str(Ascii("4")), Colon, Str(Ascii("v4"))];
  }

  /**
   * The member-order test of utils/serialize_test.go: members "1", "3", a
   * nested object "2" holding {"a":1}, and "4" are written in exactly that
   * order: the tokens of `{"1":"v1","3":"v3","2":{"a":1},"4":"v4"}`.
   */
  lemma MarshalOrderExample(format: FloatFormatter)
    ensures ObjectTokens(OrderExample(), format)
            == [BeginObject,
                Str(Ascii("1")), Colon, Str(Ascii("v1")), Comma,
                Str(Ascii("3")), Colon, Str(Ascii("v3")), Comma,
                Str(Ascii("2")), Colon, BeginObject, Str(Ascii("a")), Colon, Number(Ascii("1")), EndObject, Comma,
                Str(Ascii("4")), Colon, Str(Ascii("v4")),
                EndObject]
  {
    var o := OrderExample();
    OrderExampleFirst(format);
    OrderExampleSecond(format);
    OrderExampleThird(format);
    OrderExampleLast(format);
    OrderExampleAssembly(MembersFrom(o, 0, format), MembersFrom(o, 1, format), MembersFrom(o, 2, format),
                         MembersFrom(o, 3, format), ObjectTokens(o, format));
  }

  /**
   * As written, an empty array does not survive a round trip: unmarshalArray
   * returns the nil slice for the tokens of `[]`, and a member `a` holding the
   * nil slice is written as the tokens of `{"a":null}`, not those of `{"a":[]}`.
   */
  lemma EmptyArrayBecomesNull(parse: FloatParser, format: FloatFormatter)
    ensures DecodeArray([BeginArray, EndArray], parse) == Ok([])
    ensures DecodeArrayAsWritten([BeginArray, EndArray], parse) == Ok(GoSlice([], true))
    ensures var written := [BeginObject, Str(Ascii("a")), Colon] + SliceTokens(GoSlice([], true), format) + [EndObject];
            written == [BeginObject, Str(Ascii("a")), Colon, Null, EndObject] &&
            written != ObjectTokens([Member(Ascii("a"), Array([]))], format)
  {
    var o := [Member(Ascii("a"), Array([]))];
    assert ValueTokens(Array([]), format) == [BeginArray, EndArray];
    MembersFromUnfold(o, 0, format);
    assert ObjectTokens(o, format)[3] == BeginArray;
  }

  /** With a non-nil empty slice, as the model decodes it, `{"a":[]}` comes back unchanged. */
  lemma EmptyArrayRoundTrip(parse: FloatParser, format: FloatFormatter)
    ensures var o := [Member(Ascii("a"), Array([]))];
            DecodeObject(ObjectTokens(o, format), parse) == Ok(o) &&
            ValueTokens(Array([]), format) == [BeginArray, EndArray]
  {
    var o := [Member(Ascii("a"), Array([]))];
    assert forall m | m in o :: MemberSafe(m.value);
    RoundTrip(o, [], parse, format);
    assert ObjectTokens(o, format) + [] == ObjectTokens(o, format);
  }

  /** A top-level array is not an object: decoding `[1,2]` fails with "expected JSON object start". */
  lemma TopLevelArrayRejected(parse: FloatParser)
    ensures DecodeObject([BeginArray, Number(Ascii("1")), Comma, Number(Ascii("2")), EndArray], parse)
            == Err(NotAnObject)
  {
  }

  /**
   * A top-level number no float64 holds, such as `1e400`, is read by the
   * first Decoder.Token() into `any` and fails there with json's type error,
   * not with "expected JSON object start".
   */
  lemma TopLevelHugeNumberRejected(lit: Bytes, rest: seq<Token>, parse: FloatParser)
    requires ValidNumber(lit) && parse(lit).None?
    ensures DecodeObject([Number(lit)] + rest, parse) == Err(NumberTypeError(lit))
  {
  }

  /** An array element no float64 holds fails the array with the same type error. */
  lemma HugeNumberInArrayRejected(lit: Bytes, parse: FloatParser)
    requires ValidNumber(lit) && parse(lit).None?
    ensures DecodeArray([BeginArray, Number(lit), EndArray], parse) == Err(NumberTypeError(lit))
  {
    var raw := [BeginArray, Number(lit), EndArray];
    assert More(raw, 1);
    assert ScanValue(raw, 1) == Some(2);
    assert raw[1..2] == [Number(lit)];
    assert Element(raw[1..2], parse) == Err(NumberTypeError(lit));
    assert DecodeElements(raw, 1, [], parse) == Err(NumberTypeError(lit));
  }

  /** A member without a value, `{"a":}`, fails: no complete value follows the colon. */
  lemma MissingValueRejected(parse: FloatParser)
    ensures DecodeObject([BeginObject, Str(Ascii("a")), Colon, EndObject], parse) == Err(SyntaxError)
  {
  }
}
