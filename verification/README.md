# Order-preserving JSON objects, DSNs and small utilities — a Dafny model

This project models three pieces of a Go service's utility code.

- **The OrderedObject codec** (`utils/serialize.go`). An `OrderedObject` is a sequence of name/value
  members that keeps insertion order and duplicate names. `Get` returns the first member with a name.
  `UnmarshalJSON` reads a JSON object member by member with encoding/json's Decoder.
  `determineValueType` classifies each raw value: exactly `null` is nil, a value opening with `{` is a
  nested OrderedObject, one opening with `[` goes through `unmarshalArray`, and anything else goes through
  the int64, float64, bool and string attempts, in that order. `firstNonWS` finds the byte the dispatch
  looks at. `MarshalJSON` writes the members back in order.
- **Data source names** (`database/dsn.go`). `ParseDSN` splits `driver://rest` at the first `://`, or
  returns `sqlite` and the DSN unchanged. `FormatDSN` joins a driver and a DSN with `://`.
- **Utilities** (`utils/utils.go`).
  - `TruncateString` cuts a string to a byte budget and adds `…(truncated)`.
  - `CappedWriter` forwards at most `Remain` bytes to the writer it wraps.
  - `RandomKey` maps random bytes onto `0-9a-z`.

The codec is specified by functions in `OrderedJson`, over the token stream that encoding/json's
Decoder reads (`JsonTokens`). The Go loops are methods in `OrderedJsonImpl`, and each is proved to
compute its function. The DSN functions are in `Dsn`. `Utils` has the truncation, the `CappedWriter`
class and the `RandomKey` method over an array. The properties that relate several operations are in
`OrderedJsonProofs`:

- decoding what MarshalJSON writes gives back the same members in the same order;
- the first-match lookup;
- the examples of the repository's tests;
- the two findings below.

Three behaviours of the code a reader may not expect:

- Array elements that are not objects or arrays are decoded by `json.Unmarshal` into `any`. A number
  inside an array therefore always becomes a float64, never an int64 (`utils/serialize.go:199-204`).
  This is not the member-level cascade. `OrderedJsonProofs.IntInArrayBecomesFloat` states the consequence.
- The `null` test compares the whole raw value with `null` (`utils/serialize.go:79`). It does not look
  at the first byte.
- `UnmarshalJSON` stops reading at the closing `}`. Tokens after it are not looked at when the method is
  called directly.

## Model

| member | source | states |
|---|---|---|
| Dsn.IndexFrom | database/dsn.go:17-18 | the index strings.Index finds: `sep` occurs there, nowhere between `from` and it, and None only when it occurs nowhere |
| Dsn.ParseDSN | database/dsn.go:15-23 | without `://` the result is (`sqlite`, dsn); with one, dsn is exactly driver + `://` + rest and the driver holds no `://` (the split is at the first one) |
| Dsn.FormatDSN | database/dsn.go:29-31 | the result is the driver, then `://`, then the DSN, with their lengths adding up |
| Dsn.FirstSeparatorAfterDriver | database/dsn.go:17-19 | in driver + `://` + dsn, for a driver without `://`, the first `://` is the one right after the driver, even when the driver ends in `:` or the DSN holds more `://` |
| Dsn.ParseFormatRoundTrip | database/dsn.go:15-31 | parsing a formatted DSN gives back the driver and the DSN, for every driver without `://` and every DSN |
| Dsn.FormatParseRoundTrip | database/dsn.go:15-31 | formatting what ParseDSN returns gives back any DSN that has a scheme |
| Dsn.BareDsnGetsSqliteScheme | database/dsn.go:21-22 | a DSN without a scheme parses to `sqlite` and itself and formats as `sqlite://` + dsn |
| Dsn.ParseFormatParseStable | database/dsn_test.go:102-145 | for every DSN, parse, format and parse again gives what the first parse gave |
| Dsn.InMemoryWithSchemeExample | database/dsn_test.go:27-30 | `sqlite://:memory:` parses to (`sqlite`, `:memory:`) and formats back |
| Dsn.ComplexWithSchemeExample | database/dsn_test.go:39-42 | `sqlite://file::memory:?cache=shared` parses to `sqlite` and the rest, colons included, and formats back |
| Dsn.BareExamples | database/dsn_test.go:32-48 | `:memory:` and `file::memory:?cache=shared` get the `sqlite` driver and stay unchanged |
| Utils.TruncateString | utils/utils.go:15-20 | a string within `max` bytes is returned as is; a longer one becomes exactly its first `max` bytes followed by `…(truncated)` |
| Utils.TruncateStringBound | utils/utils.go:15-20 | the result never exceeds `max` plus the suffix length, and only a string longer than `max` can grow |
| Utils.TruncateSplitsRune | utils/utils.go:17 | the cut counts bytes: truncating `é` to one byte keeps half of its UTF-8 encoding |
| Utils.Forwarded | utils/utils.go:36-38 | Write forwards nothing when the budget is spent, otherwise a prefix of `p` of length min(len(p), Remain) |
| Utils.ReturnedCountAsWritten | utils/utils.go:33-41 | as written, the count Write returns never exceeds len(p), and it is below len(p) exactly when a positive budget remains and p is longer than it; the count is then the budget |
| Utils.ShortCountWithoutError | utils/utils.go:36-41 | as written, writing `hello` with 3 bytes left reports 3, less than len(p), with a nil error |
| Utils.WriteAllKeepsPrefix | utils/utils.go:22-42 | over any sequence of writes from a non-negative budget, the wrapped writer receives exactly the first min(total, budget) bytes of all the data, and Remain drops by that much without going negative |
| Utils.CappedWriter.constructor | utils/utils.go:24-27 | a new writer has received nothing and holds the given budget |
| Utils.CappedWriter.Write | utils/utils.go:32-42 | the new state is one WriteStep: nothing changes once Remain <= 0, otherwise the first min(len(p), Remain) bytes are appended and Remain drops by their count; the count returned is len(p), the intended length |
| Utils.KeyChar | utils/utils.go:66-68 | each random byte becomes a character of `0123456789abcdefghijklmnopqrstuvwxyz` |
| Utils.KeyOf | utils/utils.go:67-70 | the key has one character per random byte, the i-th being letters[b[i] mod 36] |
| Utils.KeyInAlphabet | utils/utils.go:66-70 | every key character is a decimal digit or a lower-case ASCII letter |
| Utils.RandomKey | utils/utils.go:61-71 | rewrites the byte buffer in place so that it holds KeyOf of its old contents, and returns it |
| JsonTokens.FirstNonWS | utils/serialize.go:125-135 | the result is 0 for empty or all-whitespace input; otherwise a byte of the input that is not a space, `\n`, `\r` or `\t` |
| JsonTokens.FirstNonWSSkipsWhitespace | utils/serialize.go:126-131 | leading whitespace never changes the result, and the first non-whitespace byte after it is the result |
| JsonTokens.FirstNonWSOfText | utils/serialize.go:83-91 | in the text of a token sequence, firstNonWS finds the first byte of the first token: `{` exactly for an object, `[` exactly for an array |
| JsonTokens.ParseInt64 | utils/serialize.go:100 | an int64 is accepted exactly when the literal is an optionally signed run of digits whose value lies inside the 64-bit range, and the result is that value |
| JsonTokens.AboveInt64IsNotInt64 | utils/serialize.go:100 | an integer literal above 9223372036854775807 is not an int64, however it is written |
| JsonTokens.BelowInt64IsNotInt64 | utils/serialize.go:100 | an integer literal below -9223372036854775808 is not an int64 |
| JsonTokens.SignedZeroIsZero | utils/serialize.go:100 | `-0`, `+0` and `0` all read as the int64 zero |
| JsonTokens.FractionIsNotInt64 | utils/serialize.go:100-104 | a literal with a `.` or an exponent is never an int64, so it reaches the float64 attempt |
| JsonTokens.DecimalRoundTrip | utils/serialize.go:156 | every int64 that json.Marshal writes in decimal is a valid JSON number and reads back as the same int64 |
| JsonTokens.EscapeByte | utils/serialize.go:146 | a byte is escaped, into a sequence starting with a backslash, exactly when it is a control byte or one of `"`, `\`, `<`, `>`, `&`; every other byte is written as itself |
| JsonTokens.EscapePlain | utils/serialize.go:146 | a name of plain printable ASCII is written unchanged between the quotes |
| JsonTokens.EscapedQuotesFollowBackslash | utils/serialize.go:146-147 | every `"` inside an escaped name directly follows a backslash |
| JsonTokens.EscapeByteNoBareQuote | utils/serialize.go:146 | a string scanner that lets each backslash take the next byte along passes over one escaped byte without meeting an unescaped `"` and carries on with what follows |
| JsonTokens.EscapeHasNoBareQuote | utils/serialize.go:146-147 | such a scanner reads the whole escaped name without meeting an unescaped `"` and without stopping inside an escape, so the name cannot end the string early |
| JsonTokens.Quote | utils/serialize.go:146-147 | a marshalled name starts and ends with `"` |
| JsonTokens.ScanValue | utils/serialize.go:53-56 | the raw value read at `i` is a non-empty span from `i` to at most the end of the input |
| JsonTokens.ScanMembers | utils/serialize.go:53-56 | the scan of an object's members ends strictly after where it started and within the input |
| JsonTokens.ScanElements | utils/serialize.go:179-182 | the scan of an array's elements ends strictly after where it started and within the input |
| OrderedJson.Get | utils/serialize.go:21-28 | None exactly when no member has the name; otherwise the value of a member with that name before which no member has it |
| OrderedJson.GetIgnoresLaterDuplicate | utils/serialize.go:21-28 | appending a member whose name is already present never changes what Get finds for it |
| OrderedJson.FirstTokenError | utils/serialize.go:35-41 | when the first token is not the expected delimiter: a token that cannot start a value (a lexical error, a closing delimiter, `:` or `,`) is a syntax error; a number no float64 holds is json's type error for it; any other value is the "expected ... start" error |
| OrderedJson.DecodeObject | utils/serialize.go:31-41 | decoding succeeds only on input whose first token is `{` |
| OrderedJson.DecodeMembers | utils/serialize.go:43-73 | the loop only appends: on success the members already decoded are a prefix of the result |
| OrderedJson.Classify | utils/serialize.go:77-115 | exactly `null` is nil; a successful result is an object exactly when the raw value opens with `{` and an array exactly when it opens with `[` (ClassifyOf and Cascade carry the rest) |
| OrderedJson.Cascade | utils/serialize.go:98-113 | for every raw value: a single number token is the int64 ParseInt64 gives when it accepts it, otherwise the float64 the float parser gives when that accepts it; `true` and `false` are the bools; a string token is its string; every other raw value, a number neither parser accepts included, fails with the "cannot unmarshal" error |
| OrderedJson.ClassifyDispatchAgrees | utils/serialize.go:83-91 | on a complete raw value, firstNonWS of its text is `{` exactly when it opens an object and `[` exactly when it opens an array, the tests the model dispatches on |
| OrderedJson.DecodeArray | utils/serialize.go:165-175 | decoding an array succeeds only on input whose first token is `[` |
| OrderedJson.DecodeElements | utils/serialize.go:177-206 | the loop only appends: on success the elements already decoded are a prefix of the result |
| OrderedJson.Element | utils/serialize.go:184-205 | an array element never decodes to an int64; a successful result is an object exactly when the element opens with `{` and an array exactly when it opens with `[` (ElementOf carries the round trip) |
| OrderedJson.Generic | utils/serialize.go:199-204 | decoding into `any`: `null` is nil, `true` and `false` the bools, a string token its string; a number is the float64 the parser gives, never an int64, and a number the parser rejects fails with json's type error for it |
| OrderedJson.ValueTokens | utils/serialize.go:150-158 | json.Marshal of a member value writes at least one token (its shape is in OrderedJsonProofs.ValueTokensShape, and RoundTrip ties it to the decoder) |
| OrderedJson.ObjectTokens | utils/serialize.go:138-162 | MarshalJSON's output opens with `{` and closes with `}` |
| OrderedJson.DecodeArrayAsWritten | utils/serialize.go:165-213 | as written, unmarshalArray succeeds only on input opening with `[`, and a nil slice it returns holds no elements (ArrayAsWrittenAgrees gives the converse) |
| OrderedJson.DecodeElementsAsWritten | utils/serialize.go:177-206 | the loop as written only appends, and the slice stays nil only when nothing was appended to it |
| OrderedJson.ElementsAsWrittenAgree | utils/serialize.go:177-206 | from any position, the loop as written, appending to a slice that is nil exactly when it is empty, succeeds and fails as DecodeElements does, with the same elements and error, and keeps that tie between nil and empty |
| OrderedJson.ArrayAsWrittenAgrees | utils/serialize.go:165-213 | for every raw value, unmarshalArray as written (starting from the nil slice `var arr []any`) succeeds and fails exactly as DecodeArray does, with the same elements and error, and returns the nil slice exactly when there are no elements |
| OrderedJsonProofs.ScanValueOf | utils/serialize.go:53-56 | the Decoder reads exactly the tokens json.Marshal wrote for a value (no float64, int64 integers) as one raw value, at any nesting depth in the model (encoding/json's depth limit is left out) |
| OrderedJsonProofs.ClassifyOf | utils/serialize.go:77-115 | determineValueType of what json.Marshal wrote for a member-safe value gives back that value |
| OrderedJsonProofs.ElementOf | utils/serialize.go:184-205 | classifying what json.Marshal wrote for an element-safe value as an array element gives back that value |
| OrderedJsonProofs.DecodeObjectOf | utils/serialize.go:31-74 | the written tokens of a member-safe object decode back to its members, whatever follows them |
| OrderedJsonProofs.ValueTokensShape | utils/serialize.go:150-158 | a scalar is written as one token, an array between `[` and `]`, an object between `{` and `}` |
| OrderedJsonProofs.DecodeArrayOf | utils/serialize.go:165-213 | the written tokens of an array of element-safe values decode back to its elements, whatever follows them |
| OrderedJsonProofs.RoundTrip | utils/serialize.go:31-162 | UnmarshalJSON of what MarshalJSON writes gives back the same members in the same order, duplicates included, for objects with no float64, int64 integers, no numbers inside arrays and only strings that are valid UTF-8, for the corrected decoder, which returns a non-nil empty array (see Findings); in Go, only for values nested less than 10000 levels deep |
| OrderedJsonProofs.DuplicateNamesKept | utils/serialize.go:64 | two members named `a` both come back, in order, and Get finds the first |
| OrderedJsonProofs.IntInArrayDecodes | utils/serialize.go:199-204 | `{"a":[1]}` decodes to a float64 element when the float parser accepts `1`, and otherwise fails with json's type error for `1` |
| OrderedJsonProofs.IntInArrayBecomesFloat | utils/serialize.go:199-204 | an int64 inside an array does not survive a round trip: `{"a":[1]}` comes back with a float64 element, if at all |
| OrderedJsonProofs.ClassifyInt64Example | utils/serialize_test.go:79 | `42` as a member value is an int64 |
| OrderedJsonProofs.BeyondInt64IsFloat | utils/serialize.go:98-106 | an integer literal outside the int64 range, as a member value, is not an int64 and becomes the float64 the float parser gives |
| OrderedJsonProofs.ClassifyFloat64Example | utils/serialize_test.go:80 | `5e-324` as a member value is a float64, the int64 attempt failing first |
| OrderedJsonProofs.ClassifyOtherExamples | utils/serialize_test.go:81-83 | `"hello"` is a string, `true` a bool and `null` nil |
| OrderedJsonProofs.ArrayElementClassification | utils/serialize.go:199-204 | as an array element, `42` is a float64, `"hello"` a string and `null` nil |
| OrderedJsonProofs.GetAt | utils/serialize.go:21-28 | Get finds a member when no earlier member shares its name |
| OrderedJsonProofs.UnmarshalTestLookups | utils/serialize_test.go:86-104 | every name of the unmarshal test is found, holding its own value |
| OrderedJsonProofs.NestedExampleTokens | utils/serialize_test.go:36-38 | the nested object `{"a":1}` is written as those five tokens |
| OrderedJsonProofs.MarshalOrderExample | utils/serialize_test.go:31-42 | members 1, 3, a nested object 2 and 4 are written in exactly that order, as the token sequence of `{"1":"v1","3":"v3","2":{"a":1},"4":"v4"}` |
| OrderedJsonProofs.EmptyArrayBecomesNull | utils/serialize.go:177-212 | as written, unmarshalArray returns the nil slice for the tokens of `[]`, and a member `a` holding the nil slice is written as the tokens of `{"a":null}`, not those of `{"a":[]}` |
| OrderedJsonProofs.EmptyArrayRoundTrip | utils/serialize.go:165-213 | with a non-nil empty slice, `{"a":[]}` decodes and is written back unchanged |
| OrderedJsonProofs.TopLevelArrayRejected | utils/serialize.go:39-41 | a top-level array fails with "expected JSON object start" |
| OrderedJsonProofs.TopLevelHugeNumberRejected | utils/serialize.go:34-38 | a top-level number no float64 holds, such as `1e400`, fails at the first Decoder.Token() with json's type error, whatever follows it |
| OrderedJsonProofs.HugeNumberInArrayRejected | utils/serialize.go:199-203 | an array element no float64 holds fails the array with json's type error for that number |
| OrderedJsonProofs.MissingValueRejected | utils/serialize.go:53-56 | `{"a":}` fails: no complete value follows the colon |
| OrderedJsonImpl.FirstNonWhitespace | utils/serialize.go:125-135 | the loop returns exactly FirstNonWS of its input |
| OrderedJsonImpl.OrderedObjectVar.constructor | utils/serialize.go:10 | a new variable holds the given members |
| OrderedJsonImpl.OrderedObjectVar.Get | utils/serialize.go:21-28 | found exactly when some member has the name, with the value of the first one; nil and false otherwise |
| OrderedJsonImpl.OrderedObjectVar.UnmarshalJSON | utils/serialize.go:31-74 | on success the members become exactly what DecodeObject gives and no error is returned; on any error that error is returned and the members are unchanged |
| OrderedJsonImpl.OrderedObjectVar.MarshalJSON | utils/serialize.go:138-162 | the bytes written are exactly the compact text of ObjectTokens of the members |
| OrderedJsonImpl.DetermineValueType | utils/serialize.go:77-115 | the result is exactly Classify of the raw value |
| OrderedJsonImpl.UnmarshalArray | utils/serialize.go:165-213 | the result is exactly DecodeArray of the raw value |

## Left out

- JsonTokens.ScanValue: has no nesting limit. encoding/json's scanner refuses values nested more than
  10000 levels deep: `dec.Decode(&raw)` (utils/serialize.go:53) and `json.Unmarshal` (utils/serialize.go:201)
  then fail with a syntax error, and `json.Marshal` (utils/serialize.go:153 and 156), compacting a nested
  MarshalJSON output, fails too, after which `b, _ :=` writes nothing for the value.
  `OrderedJsonProofs.ScanValueOf` and `OrderedJsonProofs.RoundTrip` hold in Go only below that depth.
- Tokenizing: the codec reads the token stream of encoding/json's Decoder. An `Invalid` token stands for
  any lexical error. Whitespace between tokens and the Decoder's buffering are not modelled.
- Float64 parsing and formatting (strconv) are parameters of the decoder and of the encoder. A float64 is
  its IEEE-754 bit pattern. `OrderedJsonProofs.RoundTrip` therefore excludes float64 values.
- OrderedJsonProofs.RoundTrip: stated only for objects with no float64, int64-range integers and no
  numbers inside arrays. Array numbers come back as float64 (`OrderedJsonProofs.IntInArrayBecomesFloat`),
  and float64 text is a parameter. It holds for the corrected decoder, which returns a non-nil empty
  array: as written, `{"a":[]}` comes back as `{"a":null}` (`OrderedJsonProofs.EmptyArrayBecomesNull`,
  see Findings). It holds in Go only for names and strings that are valid UTF-8: encoding/json writes an
  invalid byte such as 0xFF as `\ufffd`, which decodes to the bytes EF BF BD; the model copies it as it is.
- OrderedJson.ValueTokens: a float64 whose bit pattern is NaN or an infinity is written as the number the
  formatter gives. In Go, json.Marshal fails on such a value, MarshalJSON discards that error (`b, _ :=`)
  and writes nothing for it, so `{"x":NaN}` becomes the invalid text `{"x":}` with a nil error. The model
  does not capture that output. Channels and functions, the other values json.Marshal rejects, are not
  among the model's values.
- Other Go types a member may hold (structs, maps, typed slices, pointers) are not modelled, only the
  values the decoder produces.
- String escaping covers ASCII as encoding/json writes it (HTML-safe). Bytes of 0x80 and above are copied
  as they are. The replacement of invalid UTF-8 and the escaping of U+2028/U+2029 are not modelled.
- OrderedJsonImpl.DetermineValueType and OrderedJsonImpl.UnmarshalArray: they dispatch on the first token
  of the raw value rather than by calling firstNonWS on its text. `OrderedJson.ClassifyDispatchAgrees`
  proves that the two agree on every complete raw value.
- OrderedJsonImpl.OrderedObjectVar.MarshalJSON: returns only the bytes. The Go error result is always nil.
- OrderedJsonImpl.UnmarshalArray: builds a non-nil slice for `[]`, the evidently intended behaviour. The
  nil slice of the code as written is modelled by `OrderedJson.DecodeArrayAsWritten` (see Findings).
- Errors are modelled by kind (`SyntaxError`, the two "expected ... start" errors, the "cannot unmarshal"
  error, json's type error for a number), not by Go's error values and messages. Every lexical or
  structural error of the Decoder is one `SyntaxError`.
- OrderedJsonProofs.UnmarshalTestLookups: the unmarshal test's object is stated directly
  (`OrderedJsonProofs.UnmarshalTestObject`). Each member's classification and the lookups are proved, but
  not the decode of the whole test text in one step; the general round trip covers the decode loop itself.
- Utils.CappedWriter.Write: returns len(p) of the original slice, the intended count its doc comment
  promises, not the truncated count the code as written returns (see Findings and
  `Utils.ReturnedCountAsWritten`).
- Utils.CappedWriter.Write: the wrapped io.Writer is a buffer that accepts every byte and never fails,
  as in the request logging. Partial writes and write errors of other writers are not modelled.
- Utils.CappedWriter.Write: `Remain` is an unbounded integer. The int64 width of `Remain` and of the
  conversions `int64(len(p))` is not modelled.
- Utils.TruncateString: requires `max >= 0`. A negative `max` always exceeds the length test and makes
  the slice expression panic.
- Dsn: strings are Dafny strings, sequences of Unicode scalar values, where Go strings are bytes. Both
  functions only compare, split and join at the ASCII text `://`, so the results are the same; byte
  sequences that are not valid UTF-8 are not modelled.
- Utils.RandomKey: takes the bytes that crypto/rand would have filled in. The random read, and the panic
  when it fails, are left out.
- `DecodeStrict` and `ResponseRecorder` in `utils/utils.go` are not part of this model. Neither are the
  logging, tracing middleware and migration packages.

## Findings

| source | as written | input that shows it | evidently intended | confidence | as-written member | corrected member |
|---|---|---|---|---|---|---|
| utils/utils.go:36-41 | after `p = p[:c.Remain]`, Write returns `len(p)` of the truncated slice with a nil error | Remain = 3, p = `hello`: returns 3 and nil | return the intended length, len of the original p, as the doc comment says; io.Writer forbids a short count without an error | not executed | Utils.ShortCountWithoutError | Utils.CappedWriter.Write |
| utils/serialize.go:177-212 | `var arr []any` stays nil when the array has no elements and is returned as is; json.Marshal writes a nil slice as `null` | `{"a":[]}` is decoded and marshalled back as `{"a":null}` | an empty array decodes to an empty, non-nil slice and is written back as `[]` | not executed | OrderedJsonProofs.EmptyArrayBecomesNull | OrderedJsonProofs.EmptyArrayRoundTrip |
