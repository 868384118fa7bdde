/** String truncation, a byte-budgeted writer and random keys (utils/utils.go). */
module Utils {

  import opened Prelude

  /** The UTF-8 bytes of "…(truncated)": U+2026 is E2 80 A6. */
  const TruncatedSuffix: Bytes := [0xE2, 0x80, 0xA6] + Ascii("(truncated)")

  /**
   * TruncateString: `s` itself when it fits in `max` bytes, otherwise its first
   * `max` bytes followed by "…(truncated)". The cut counts bytes, so it may fall
   * inside a multi-byte UTF-8 sequence. A negative `max` is always below
   * `len(s)` and makes Go's slice expression panic, hence the precondition.
   */
  function TruncateString(s: Bytes, max: int): (r: Bytes)
    requires max >= 0
    ensures |s| <= max ==> r == s
    ensures |s| > max ==> |r| == max + |TruncatedSuffix|
    ensures |s| > max ==> r[..max] == s[..max] && r[max..] == TruncatedSuffix
  {
    if |s| > max then s[..max] + TruncatedSuffix else s
  }

  /** Truncating never keeps more than `max` bytes of the input plus the suffix. */
  lemma TruncateStringBound(s: Bytes, max: nat)
    ensures |TruncateString(s, max)| <= max + |TruncatedSuffix|
    ensures |TruncateString(s, max)| <= |s| || |s| > max
  {
  }

  /** The cut is by bytes: one byte of "é" (C3 A9) followed by the suffix. */
  lemma TruncateSplitsRune()
    ensures TruncateString([0xC3, 0xA9], 1) == [0xC3] + TruncatedSuffix
  {
  }

  /*
   * CappedWriter. The embedded io.Writer is a buffer that accepts every byte it
   * is given (a bytes.Buffer, as in the request logging), so the count it
   * reports is always the length of what it was given and its error is nil.
   */

  /** The state of a CappedWriter over such a buffer. */
  datatype CapState = CapState(remain: int, sink: Bytes)

  /** The bytes of `p` that Write forwards: all when they fit, else the first `remain`. */
  function Forwarded(remain: int, p: Bytes): (q: Bytes)
    ensures remain <= 0 ==> q == []
    ensures remain > 0 ==> |q| == if |p| < remain then |p| else remain
    ensures q == p[..|q|]
  {
    if remain <= 0 then []
    else if |p| > remain then p[..remain]
    else p
  }

  /** The state after one Write of `p`: the forwarded bytes are appended and the budget shrinks by their count. */
  function WriteStep(st: CapState, p: Bytes): CapState
  {
    var q := Forwarded(st.remain, p);
    if st.remain <= 0 then st else CapState(st.remain - |q|, st.sink + q)
  }

  /**
   * The count the Go code returns: len(p) when the budget is spent, else the
   * length of the truncated slice. It never exceeds len(p), and falls short of
   * it exactly when a budget remains that p overruns, in which case it is the
   * budget.
   */
  function ReturnedCountAsWritten(remain: int, p: Bytes): (n: nat)
    ensures n <= |p|
    ensures n < |p| <==> remain > 0 && |p| > remain
    ensures n < |p| ==> n == remain
  {
    if remain <= 0 then |p| else |Forwarded(remain, p)|
  }

  /**
   * The count returned as written can be smaller than len(p) while the error
   * is nil: with 3 bytes of budget left, writing "hello" reports 3. The
   * doc comment promises the intended length, and io.Writer requires a
   * non-nil error whenever the count is below len(p).
   */
  lemma ShortCountWithoutError()
    ensures ReturnedCountAsWritten(3, Ascii("hello")) == 3 < |Ascii("hello")|
  {
  }

  /** All the writes, one after another. */
  function WriteAll(st: CapState, ps: seq<Bytes>): CapState
    decreases |ps|
  {
    if ps == [] then st else WriteAll(WriteStep(st, ps[0]), ps[1..])
  }

  /** The concatenation of all the written slices. */
  function Concat(ps: seq<Bytes>): (r: Bytes)
    ensures ps == [] ==> r == []
  {
    if ps == [] then [] else ps[0] + Concat(ps[1..])
  }

  function Min(a: int, b: int): int
  {
    if a < b then a else b
  }

  /**
   * Over any sequence of writes starting from a non-negative budget, the buffer
   * gains exactly the first min(total, budget) bytes of all the data, and the
   * budget shrinks by that much without going negative.
   */
  lemma {:induction false} WriteAllKeepsPrefix(st: CapState, ps: seq<Bytes>)
    requires st.remain >= 0
    ensures var total := Concat(ps);
            var kept := Min(|total|, st.remain);
            WriteAll(st, ps) == CapState(st.remain - kept, st.sink + total[..kept])
    ensures WriteAll(st, ps).remain >= 0
    decreases |ps|
  {
    if ps != [] {
      var p := ps[0];
      var st' := WriteStep(st, p);
      WriteAllKeepsPrefix(st', ps[1..]);
      var total := Concat(ps);
      assert total == p + Concat(ps[1..]);
      if st.remain == 0 {
        assert st' == st;
      } else if |p| >= st.remain {
        assert st'.remain == 0;
        assert st'.sink == st.sink + total[..st.remain];
      } else {
        var rest := Concat(ps[1..]);
        var kept := Min(|total|, st.remain);
        assert st'.sink == st.sink + p;
        assert total[..kept] == p + rest[..kept - |p|];
      }
    }
  }

  /** A CappedWriter over a buffer that accepts everything. */
  class CappedWriter {
    /** The bytes the underlying writer has received. */
    var sink: Bytes
    /** The remaining number of bytes that can be written. */
    var remain: int

    constructor (budget: int)
      ensures sink == [] && remain == budget
    {
      sink := [];
      remain := budget;
    }

    /**
     * Write: with no budget left, nothing is forwarded and Remain is unchanged;
     * otherwise the first min(len(p), Remain) bytes go to the buffer and Remain
     * drops by the count the buffer reports. The count returned is len(p), the
     * intended length (the Go code returns the truncated length instead, see
     * ReturnedCountAsWritten).
     */
    method Write(p: Bytes) returns (n: int)
      modifies this
      ensures CapState(remain, sink) == WriteStep(CapState(old(remain), old(sink)), p)
      ensures old(remain) <= 0 ==> sink == old(sink) && remain == old(remain)
      ensures old(remain) > 0 ==> sink == old(sink) + p[..Min(|p|, old(remain))]
      ensures old(remain) >= 0 ==> remain >= 0
      ensures n == |p|
    {
      if remain <= 0 {
        return |p|;
      }
      var q := p;
      if |q| > remain {
        q := q[..remain];
      }
      // the buffer accepts all of q and reports its length
      var written := |q|;
      sink := sink + q;
      remain := remain - written;
      n := |p|;
    }
  }

  /** The alphabet of random keys, "0123456789abcdefghijklmnopqrstuvwxyz". */
  const Letters: Bytes := [
    0x30, 0x31, 0x32, 0x33, 0x34, 0x35, 0x36, 0x37, 0x38, 0x39,
    0x61, 0x62, 0x63, 0x64, 0x65, 0x66, 0x67, 0x68, 0x69, 0x6a, 0x6b, 0x6c, 0x6d,
    0x6e, 0x6f, 0x70, 0x71, 0x72, 0x73, 0x74, 0x75, 0x76, 0x77, 0x78, 0x79, 0x7a
  ]

  /** The key character for one random byte: letters[v mod 36]. */
  function KeyChar(v: byte): (c: byte)
    ensures c in Letters
  {
    Letters[v as int % |Letters|]
  }

  /** The key made from the random bytes `bs`, character by character. */
  function KeyOf(bs: Bytes): (key: Bytes)
    ensures |key| == |bs|
    ensures forall i :: 0 <= i < |bs| ==> key[i] == KeyChar(bs[i])
  {
    seq(|bs|, i requires 0 <= i < |bs| => KeyChar(bs[i]))
  }

  /** Every character of a key is a digit or a lower-case letter. */
  lemma KeyInAlphabet(bs: Bytes)
    ensures forall i :: 0 <= i < |bs| ==> KeyOf(bs)[i] in Letters
    ensures forall i :: 0 <= i < |bs| ==>
              (0x30 <= KeyOf(bs)[i] <= 0x39 || 0x61 <= KeyOf(bs)[i] <= 0x7A)
  {
    forall i | 0 <= i < |bs|
      ensures 0x30 <= KeyOf(bs)[i] <= 0x39 || 0x61 <= KeyOf(bs)[i] <= 0x7A
    {
      assert KeyOf(bs)[i] == Letters[bs[i] as int % 36];
    }
  }

  /**
   * RandomKey after the random read: rewrites the buffer of random bytes in
   * place, byte i becoming letters[b[i] mod 36], and returns it as the key.
   */
  method RandomKey(b: array<byte>) returns (key: Bytes)
    modifies b
    ensures b[..] == KeyOf(old(b[..]))
    ensures key == b[..] && |key| == b.Length
  {
    var i := 0;
    while i < b.Length
      invariant 0 <= i <= b.Length
      invariant b[..i] == KeyOf(old(b[..]))[..i]
      invariant b[i..] == old(b[..])[i..]
    {
      b[i] := Letters[b[i] as int % |Letters|];
      i := i + 1;
    }
    key := b[..];
  }
}
