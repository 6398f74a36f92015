/**
 The wire primitives of the Kafka protocol as values.

 A `Src` is what a reader works on: the bytes still to come from a buffered
 reader and the number of bytes the enclosing frame says are left.  Every
 reading function threads a `Src`, also through its failures, because the code
 reports the remaining size on every path.
 */
module Wire {

  type byte = b: int | 0 <= b < 256

  /** A Go byte slice: the encoders tell nil from empty, the decoders never return empty. */
  datatype Slice = Nil | Bytes(b: seq<byte>) {
    function Contents(): seq<byte> {
      if Nil? then [] else b
    }

    function Len(): nat {
      |Contents()|
    }

    /** What a slice looks like after a trip over the wire. */
    function Normal(): Slice {
      if Len() == 0 then Nil else this
    }
  }

  datatype Err =
    | NoError
    | ShortRead        // errShortRead: the frame ends before the value
    | EndOfStream      // the connection ends before the frame does
    | NegativeCount    // bufio.ErrNegativeCount
    | BufferFull       // bufio.ErrBufferFull
    | UnknownCodec     // errUnknownCodec
    | CorruptPayload   // an error of the codec
    | BadVersion       // unsupported message version
    | Panicked         // make with a negative length
    | Kafka(code: int) // an Error code sent by the broker
    | Mismatch         // one topic / one partition / message set size not as expected

  datatype Src = Src(data: seq<byte>, remain: nat) {
    function Drop(n: nat): Src
      requires n <= remain && n <= |data|
    {
      Src(data[n..], remain - n)
    }
  }

  datatype R<+T> = Ok(value: T, rest: Src) | Fail(error: Err, rest: Src) {
    predicate IsFailure() {
      Fail?
    }

    function PropagateFailure<U>(): R<U>
      requires Fail?
    {
      Fail(error, rest)
    }

    function Extract(): (T, Src)
      requires Ok?
    {
      (value, rest)
    }
  }

  /** `t` is `s` after consuming bytes, each of them counted in `remain`. */
  ghost predicate Tail(s: Src, t: Src) {
    && t.remain <= s.remain
    && s.remain - t.remain <= |s.data|
    && t.data == s.data[s.remain - t.remain..]
  }

  lemma TailTransitive(s: Src, t: Src, u: Src)
    requires Tail(s, t) && Tail(t, u)
    ensures Tail(s, u)
  {
    assert s.data[s.remain - t.remain..][t.remain - u.remain..] == s.data[s.remain - u.remain..];
  }

  /** As `TailTransitive`, for everything read after `s` in one function. */
  lemma TailSteps(s: Src)
    ensures Tail(s, s)
    ensures forall t, u {:trigger Tail(s, t), Tail(t, u)} :: Tail(s, t) && Tail(t, u) ==> Tail(s, u)
  {
    forall t, u | Tail(s, t) && Tail(t, u)
      ensures Tail(s, u)
    {
      TailTransitive(s, t, u);
    }
  }

  // ---------------------------------------------------------------------
  // Fixed-width integers, big endian, two's complement
  // ---------------------------------------------------------------------

  function Pow256(n: nat): (p: nat)
    ensures p >= 1
  {
    if n == 0 then 1 else 256 * Pow256(n - 1)
  }

  /** The low `n` bytes of `v`, most significant first. */
  function BigEndian(n: nat, v: int): (b: seq<byte>)
    ensures |b| == n
  {
    if n == 0 then [] else BigEndian(n - 1, v / 256) + [v % 256]
  }

  function Unsigned(b: seq<byte>): (u: nat)
    ensures u < Pow256(|b|)
  {
    if |b| == 0 then 0 else Unsigned(b[..|b| - 1]) * 256 + b[|b| - 1]
  }

  function Signed(b: seq<byte>): int {
    var u := Unsigned(b);
    if 2 * u < Pow256(|b|) then u else u - Pow256(|b|)
  }

  ghost predicate Fits(n: nat, v: int) {
    0 <= 2 * v + Pow256(n) < 2 * Pow256(n)
  }

  lemma ModSplit(v: int, m: nat)
    requires m >= 1
    ensures v % (256 * m) == ((v / 256) % m) * 256 + v % 256
  {
    var q := v / 256;
    var k := q / m;
    assert q == k * m + q % m;
    assert v == k * (256 * m) + ((q % m) * 256 + v % 256);
    var r := (q % m) * 256 + v % 256;
    assert q % m <= m - 1;
    assert 0 <= r < 256 * m;
    ModUnique(v, 256 * m, k, r);
  }

  lemma ModUnique(v: int, d: nat, k: int, r: int)
    requires d > 0 && v == k * d + r && 0 <= r < d
    ensures v % d == r && v / d == k
  {
    var k2, r2 := v / d, v % d;
    assert v == k2 * d + r2;
    assert (k - k2) * d == r2 - r;
    assert k - k2 >= 1 ==> (k - k2) * d >= d;
    assert k2 - k >= 1 ==> (k2 - k) * d >= d;
  }

  lemma {:induction false} UnsignedBigEndian(n: nat, v: int)
    ensures Unsigned(BigEndian(n, v)) == v % Pow256(n)
  {
    if n > 0 {
      var b := BigEndian(n, v);
      assert b[..n - 1] == BigEndian(n - 1, v / 256);
      UnsignedBigEndian(n - 1, v / 256);
      ModSplit(v, Pow256(n - 1));
    }
  }

  /** Decoding inverts encoding on every value of the width. */
  lemma {:induction false} SignedBigEndian(n: nat, v: int)
    requires Fits(n, v)
    ensures Signed(BigEndian(n, v)) == v
  {
    UnsignedBigEndian(n, v);
    if v >= 0 {
      ModUnique(v, Pow256(n), 0, v);
    } else {
      ModUnique(v, Pow256(n), -1, v + Pow256(n));
    }
  }

  lemma {:induction false} BigEndianUnsigned(b: seq<byte>)
    ensures BigEndian(|b|, Unsigned(b)) == b
  {
    if |b| > 0 {
      var u := Unsigned(b[..|b| - 1]);
      ModUnique(u * 256 + b[|b| - 1], 256, u, b[|b| - 1]);
      BigEndianUnsigned(b[..|b| - 1]);
    }
  }

  /** Encoding inverts decoding on every byte string. */
  lemma {:induction false} BigEndianSigned(b: seq<byte>)
    ensures BigEndian(|b|, Signed(b)) == b
    ensures Fits(|b|, Signed(b))
  {
    var u := Unsigned(b);
    assert Unsigned(b) < Pow256(|b|);
    BigEndianUnsigned(b);
    if 2 * u >= Pow256(|b|) {
      BigEndianPeriodic(|b|, u);
    }
  }

  lemma {:induction false} BigEndianPeriodic(n: nat, v: int)
    ensures BigEndian(n, v - Pow256(n)) == BigEndian(n, v)
  {
    if n > 0 {
      var p := Pow256(n - 1);
      ModUnique(v - 256 * p, 256, v / 256 - p, v % 256);
      BigEndianPeriodic(n - 1, v / 256);
    }
  }

  lemma Widths()
    ensures Pow256(1) == 256 && Pow256(2) == 0x1_0000 && Pow256(4) == 0x1_0000_0000
    ensures Pow256(8) == 0x1_0000_0000_0000_0000
  {
    assert Pow256(3) == 256 * Pow256(2);
    assert Pow256(5) == 256 * Pow256(4);
    assert Pow256(7) == 256 * Pow256(6);
  }

  function Int8(v: int): (b: seq<byte>) ensures |b| == 1 { BigEndian(1, v) }
  function Int16(v: int): (b: seq<byte>) ensures |b| == 2 { BigEndian(2, v) }
  function Int32(v: int): (b: seq<byte>) ensures |b| == 4 { BigEndian(4, v) }
  function Int64(v: int): (b: seq<byte>) ensures |b| == 8 { BigEndian(8, v) }

  /** A Go conversion to int32, int64: the low bits, as a signed number. */
  function Wrap32(v: int): int {
    (v + 0x8000_0000) % 0x1_0000_0000 - 0x8000_0000
  }

  function Wrap64(v: int): int {
    (v + 0x8000_0000_0000_0000) % 0x1_0000_0000_0000_0000 - 0x8000_0000_0000_0000
  }

  // ---------------------------------------------------------------------
  // Strings, byte slices, arrays
  // ---------------------------------------------------------------------

  function String(s: seq<byte>): seq<byte> {
    Int16(|s|) + s
  }

  function Blob(b: Slice): seq<byte> {
    Int32(if b.Nil? then -1 else |b.b|) + b.Contents()
  }

  lemma Assoc<T>(a: seq<T>, b: seq<T>, c: seq<T>)
    ensures a + b + c == a + (b + c)
  {
  }

  // ---------------------------------------------------------------------
  // Readers
  // ---------------------------------------------------------------------

  function DiscardN(s: Src, n: int): R<()> {
    if n < 0 then Fail(NegativeCount, s)
    else if n <= s.remain then
      if n <= |s.data| then Ok((), s.Drop(n)) else Fail(EndOfStream, s.Drop(|s.data|))
    else
      if s.remain <= |s.data| then Fail(ShortRead, s.Drop(s.remain)) else Fail(EndOfStream, s.Drop(|s.data|))
  }

  /** The error an operation returns. */
  function ErrorOf<T>(r: R<T>): Err {
    if r.Ok? then NoError else r.error
  }

  /** peekRead: all or nothing. */
  function Take(s: Src, n: nat): (r: R<seq<byte>>)
    ensures r.Ok? <==> n <= s.remain && n <= |s.data|
    ensures r.Ok? ==> r.value == s.data[..n] && r.rest == s.Drop(n)
    ensures r.Fail? ==> r.rest == s
    ensures r.Fail? ==> r.error == if n > s.remain then ShortRead else EndOfStream
  {
    if n > s.remain then Fail(ShortRead, s)
    else if n > |s.data| then Fail(EndOfStream, s)
    else Ok(s.data[..n], s.Drop(n))
  }

  function ReadInt(s: Src, n: nat): (r: R<int>)
    ensures r.Ok? <==> n <= s.remain && n <= |s.data|
    ensures r.Ok? ==> r.rest == s.Drop(n) && r.value == Signed(s.data[..n])
    ensures r.Fail? ==> r.rest == s && r.error == if n > s.remain then ShortRead else EndOfStream
  {
    var (b, t) :- Take(s, n);
    Ok(Signed(b), t)
  }

  function ReadNewBytes(s: Src, n: int): (r: R<Slice>)
    ensures n <= 0 ==> r == Ok(Nil, s)
    ensures 0 < n <= s.remain && n <= |s.data| ==> r == Ok(Bytes(s.data[..n]), s.Drop(n))
    ensures r.Ok? ==> n <= s.remain
  {
    var m := if n < s.remain then n else s.remain;
    if n <= 0 then Ok(Nil, s)
    else if m > |s.data| then Fail(EndOfStream, s.Drop(|s.data|))
    else if m < n then Fail(ShortRead, s.Drop(m))
    else Ok(Bytes(s.data[..n]), s.Drop(n))
  }

  /** readStringWith and readBytesWith up to the callback: the length, checked against the frame. */
  function ReadLength(s: Src, width: nat): (r: R<int>)
    ensures r.Ok? ==> r.value <= r.rest.remain
  {
    var (n, t) :- ReadInt(s, width);
    if n > t.remain then Fail(ShortRead, t) else Ok(n, t)
  }

  function ReadBytes(s: Src): R<Slice> {
    var (n, t) :- ReadLength(s, 4);
    ReadNewBytes(t, n)
  }

  function ReadString(s: Src): R<seq<byte>> {
    var (n, t) :- ReadLength(s, 2);
    var (b, u) :- ReadNewBytes(t, n);
    Ok(b.Contents(), u)
  }

  /** discardString and discardBytes. */
  function DiscardSized(s: Src, width: nat): R<()> {
    var (n, t) :- ReadLength(s, width);
    if n < 0 then Ok((), t) else DiscardN(t, n)
  }

  /** On arbitrary bytes, the size a reader or discarder reports is what it was given minus what it consumed. */
  lemma DiscardNConserves(s: Src, n: int)
    ensures Tail(s, DiscardN(s, n).rest)
  {
  }

  lemma ReadIntConserves(s: Src, n: nat)
    ensures Tail(s, Take(s, n).rest)
    ensures Tail(s, ReadInt(s, n).rest)
  {
  }

  lemma ReadNewBytesConserves(s: Src, n: int)
    ensures Tail(s, ReadNewBytes(s, n).rest)
  {
  }

  lemma ReadLengthConserves(s: Src, width: nat)
    ensures Tail(s, ReadLength(s, width).rest)
  {
  }

  lemma SizedConserve(s: Src, width: nat)
    ensures Tail(s, ReadBytes(s).rest)
    ensures Tail(s, ReadString(s).rest)
    ensures Tail(s, DiscardSized(s, width).rest)
  {
    hide Signed, Unsigned, Tail;
    AfterLength(s, 4);
    AfterLength(s, 2);
    AfterLength(s, width);
  }

  lemma AfterLength(s: Src, width: nat)
    ensures var r := ReadLength(s, width);
            && Tail(s, r.rest)
            && (r.Ok? ==> && Tail(s, ReadNewBytes(r.rest, r.value).rest)
                          && Tail(s, DiscardN(r.rest, r.value).rest))
  {
    hide Signed, Unsigned;
    var r := ReadLength(s, width);
    ReadLengthConserves(s, width);
    if r.Ok? {
      ReadNewBytesConserves(r.rest, r.value);
      TailTransitive(s, r.rest, ReadNewBytes(r.rest, r.value).rest);
      DiscardNConserves(r.rest, r.value);
      TailTransitive(s, r.rest, DiscardN(r.rest, r.value).rest);
    }
  }

  // ---------------------------------------------------------------------
  // Runs of fixed-width integers (struct headers)
  // ---------------------------------------------------------------------

  function Fields(widths: seq<nat>, values: seq<int>): seq<byte>
    requires |widths| == |values|
  {
    if widths == [] then [] else BigEndian(widths[0], values[0]) + Fields(widths[1..], values[1..])
  }

  function Sum(widths: seq<nat>): nat {
    if widths == [] then 0 else widths[0] + Sum(widths[1..])
  }

  lemma SumThree(a: nat, b: nat, c: nat)
    ensures Sum([a, b, c]) == a + b + c
  {
    var s := [a, b, c];
    assert s[1..] == [b, c] && s[1..][1..] == [c];
    assert Sum([c]) == c;
  }

  ghost predicate AllFit(widths: seq<nat>, values: seq<int>) {
    |widths| == |values| && forall i :: 0 <= i < |widths| ==> Fits(widths[i], values[i])
  }

  function ReadFields(s: Src, widths: seq<nat>): (r: R<seq<int>>)
    ensures r.Ok? ==> |r.value| == |widths|
    decreases |widths|
  {
    if widths == [] then Ok([], s)
    else
      var (v, t) :- ReadInt(s, widths[0]);
      var (vs, u) :- ReadFields(t, widths[1..]);
      Ok([v] + vs, u)
  }

  /** The values read before the first that fails. */
  function FieldsRead(s: Src, widths: seq<nat>): (v: seq<int>)
    ensures |v| <= |widths|
    ensures ReadFields(s, widths).Ok? ==> v == ReadFields(s, widths).value
    decreases |widths|
  {
    if widths == [] then []
    else match ReadInt(s, widths[0])
      case Fail(_, _) => []
      case Ok(v, t) => [v] + FieldsRead(t, widths[1..])
  }

  lemma {:induction false} ReadFieldsConserves(s: Src, widths: seq<nat>)
    ensures Tail(s, ReadFields(s, widths).rest)
    decreases |widths|
  {
    TailSteps(s);
    if widths != [] {
      var r := ReadInt(s, widths[0]);
      if r.Ok? {
        ReadFieldsConserves(r.rest, widths[1..]);
      }
    }
  }

  lemma {:induction false} ReadFieldsError(s: Src, widths: seq<nat>)
    ensures ReadFields(s, widths).Fail? ==> ReadFields(s, widths).error in {ShortRead, EndOfStream}
    decreases |widths|
  {
    if widths != [] {
      var r := ReadInt(s, widths[0]);
      if r.Ok? {
        ReadFieldsError(r.rest, widths[1..]);
      }
    }
  }

  lemma FieldsLength(widths: seq<nat>, values: seq<int>)
    requires |widths| == |values|
    ensures |Fields(widths, values)| == Sum(widths)
  {
  }

  lemma {:induction false} FieldsSplit(widths: seq<nat>, values: seq<int>, i: nat)
    requires |widths| == |values| && i <= |widths|
    ensures Fields(widths, values) == Fields(widths[..i], values[..i]) + Fields(widths[i..], values[i..])
  {
    if i > 0 {
      var ws, vs := widths[1..], values[1..];
      FieldsSplit(ws, vs, i - 1);
      assert widths[..i][1..] == ws[..i - 1] && values[..i][1..] == vs[..i - 1];
      assert widths[i..] == ws[i - 1..] && values[i..] == vs[i - 1..];
    }
  }

  lemma {:induction false} ReadsFields(widths: seq<nat>, values: seq<int>, rest: seq<byte>, remain: nat)
    requires AllFit(widths, values) && Sum(widths) <= remain
    ensures ReadFields(Src(Fields(widths, values) + rest, remain), widths)
         == Ok(values, Src(rest, remain - Sum(widths)))
  {
    if widths == [] {
      assert Fields(widths, values) + rest == rest;
    } else {
      hide Fits, BigEndian;
      var w, v, ws, vs := widths[0], values[0], widths[1..], values[1..];
      assert widths == [w] + ws && values == [v] + vs;
      ReadsFields(ws, vs, rest, remain - w);
      FieldStep(w, v, ws, vs, Fields(ws, vs), rest, remain);
    }
  }

  lemma {:induction false} FieldStep(w: nat, v: int, ws: seq<nat>, vs: seq<int>, more: seq<byte>, rest: seq<byte>,
                                     remain: nat)
    requires Fits(w, v) && w <= remain && |ws| == |vs| && more == Fields(ws, vs)
    requires ReadFields(Src(more + rest, remain - w), ws).Ok?
    ensures Fields([w] + ws, [v] + vs) == BigEndian(w, v) + more
    ensures ReadFields(Src(Fields([w] + ws, [v] + vs) + rest, remain), [w] + ws)
         == var r := ReadFields(Src(more + rest, remain - w), ws); Ok([v] + r.value, r.rest)
  {
    hide Fits, BigEndian, Signed, Unsigned;
    ReadsInt(w, v, more + rest, remain);
    assert ([w] + ws)[1..] == ws && ([v] + vs)[1..] == vs;
    assert BigEndian(w, v) + more + rest == BigEndian(w, v) + (more + rest);
  }

  // ---------------------------------------------------------------------
  // Round trips of the primitives
  // ---------------------------------------------------------------------

  lemma ReadsInt(n: nat, v: int, rest: seq<byte>, remain: nat)
    requires Fits(n, v) && n <= remain
    ensures ReadInt(Src(BigEndian(n, v) + rest, remain), n) == Ok(v, Src(rest, remain - n))
  {
    SignedBigEndian(n, v);
    assert (BigEndian(n, v) + rest)[..n] == BigEndian(n, v);
    assert (BigEndian(n, v) + rest)[n..] == rest;
  }

  lemma ReadsString(s: seq<byte>, rest: seq<byte>, remain: nat)
    requires |s| < 0x8000 && |s| + 2 <= remain
    ensures ReadString(Src(String(s) + rest, remain)) == Ok(s, Src(rest, remain - 2 - |s|))
  {
    Widths();
    assert Fits(2, |s|);
    hide Fits, BigEndian, Signed;
    assert String(s) + rest == Int16(|s|) + (s + rest);
    ReadsInt(2, |s|, s + rest, remain);
    assert (s + rest)[..|s|] == s;
    assert (s + rest)[|s|..] == rest;
  }

  lemma ReadsBytes(b: Slice, rest: seq<byte>, remain: nat)
    requires b.Len() < 0x8000_0000 && b.Len() + 4 <= remain
    ensures ReadBytes(Src(Blob(b) + rest, remain)) == Ok(b.Normal(), Src(rest, remain - 4 - b.Len()))
  {
    Widths();
    var n := if b.Nil? then -1 else |b.b|;
    assert Fits(4, n);
    hide Fits, BigEndian, Signed;
    assert Blob(b) + rest == Int32(n) + (b.Contents() + rest);
    ReadsInt(4, n, b.Contents() + rest, remain);
    assert (b.Contents() + rest)[..b.Len()] == b.Contents();
    assert (b.Contents() + rest)[b.Len()..] == rest;
  }

  lemma DiscardsBytes(b: Slice, rest: seq<byte>, remain: nat)
    requires b.Len() < 0x8000_0000 && b.Len() + 4 <= remain
    ensures DiscardSized(Src(Blob(b) + rest, remain), 4) == Ok((), Src(rest, remain - 4 - b.Len()))
  {
    Widths();
    var n := if b.Nil? then -1 else |b.b|;
    assert Fits(4, n);
    hide Fits, BigEndian, Signed;
    assert Blob(b) + rest == Int32(n) + (b.Contents() + rest);
    ReadsInt(4, n, b.Contents() + rest, remain);
    assert (b.Contents() + rest)[b.Len()..] == rest;
  }
}
