/**
 The buffered reader and writer of a connection as objects that change, and the
 primitive readers and discarders of read.go and discard.go as operations on
 them.  Each operation is proved against the function of module `Wire` of the
 same name; `Wire` in turn proves that, on arbitrary bytes, what is left of the
 size is the size minus what was consumed.
 */
module Streams {
  import opened Wire

  /** bufio never allocates a smaller read buffer than 16 bytes. */
  type BufferSize = n: nat | n >= 16 witness 16

  /** bufio.Reader: `data` is every byte that has yet to be read from it. */
  class Reader {
    var data: seq<byte>
    const capacity: BufferSize

    constructor (data: seq<byte>, capacity: BufferSize)
      ensures this.data == data && this.capacity == capacity
    {
      this.data := data;
      this.capacity := capacity;
    }

    function At(remain: nat): Src
      reads this
    {
      Src(data, remain)
    }

    method Peek(n: int) returns (b: seq<byte>, err: Err)
      ensures err == NoError <==> 0 <= n <= capacity && n <= |data|
      ensures err == NoError ==> b == data[..n]
      ensures err == if n < 0 then NegativeCount else if n > capacity then BufferFull
                     else if n > |data| then EndOfStream else NoError
    {
      b := [];
      if n < 0 {
        err := NegativeCount;
      } else if n > capacity {
        err := BufferFull;
      } else if n > |data| {
        err := EndOfStream;
      } else {
        b, err := data[..n], NoError;
      }
    }

    method Discard(n: int) returns (k: nat, err: Err)
      modifies this
      ensures k <= |old(data)| && data == old(data)[k..]
      ensures n < 0 ==> k == 0 && err == NegativeCount
      ensures 0 <= n <= |old(data)| ==> k == n && err == NoError
      ensures n > |old(data)| ==> k == |old(data)| && err == EndOfStream
    {
      if n < 0 {
        k, err := 0, NegativeCount;
      } else if n <= |data| {
        k, err := n, NoError;
      } else {
        k, err := |data|, EndOfStream;
      }
      data := data[k..];
    }

    /** io.ReadFull into a buffer of `n` bytes. */
    method ReadFull(n: nat) returns (b: seq<byte>, err: Err)
      modifies this
      ensures |b| <= n && b + data == old(data)
      ensures err == NoError <==> n <= |old(data)|
      ensures |b| == if n <= |old(data)| then n else |old(data)|
      ensures err != NoError ==> err == EndOfStream
    {
      var k := if n <= |data| then n else |data|;
      b, err := data[..k], if k == n then NoError else EndOfStream;
      data := data[k..];
    }
  }

  /** An operation ends as the function value `res` says: bytes left, size left and error. */
  ghost predicate Finishes<T>(res: R<T>, rest: Src, err: Err) {
    && res.rest == rest
    && (res.Ok? ==> err == NoError)
    && (res.Fail? ==> err == res.error != NoError)
  }

  method DiscardN(r: Reader, sz: nat, n: int) returns (remain: nat, err: Err)
    modifies r
    ensures Finishes(Wire.DiscardN(old(r.At(sz)), n), r.At(remain), err)
  {
    var k: nat;
    if n <= sz {
      k, err := r.Discard(n);
    } else {
      k, err := r.Discard(sz);
      if err == NoError {
        err := ShortRead;
      }
    }
    remain := sz - k;
  }

  method PeekRead(r: Reader, sz: nat, n: nat) returns (b: seq<byte>, remain: nat, err: Err)
    requires n <= 16
    modifies r
    ensures Finishes(Take(old(r.At(sz)), n), r.At(remain), err)
    ensures err == NoError ==> b == Take(old(r.At(sz)), n).value
  {
    if n > sz {
      return [], sz, ShortRead;
    }
    b, err := r.Peek(n);
    if err != NoError {
      return b, sz, err;
    }
    remain, err := DiscardN(r, sz, n);
  }

  method ReadInt(r: Reader, sz: nat, width: nat) returns (v: int, remain: nat, err: Err)
    requires width <= 8
    modifies r
    ensures Finishes(Wire.ReadInt(old(r.At(sz)), width), r.At(remain), err)
    ensures err == NoError ==> v == Wire.ReadInt(old(r.At(sz)), width).value
  {
    v := 0;
    var b: seq<byte>;
    b, remain, err := PeekRead(r, sz, width);
    if err == NoError {
      v := Signed(b);
    }
  }

  method ReadNewBytes(r: Reader, sz: nat, n: int) returns (b: Slice, remain: nat, err: Err)
    modifies r
    ensures Finishes(Wire.ReadNewBytes(old(r.At(sz)), n), r.At(remain), err)
    ensures err == NoError ==> b == Wire.ReadNewBytes(old(r.At(sz)), n).value
  {
    b, remain, err := Nil, sz, NoError;
    if n > 0 {
      var want, shortRead := n, false;
      if sz < n {
        want, shortRead := sz, true;
      }
      var got: seq<byte>;
      got, err := r.ReadFull(want);
      b, remain := Bytes(got), sz - |got|;
      if err == NoError && shortRead {
        err := ShortRead;
      }
    }
  }

  method ReadLength(r: Reader, sz: nat, width: nat) returns (n: int, remain: nat, err: Err)
    requires width <= 8
    modifies r
    ensures Finishes(Wire.ReadLength(old(r.At(sz)), width), r.At(remain), err)
    ensures err == NoError ==> n == Wire.ReadLength(old(r.At(sz)), width).value
  {
    n, remain, err := ReadInt(r, sz, width);
    if err == NoError && n > remain {
      err := ShortRead;
    }
  }

  method ReadBytes(r: Reader, sz: nat) returns (b: Slice, remain: nat, err: Err)
    modifies r
    ensures Finishes(Wire.ReadBytes(old(r.At(sz))), r.At(remain), err)
    ensures err == NoError ==> b == Wire.ReadBytes(old(r.At(sz))).value
  {
    b := Nil;
    var n: int;
    n, remain, err := ReadLength(r, sz, 4);
    if err == NoError {
      b, remain, err := ReadNewBytes(r, remain, n);
    }
  }

  method ReadString(r: Reader, sz: nat) returns (s: seq<byte>, remain: nat, err: Err)
    modifies r
    ensures Finishes(Wire.ReadString(old(r.At(sz))), r.At(remain), err)
    ensures err == NoError ==> s == Wire.ReadString(old(r.At(sz))).value
  {
    s := [];
    var n: int;
    n, remain, err := ReadLength(r, sz, 2);
    if err == NoError {
      var b: Slice;
      b, remain, err := ReadNewBytes(r, remain, n);
      s := b.Contents();
    }
  }

  method DiscardSized(r: Reader, sz: nat, width: nat) returns (remain: nat, err: Err)
    requires width <= 8
    modifies r
    ensures Finishes(Wire.DiscardSized(old(r.At(sz)), width), r.At(remain), err)
  {
    var n: int;
    n, remain, err := ReadLength(r, sz, width);
    if err == NoError && n >= 0 {
      remain, err := DiscardN(r, remain, n);
    }
  }

  /** bufio.Writer: `out` is everything written so far. */
  class Writer {
    var out: seq<byte>

    constructor ()
      ensures out == []
    {
      out := [];
    }

    method Write(b: seq<byte>)
      modifies this
      ensures out == old(out) + b
    {
      out := out + b;
    }
  }

  /** A run of writeInt8 / 16 / 32 / 64 calls. */
  method WriteFields(w: Writer, widths: seq<nat>, values: seq<int>)
    requires |widths| == |values|
    modifies w
    ensures w.out == old(w.out) + Fields(widths, values)
  {
    for i := 0 to |widths|
      invariant w.out + Fields(widths[i..], values[i..]) == old(w.out) + Fields(widths, values)
    {
      ghost var before := w.out;
      assert widths[i..][1..] == widths[i + 1..] && values[i..][1..] == values[i + 1..];
      w.Write(BigEndian(widths[i], values[i]));
      Assoc(before, BigEndian(widths[i], values[i]), Fields(widths[i + 1..], values[i + 1..]));
    }
  }

  /** A run of readInt8 / 16 / 32 / 64 calls, stopping at the first that fails. */
  method ReadFields(r: Reader, sz: nat, widths: seq<nat>) returns (values: seq<int>, remain: nat, err: Err)
    requires forall w :: w in widths ==> w <= 8
    modifies r
    ensures Finishes(Wire.ReadFields(old(r.At(sz)), widths), r.At(remain), err)
    ensures values == FieldsRead(old(r.At(sz)), widths)
    ensures err == NoError ==> values == Wire.ReadFields(old(r.At(sz)), widths).value
  {
    values, remain, err := [], sz, NoError;
    var i := 0;
    ghost var all, read := Wire.ReadFields(r.At(sz), widths), FieldsRead(r.At(sz), widths);
    assert widths[0..] == widths;
    assert all.Ok? ==> [] + all.value == all.value;
    while i < |widths| && err == NoError
      invariant 0 <= i <= |widths|
      invariant err == NoError ==> Continues(all, values, Wire.ReadFields(r.At(remain), widths[i..]))
      invariant err != NoError ==> all == Fail(err, r.At(remain))
      invariant read == values + if err == NoError then FieldsRead(r.At(remain), widths[i..]) else []
      decreases |widths| - i, err == NoError
    {
      hide Wire.ReadFields, Wire.ReadInt, Signed, FieldsRead;
      assert widths[i] in widths;
      ContinuesStep(all, values, r.At(remain), widths, i);
      ReadStep(values, r.At(remain), widths, i);
      var v: int;
      v, remain, err := ReadInt(r, remain, widths[i]);
      if err == NoError {
        values, i := values + [v], i + 1;
      }
    }
  }

  lemma ReadStep(values: seq<int>, s: Src, widths: seq<nat>, i: nat)
    requires i < |widths|
    ensures var r := Wire.ReadInt(s, widths[i]);
            values + FieldsRead(s, widths[i..])
            == if r.Fail? then values else values + [r.value] + FieldsRead(r.rest, widths[i + 1..])
  {
    hide Wire.ReadInt;
    assert widths[i..][0] == widths[i] && widths[i..][1..] == widths[i + 1..];
    var r := Wire.ReadInt(s, widths[i]);
    if r.Ok? {
      Assoc(values, [r.value], FieldsRead(r.rest, widths[i + 1..]));
    } else {
      assert values + [] == values;
    }
  }

  lemma ContinuesStep(all: R<seq<int>>, values: seq<int>, s: Src, widths: seq<nat>, i: nat)
    requires i < |widths| && Continues(all, values, Wire.ReadFields(s, widths[i..]))
    ensures var r := Wire.ReadInt(s, widths[i]);
            && (r.Fail? ==> all == Fail(r.error, r.rest))
            && (r.Ok? ==> Continues(all, values + [r.value], Wire.ReadFields(r.rest, widths[i + 1..])))
  {
    hide Wire.ReadInt;
    assert widths[i..][0] == widths[i] && widths[i..][1..] == widths[i + 1..];
    var r := Wire.ReadInt(s, widths[i]);
    if r.Ok? {
      OneMore(all, values, Wire.ReadFields(s, widths[i..]), r.value, Wire.ReadFields(r.rest, widths[i + 1..]));
    }
  }

  /** `all` is what comes of having read `values` and then `r`. */
  ghost predicate Continues<T>(all: R<seq<T>>, values: seq<T>, r: R<seq<T>>) {
    all == match r case Ok(v, s) => Ok(values + v, s) case Fail(e, s) => Fail(e, s)
  }

  /** Reading the rest of a list is reading one value more and then the rest after it. */
  lemma OneMore<T>(all: R<seq<T>>, values: seq<T>, r: R<seq<T>>, value: T, rest: R<seq<T>>)
    requires Continues(all, values, r) && Continues(r, [value], rest)
    ensures Continues(all, values + [value], rest)
  {
    if rest.Ok? {
      Assoc(values, [value], rest.value);
    }
  }
}
