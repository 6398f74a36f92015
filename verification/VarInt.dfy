/**
 Zigzag variable-length integers (write.go, read.go).

 The code works on int64 with a signed right shift.  The model keeps that
 arithmetic and states exactly for which numbers the writing loop ends.
 */
module VarInt {
  import opened Wire
  import Streams

  const TWO_62: int := 0x4000_0000_0000_0000
  const TWO_63: int := 0x8000_0000_0000_0000
  const TWO_64: int := 0x1_0000_0000_0000_0000

  ghost predicate IsInt64(i: int) {
    -TWO_63 <= i < TWO_63
  }

  predicate InRange(i: int) {
    -TWO_62 <= i < TWO_62
  }

  // ---------------------------------------------------------------------
  // Encoding
  // ---------------------------------------------------------------------

  /** `i<<1 ^ i>>63` on int64: the second operand is 0 or -1, and x ^ -1 is -x - 1. */
  function ShiftXor(i: int): int {
    var d := Wrap64(2 * i);
    if i < 0 then -d - 1 else d
  }

  /** The loop variable of writeVarInt and varIntLen after `k` passes. */
  ghost function LoopVar(i: int, k: nat): int {
    if k == 0 then ShiftXor(i) else LoopVar(i, k - 1) / 128
  }

  /** The zigzag number, without a width. */
  function ZigZag(i: int): nat {
    if i >= 0 then 2 * i else -2 * i - 1
  }

  function Uvar(u: nat): (b: seq<byte>)
    ensures |b| >= 1
  {
    if u < 128 then [u] else [u % 128 + 128] + Uvar(u / 128)
  }

  function Encode(i: int): seq<byte> {
    Uvar(ZigZag(i))
  }

  function Pow128(n: nat): (p: nat)
    ensures p >= 1
  {
    if n == 0 then 1 else 128 * Pow128(n - 1)
  }

  lemma Pow128Nine()
    ensures Pow128(9) == TWO_63
  {
    assert Pow128(3) == 128 * Pow128(2);
    assert Pow128(5) == 128 * Pow128(4);
    assert Pow128(7) == 128 * Pow128(6);
  }

  lemma ShiftXorInRange(i: int)
    requires IsInt64(i)
    ensures InRange(i) ==> ShiftXor(i) == ZigZag(i)
    ensures !InRange(i) ==> ShiftXor(i) < 0
  {
  }

  lemma {:induction false} NegativeForever(i: int, k: nat)
    requires ShiftXor(i) < 0
    ensures LoopVar(i, k) < 0
  {
    if k > 0 {
      NegativeForever(i, k - 1);
    }
  }

  lemma {:induction false} ShrinksToDigit(i: int, k: nat)
    requires 0 <= ShiftXor(i) < Pow128(k + 1)
    ensures 0 <= LoopVar(i, k) < 128
  {
    BoundAfter(i, k, k);
  }

  lemma {:induction false} BoundAfter(i: int, n: nat, k: nat)
    requires k <= n && 0 <= ShiftXor(i) < Pow128(n + 1)
    ensures 0 <= LoopVar(i, k) < Pow128(n + 1 - k)
  {
    if k > 0 {
      BoundAfter(i, n, k - 1);
      assert Pow128(n + 1 - (k - 1)) == 128 * Pow128(n + 1 - k);
    }
  }

  /** The writing loop ends exactly for the numbers whose zigzag image is not negative as an int64. */
  lemma LoopEndsIff(i: int)
    requires IsInt64(i)
    ensures (exists k: nat :: LoopVar(i, k) % 128 == LoopVar(i, k)) <==> InRange(i)
  {
    ShiftXorInRange(i);
    if InRange(i) {
      Pow128Nine();
      ShrinksToDigit(i, 8);
      assert LoopVar(i, 8) % 128 == LoopVar(i, 8);
    } else {
      forall k: nat
        ensures LoopVar(i, k) % 128 != LoopVar(i, k)
      {
        NegativeForever(i, k);
      }
    }
  }

  /** The smallest number that keeps writeVarInt going for ever. */
  lemma NeverEnds()
    ensures IsInt64(TWO_62) && forall k: nat :: LoopVar(TWO_62, k) % 128 != LoopVar(TWO_62, k)
  {
    LoopEndsIff(TWO_62);
  }

  /** writeVarInt. */
  method Write(w: Streams.Writer, i: int)
    requires InRange(i)
    modifies w
    ensures w.out == old(w.out) + Encode(i)
  {
    ShiftXorInRange(i);
    var v := ShiftXor(i);
    while v % 128 != v
      invariant v >= 0
      invariant w.out + Uvar(v) == old(w.out) + Encode(i)
      decreases v
    {
      assert w.out + [v % 128 + 128] + Uvar(v / 128) == w.out + Uvar(v);
      w.Write([v % 128 + 128]);
      v := v / 128;
    }
    w.Write([v]);
  }

  /** varIntLen. */
  method Len(i: int) returns (l: nat)
    requires InRange(i)
    ensures l == |Encode(i)|
    ensures 1 <= l <= 9
  {
    ShiftXorInRange(i);
    LengthBound(i);
    var v := ShiftXor(i);
    l := 0;
    while v % 128 != v
      invariant v >= 0
      invariant l + |Uvar(v)| == |Encode(i)|
      decreases v
    {
      l := l + 1;
      v := v / 128;
    }
    l := l + 1;
  }

  lemma {:induction false} UvarLength(u: nat, n: nat)
    requires n >= 1
    ensures |Uvar(u)| <= n <==> u < Pow128(n)
  {
    if u >= 128 {
      if n == 1 {
        assert |Uvar(u / 128)| >= 1;
        assert Pow128(1) == 128;
      } else {
        UvarLength(u / 128, n - 1);
      }
    } else {
      assert Pow128(n) == 128 * Pow128(n - 1);
    }
  }

  /** Nine bytes are enough exactly on the range where the loop ends. */
  lemma LengthBound(i: int)
    ensures |Encode(i)| <= 9 <==> InRange(i)
  {
    Pow128Nine();
    UvarLength(ZigZag(i), 9);
  }

  // ---------------------------------------------------------------------
  // Decoding
  // ---------------------------------------------------------------------

  /** `int64(b&0x7f) << uint(l*7)`, as the 64 bits it sets. */
  function ShiftedBits(b: byte, l: nat): nat {
    (b % 128) * Pow128(l) % TWO_64
  }

  /**
   The polling loop of readVarInt: `acc` holds the bits set so far.  The bits
   of different bytes do not overlap, so the code's `|=` is an addition.
   */
  function ReadUvar(s: Src, l: nat, acc: nat): R<nat>
    decreases s.remain
  {
    var (b, t) :- Take(s, 1);
    var acc' := acc + ShiftedBits(b[0], l);
    if b[0] < 128 then Ok(acc', t) else ReadUvar(t, l + 1, acc')
  }

  /** `(v >> 1) ^ -(v & 1)` with a signed shift. */
  function UnZigZag(v: int): int {
    if v % 2 == 0 then v / 2 else -(v / 2) - 1
  }

  function Read(s: Src): R<int> {
    var (u, t) :- ReadUvar(s, 0, 0);
    Ok(UnZigZag(Wrap64(u)), t)
  }

  lemma {:induction false} ReadUvarConserves(s: Src, l: nat, acc: nat)
    ensures Tail(s, ReadUvar(s, l, acc).rest)
    decreases s.remain
  {
    TailSteps(s);
    var r := Take(s, 1);
    if r.Ok? && r.value[0] >= 128 {
      ReadUvarConserves(r.rest, l + 1, acc + ShiftedBits(r.value[0], l));
    }
  }

  lemma ReadConserves(s: Src)
    ensures Tail(s, Read(s).rest)
  {
    ReadUvarConserves(s, 0, 0);
  }

  /** readVarInt into a zeroed target. */
  method ReadVarInt(r: Streams.Reader, sz: nat) returns (v: int, remain: nat, err: Err)
    modifies r
    ensures Streams.Finishes(Read(old(r.At(sz))), r.At(remain), err)
    ensures err == NoError ==> v == Read(old(r.At(sz))).value
  {
    var l: nat, acc: nat, done := 0, 0, false;
    remain, err := sz, NoError;
    while !done && err == NoError
      invariant done ==> err == NoError && ReadUvar(old(r.At(sz)), 0, 0) == Ok(acc, r.At(remain))
      invariant !done && err == NoError ==> ReadUvar(old(r.At(sz)), 0, 0) == ReadUvar(r.At(remain), l, acc)
      invariant err != NoError ==> ReadUvar(old(r.At(sz)), 0, 0) == Fail(err, r.At(remain))
      decreases remain, !done && err == NoError
    {
      var b;
      b, remain, err := Streams.PeekRead(r, remain, 1);
      if err == NoError {
        done := b[0] < 128;
        acc := acc + ShiftedBits(b[0], l);
      }
      l := l + 1;
    }
    v := UnZigZag(Wrap64(acc));
  }

  lemma DigitSplit(u: nat, p: nat)
    ensures u * p == u / 128 * (128 * p) + u % 128 * p
    ensures u % 128 * p <= u * p
    ensures u < 128 ==> u % 128 * p == u * p
  {
    var q, d := u / 128, u % 128;
    assert (128 * q + d) * p == q * (128 * p) + d * p;
  }

  lemma {:induction false} ReadsUvar(u: nat, l: nat, acc: nat, rest: seq<byte>, remain: nat)
    requires acc + u * Pow128(l) < TWO_63
    requires |Uvar(u)| <= remain
    ensures ReadUvar(Src(Uvar(u) + rest, remain), l, acc)
         == Ok(acc + u * Pow128(l), Src(rest, remain - |Uvar(u)|))
    decreases u
  {
    hide Take, ShiftedBits, Uvar, Pow128;
    var s, p := Src(Uvar(u) + rest, remain), Pow128(l);
    DigitSplit(u, p);
    FirstByte(u, l, rest, remain);
    UvarGoesOn(u, l);
    if u >= 128 {
      var tail := Src(Uvar(u / 128) + rest, remain - 1);
      assert ReadUvar(s, l, acc) == ReadUvar(tail, l + 1, acc + u % 128 * p);
      ReadsUvar(u / 128, l + 1, acc + u % 128 * p, rest, remain - 1);
    }
  }

  lemma UvarGoesOn(u: nat, l: nat)
    ensures Pow128(l + 1) == 128 * Pow128(l)
    ensures |Uvar(u)| == if u < 128 then 1 else 1 + |Uvar(u / 128)|
  {
  }

  lemma {:induction false} FirstByte(u: nat, l: nat, rest: seq<byte>, remain: nat)
    requires u % 128 * Pow128(l) < TWO_63 && 1 <= remain
    ensures var b := if u < 128 then u else u % 128 + 128;
            var more := if u < 128 then rest else Uvar(u / 128) + rest;
            && Take(Src(Uvar(u) + rest, remain), 1) == Ok([b], Src(more, remain - 1))
            && ShiftedBits(b, l) == u % 128 * Pow128(l)
  {
    var s := Src(Uvar(u) + rest, remain);
    assert s.data[..1] == [if u < 128 then u else u % 128 + 128];
    assert s.data[1..] == if u < 128 then rest else Uvar(u / 128) + rest;
  }

  /** Reading what was written gives the number back and leaves any suffix untouched. */
  lemma RoundTrip(i: int, rest: seq<byte>, remain: nat)
    requires InRange(i) && |Encode(i)| <= remain
    ensures Read(Src(Encode(i) + rest, remain)) == Ok(i, Src(rest, remain - |Encode(i)|))
  {
    hide Uvar, ReadUvar;
    assert ZigZag(i) * Pow128(0) == ZigZag(i);
    ReadsUvar(ZigZag(i), 0, 0, rest, remain);
  }
}
