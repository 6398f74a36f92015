/**
 The value callback of Batch.Read (batch.go) under the newer format: it copies
 into the buffer of its caller what the length of the record says, and looks at
 the size of the response only afterwards.
 */
module ValueCopy {
  import opened Wire

  /** What is in the buffer, the stream after the callback, what it says is left of the response, and its error. */
  datatype Copied = Copied(got: seq<byte>, data: seq<byte>, remain: int, err: Err)

  /** How much of the value is copied. */
  function Taken(n: int, room: nat): nat {
    if n < 0 then 0 else if n < room then n else room
  }

  /** A value of `n` bytes into a buffer of `room` bytes; discarding a negative count is an error. */
  function Copy(s: Src, n: int, room: nat): Copied {
    var k := Taken(n, room);
    if n < 0 then Copied([], s.data, s.remain, NoError)
    else if k > |s.data| then Copied(s.data, [], s.remain - |s.data|, EndOfStream)
    else if k > s.remain then Copied(s.data[..k], s.data[k..], s.remain - k, NegativeCount)
    else
      var r := DiscardN(s.Drop(k), n - k);
      Copied(s.data[..k], r.rest.data, r.rest.remain, ErrorOf(r))
  }

  /**
   A value within its response fills the buffer as far as there is room and is
   taken off the stream whole, whatever follows it; a nil one takes nothing.
   */
  lemma CopiesValue(value: seq<byte>, rest: seq<byte>, k: nat, room: nat)
    ensures var c := Copy(Src(value + rest, |value| + k), |value|, room);
            && c.got == (if |value| <= room then value else value[..room])
            && c.data == rest && c.remain == k && c.err == NoError
    ensures Copy(Src(value + rest, |value| + k), -1, room) == Copied([], value + rest, |value| + k, NoError)
  {
    var n, s := Taken(|value|, room), Src(value + rest, |value| + k);
    assert s.data[..n] == value[..n] && value[..|value|] == value;
    assert s.data[n..][|value| - n..] == rest;
  }

  /** The callback takes bytes of the response only, and accounts for them. */
  ghost predicate Bounded(s: Src, c: Copied) {
    c.remain >= 0 && Tail(s, Src(c.data, c.remain))
  }

  /**
   On arbitrary bytes the callback stays within the response exactly when the
   part of the value that fits the buffer does, or nothing follows the response;
   else it has taken bytes of the next response before it fails.
   */
  lemma CopyBoundedIff(s: Src, n: int, room: nat)
    requires s.remain <= |s.data|
    ensures Bounded(s, Copy(s, n, room)) <==> Taken(n, room) <= s.remain || |s.data| == s.remain
    ensures !Bounded(s, Copy(s, n, room)) ==>
              Copy(s, n, room).err in {NegativeCount, EndOfStream} && |s.data| - |Copy(s, n, room).data| > s.remain
  {
    var k := Taken(n, room);
    if 0 <= n && k <= s.remain {
      DiscardNConserves(s.Drop(k), n - k);
      TailSteps(s);
      TailTransitive(s, s.Drop(k), DiscardN(s.Drop(k), n - k).rest);
    }
  }

  /** Three bytes left of the response, a value of five: two bytes of the next response are gone. */
  lemma TakesNext()
    ensures Copy(Src([1, 2, 3, 4, 5, 6, 7], 3), 5, 5) == Copied([1, 2, 3, 4, 5], [6, 7], -2, NegativeCount)
  {
    assert [1, 2, 3, 4, 5, 6, 7][5..] == [6, 7] && [1, 2, 3, 4, 5, 6, 7][..5] == [1, 2, 3, 4, 5];
  }
}
