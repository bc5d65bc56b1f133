// Reading self-delimiting encodings back off the front of a buffer.
module Codec {
  import opened Basics
  import opened Bytes

  datatype Read<+T> = Fail | Got(value: T, rest: Buffer)

  function ReadBytes(b: Buffer, n: nat): Read<Buffer> {
    if n <= |b| then Got(b[..n], b[n..]) else Fail
  }

  function EncodeAll<T>(encode: T -> Buffer, xs: seq<T>): Buffer {
    if xs == [] then [] else encode(xs[0]) + EncodeAll(encode, xs[1..])
  }

  function ReadMany<T>(read: Buffer -> Read<T>, n: nat, b: Buffer): Read<seq<T>> {
    if n == 0 then Got([], b)
    else
      var first := read(b);
      if first.Fail? then Fail
      else
        var others := ReadMany(read, n - 1, first.rest);
        if others.Fail? then Fail else Got([first.value] + others.value, others.rest)
  }

  // read undoes encode on x, whatever follows.
  ghost predicate Undoes<T>(read: Buffer -> Read<T>, encode: T -> Buffer, x: T) {
    forall rest :: read(encode(x) + rest) == Got(x, rest)
  }

  // A run of encodings, each undone by read, is undone as a whole.
  lemma {:induction false} ReadManyBack<T>(read: Buffer -> Read<T>, encode: T -> Buffer, xs: seq<T>, rest: Buffer)
    requires forall i :: 0 <= i < |xs| ==> Undoes(read, encode, xs[i])
    ensures ReadMany(read, |xs|, EncodeAll(encode, xs) + rest) == Got(xs, rest)
  {
    if xs == [] {
      assert [] + rest == rest;
    } else {
      ReadManyBack(read, encode, xs[1..], rest);
      assert EncodeAll(encode, xs) + rest == encode(xs[0]) + (EncodeAll(encode, xs[1..]) + rest);
      assert Undoes(read, encode, xs[0]);
      assert xs == [xs[0]] + xs[1..];
    }
  }

  lemma {:induction false} EncodeAllSnoc<T>(encode: T -> Buffer, xs: seq<T>, x: T)
    ensures EncodeAll(encode, xs + [x]) == EncodeAll(encode, xs) + encode(x)
  {
    if xs == [] {
      assert [] + [x] == [x] && encode(x) + [] == encode(x) && [] + encode(x) == encode(x);
    } else {
      EncodeAllSnoc(encode, xs[1..], x);
      assert (xs + [x])[1..] == xs[1..] + [x];
    }
  }

  lemma ReadBytesBack(part: Buffer, rest: Buffer)
    ensures ReadBytes(part + rest, |part|) == Got(part, rest)
  {
    assert (part + rest)[..|part|] == part && (part + rest)[|part|..] == rest;
  }
}
