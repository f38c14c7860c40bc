/** eD2K TCP frames over a stream that delivers them in arbitrary pieces. */
module Frames {
  import opened Wrappers
  import opened Bytes
  import opened WireMessages

  datatype Frame = Frame(opcode: Byte, payload: seq<Byte>)

  function EncodeFrame(opcode: int, payload: seq<Byte>): Result<seq<Byte>> {
    if !(0 <= opcode < 256) then Failure("opcode must fit in one byte")
    else
      var length :- Packed(|payload| + 1, 4);
      var code: Byte := opcode;
      Success([PROTO_EDONKEY] + length + [code] + payload)
  }

  /** Exactly one complete clear frame; packed frames are not modelled. */
  function DecodeFrame(data: seq<Byte>): Result<Frame> {
    if |data| < 6 then Failure("shorter than its six-byte header")
    else if data[0] != PROTO_EDONKEY then Failure("unsupported protocol marker")
    else
      var declared := Value(data[1..5]);
      if declared < 1 || declared > MAX_FRAME_BYTES then Failure("invalid frame length")
      else if |data| != declared + 5 then Failure("frame length mismatch")
      else Success(Frame(data[5], data[6..]))
  }

  predicate Sendable(f: Frame) {
    |f.payload| < 8_000_000
  }

  lemma FrameFields(f: Frame)
    requires |f.payload| + 1 < GIB4
    ensures
      var data := EncodeFrame(f.opcode, f.payload);
      && data.Success? && |data.value| == |f.payload| + 6
      && data.value[0] == PROTO_EDONKEY && Value(data.value[1..5]) == |f.payload| + 1
      && data.value[5] == f.opcode && data.value[6..] == f.payload
  {
    Bounds();
    var data := EncodeFrame(f.opcode, f.payload).value;
    LittleValue(|f.payload| + 1, 4);
    assert data[1..5] == Little(|f.payload| + 1, 4);
  }

  /** A frame decodes back exactly when its payload is within the limit. */
  lemma FrameRoundTrip(f: Frame)
    requires |f.payload| + 1 < GIB4
    ensures EncodeFrame(f.opcode, f.payload).Success?
    ensures
      var back := DecodeFrame(EncodeFrame(f.opcode, f.payload).value);
      if Sendable(f) then back == Success(f) else back.Failure?
  {
    FrameFields(f);
  }

  /** An accepted frame is the one encoding of its fields. */
  lemma FramePrinted(data: seq<Byte>)
    requires DecodeFrame(data).Success?
    ensures
      var f := DecodeFrame(data).value;
      && |f.payload| < 8_000_000 && EncodeFrame(f.opcode, f.payload) == Success(data)
      && data == [0xE3] + Little(|f.payload| + 1, 4) + [f.opcode] + f.payload
  {
    Bounds();
    ValueLittle(data[1..5]);
    assert data == [PROTO_EDONKEY] + data[1..5] + [data[5]] + data[6..];
  }

  function StreamOf(fs: seq<Frame>): seq<Byte>
    requires forall i :: 0 <= i < |fs| ==> Sendable(fs[i])
  {
    if |fs| == 0 then []
    else
      var f := fs[0];
      assert Sendable(f);
      FrameFields(f);
      EncodeFrame(f.opcode, f.payload).value + StreamOf(fs[1..])
  }

  /** The receiving end of a connection: what is still to arrive. */
  class Socket {
    ghost var pending: seq<Byte>
    /** What the network has buffered; its extent is up to the network. */
    var buffered: seq<Byte>

    ghost predicate Valid()
      reads this
    {
      buffered == pending
    }

    constructor (arriving: seq<Byte>)
      ensures Valid() && pending == arriving
    {
      pending, buffered := arriving, arriving;
    }

    /** Some non-empty part of what arrives next, at most `limit` bytes of it;
        nothing once the peer has closed. */
    method Recv(limit: nat) returns (chunk: seq<Byte>)
      requires Valid() && limit > 0
      modifies this
      ensures Valid() && old(pending) == chunk + pending && |chunk| <= limit
      ensures chunk == [] <==> old(pending) == []
    {
      if buffered == [] {
        return [];
      }
      var n: int := *;
      if n < 1 {
        n := 1;
      }
      if n > limit {
        n := limit;
      }
      if n > |buffered| {
        n := |buffered|;
      }
      chunk, buffered := buffered[..n], buffered[n..];
      pending := pending[n..];
    }

    /** Exactly `size` bytes, however they are cut up; fails if fewer arrive. */
    method RecvExact(size: nat) returns (r: Result<seq<Byte>>)
      requires Valid()
      modifies this
      ensures Valid() && r.Success? == (size <= |old(pending)|)
      ensures r.Success? ==> r.value == old(pending)[..size] && pending == old(pending)[size..]
    {
      var data: seq<Byte> := [];
      while |data| < size
        invariant Valid() && |data| <= size && old(pending) == data + pending
        decreases size - |data|
      {
        var chunk := Recv(size - |data|);
        if chunk == [] {
          return Failure("connection closed with frame bytes outstanding");
        }
        data := data + chunk;
      }
      r := Success(data);
    }

    /** The next frame of the stream. */
    method Receive() returns (r: Result<Frame>)
      requires Valid()
      modifies this
      ensures Valid()
      ensures forall f: Frame, rest: seq<Byte> ::
        && Sendable(f) && EncodeFrame(f.opcode, f.payload).Success?
        && old(pending) == EncodeFrame(f.opcode, f.payload).value + rest ==>
          r == Success(f) && pending == rest
      ensures r.Success? ==> EncodeFrame(r.value.opcode, r.value.payload).Success?
                             && old(pending) == EncodeFrame(r.value.opcode, r.value.payload).value + pending
    {
      hide Value, Little;
      var header := RecvExact(6);
      if header.Failure? {
        forall f: Frame | Sendable(f) {
          FrameFields(f);
        }
        return Failure(header.reason);
      }
      var declared := Value(header.value[1..5]);
      forall f: Frame, rest: seq<Byte> |
          Sendable(f) && EncodeFrame(f.opcode, f.payload).Success? && old(pending)
            == EncodeFrame(f.opcode, f.payload).value + rest
        ensures declared == |f.payload| + 1 && |old(pending)| >= declared + 5
        ensures old(pending)[..declared + 5] == EncodeFrame(f.opcode, f.payload).value
        ensures old(pending)[declared + 5..] == rest
        ensures DecodeFrame(EncodeFrame(f.opcode, f.payload).value) == Success(f)
      {
        FrameFields(f);
        FrameRoundTrip(f);
        assert header.value[1..5] == EncodeFrame(f.opcode, f.payload).value[1..5];
      }
      if declared < 1 || declared > MAX_FRAME_BYTES {
        return Failure("invalid frame length");
      }
      var body := RecvExact(declared - 1);
      if body.Failure? {
        return Failure(body.reason);
      }
      var data := header.value + body.value;
      assert data == old(pending)[..declared + 5];
      r := DecodeFrame(data);
      if r.Success? {
        FramePrinted(data);
      }
    }

    /** Any number of frames within the limit is received in order from any
        chunking of their concatenation, and nothing behind them is touched. */
    method ReceiveAll(ghost fs: seq<Frame>, n: nat, ghost rest: seq<Byte>) returns (got: seq<Frame>)
      requires Valid() && n == |fs| && forall i :: 0 <= i < |fs| ==> Sendable(fs[i])
      requires pending == StreamOf(fs) + rest
      modifies this
      ensures Valid() && got == fs && pending == rest
    {
      got := [];
      for i := 0 to n
        invariant Valid() && got == fs[..i] && pending == StreamOf(fs[i..]) + rest
      {
        hide EncodeFrame;
        ghost var f := fs[i];
        assert Sendable(f);
        FrameFields(f);
        assert fs[i..][1..] == fs[i + 1..];
        assert pending == EncodeFrame(f.opcode, f.payload).value + (StreamOf(fs[i + 1..]) + rest);
        var r := Receive();
        got := got + [r.value];
      }
    }
  }
}
