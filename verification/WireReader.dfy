/** The bounded reader behind the decoders: one offset that moves forward. */
module WireReader {
  import opened Wrappers
  import opened Bytes
  import opened WireCodec

  class Reader {
    const data: seq<Byte>
    var offset: nat

    predicate Valid()
      reads this
    {
      offset <= |data|
    }

    function Rest(): seq<Byte>
      requires Valid()
      reads this
    {
      data[offset..]
    }

    constructor (data: seq<Byte>)
      ensures Valid() && this.data == data && Rest() == data
    {
      this.data, offset := data, 0;
    }

    /** After an underrun the reader has not moved. */
    method TakeBytes(n: nat) returns (r: Result<seq<Byte>>)
      requires Valid()
      modifies this
      ensures Valid() && r.Success? == Take(old(Rest()), n).Success?
      ensures r.Success? ==> Take(old(Rest()), n) == Success(Read(r.value, Rest()))
      ensures r.Failure? ==> offset == old(offset)
    {
      if |data| - offset < n {
        return Failure("eD2K payload underrun");
      }
      r := Success(data[offset..offset + n]);
      offset := offset + n;
      assert data[old(offset)..][..n] == r.value && data[old(offset)..][n..] == data[offset..];
    }

    method ReadNumber(n: nat) returns (r: Result<nat>)
      requires Valid()
      modifies this
      ensures Valid() && r.Success? == Number(old(Rest()), n).Success?
      ensures r.Success? ==> Number(old(Rest()), n) == Success(Read(r.value, Rest()))
    {
      var bytes := TakeBytes(n);
      r := if bytes.Success? then Success(Value(bytes.value)) else Failure(bytes.reason);
    }

    /** The value of one tag of a given type. */
    method DecodeValue(kind: nat) returns (r: Result<TagValue>)
      requires Valid()
      modifies this
      ensures Valid() && r.Success? == ReadValue(kind, old(Rest())).Success?
      ensures r.Success? ==> ReadValue(kind, old(Rest())) == Success(Read(r.value, Rest()))
    {
      hide Value;
      var size: nat := 0;
      if Prefix(kind) > 0 {
        var length := ReadNumber(Prefix(kind));
        if length.Failure? {
          return Failure(length.reason);
        }
        size := if kind == TAGTYPE_BOOLARRAY then (length.value + 7) / 8 else length.value;
      } else if kind == TAGTYPE_HASH {
        size := 16;
      } else if kind == TAGTYPE_UINT32 || kind == TAGTYPE_FLOAT32 {
        size := 4;
      } else if kind == TAGTYPE_BOOL || kind == TAGTYPE_UINT8 {
        size := 1;
      } else if kind == TAGTYPE_UINT16 {
        size := 2;
      } else if kind == TAGTYPE_UINT64 {
        size := 8;
      } else if TAGTYPE_STR1_BASE + 1 <= kind <= TAGTYPE_STR1_BASE + 22 {
        size := kind - TAGTYPE_STR1_BASE;
      } else {
        return Failure("unsupported eD2K tag type");
      }
      var bytes := TakeBytes(size);
      if bytes.Failure? {
        return Failure(bytes.reason);
      }
      var b := bytes.value;
      if kind == TAGTYPE_FLOAT32 {
        r := Success(Float(b));
      } else if kind == TAGTYPE_BOOL {
        r := Success(Flag(Value(b) != 0));
      } else if kind == TAGTYPE_UINT32 || kind == TAGTYPE_UINT16 || kind == TAGTYPE_UINT8 || kind == TAGTYPE_UINT64 {
        r := Success(Integer(Value(b)));
      } else if kind == TAGTYPE_STRING || kind > TAGTYPE_STR1_BASE {
        r := Success(Text(b));
      } else {
        r := Success(Raw(b));
      }
    }

    method DecodeName(kind: Byte) returns (r: Result<TagName>)
      requires Valid()
      modifies this
      ensures Valid() && r.Success? == ReadName(kind, old(Rest())).Success?
      ensures r.Success? ==> ReadName(kind, old(Rest())) == Success(Read(r.value, Rest()))
    {
      hide Value;
      if kind >= TAG_SHORT_NAME {
        var id := TakeBytes(1);
        return if id.Success? then Success(Id(id.value[0])) else Failure(id.reason);
      }
      var length := ReadNumber(2);
      if length.Failure? {
        return Failure(length.reason);
      }
      var name := TakeBytes(length.value);
      if name.Failure? {
        return Failure(name.reason);
      }
      r := Success(if |name.value| == 1 then Id(name.value[0]) else LongName(name.value));
    }

    method DecodeTag() returns (r: Result<Tag>)
      requires Valid()
      modifies this
      ensures Valid() && r.Success? == ReadTag(old(Rest())).Success?
      ensures r.Success? ==> ReadTag(old(Rest())) == Success(Read(r.value, Rest()))
    {
      hide ReadName, ReadValue;
      var kind := TakeBytes(1);
      if kind.Failure? {
        return Failure(kind.reason);
      }
      var name := DecodeName(kind.value[0]);
      if name.Failure? {
        return Failure(name.reason);
      }
      var value := DecodeValue(kind.value[0] % TAG_SHORT_NAME);
      if value.Failure? {
        return Failure(value.reason);
      }
      r := Success(Tag(name.value, value.value));
    }
  }

  lemma {:induction false} SlicesFailEarly(data: seq<Byte>, i: nat, n: nat)
    requires i <= n && ReadSlices(data, i).Failure?
    ensures ReadSlices(data, n).Failure?
  {
    hide ReadTag;
    if i < n {
      SlicesFailEarly(data, i, n - 1);
    }
  }

  lemma NoSlices(data: seq<Byte>)
    ensures ReadSlices(data, 0) == Success(Read([], data))
  {
  }

  lemma NoNextSlice(data: seq<Byte>, i: nat)
    requires ReadSlices(data, i).Success? && ReadTag(ReadSlices(data, i).value.rest).Failure?
    ensures ReadSlices(data, i + 1).Failure?
  {
    hide ReadTag;
  }

  lemma NextSlice(data: seq<Byte>, i: nat, tags: seq<(Tag, seq<Byte>)>, rest: seq<Byte>)
    requires ReadSlices(data, i) == Success(Read(tags, rest)) && ReadTag(rest).Success?
    ensures
      var t := ReadTag(rest).value;
      ReadSlices(data, i + 1) == Success(Read(tags + [(t.value, rest[..|rest| - |t.rest|])], t.rest))
  {
    hide ReadTag;
  }

  lemma VectorRead(payload: seq<Byte>, count: int, tags: seq<(Tag, seq<Byte>)>, rest: seq<Byte>)
    requires 0 <= count <= 255 && ReadSlices(payload, count) == Success(Read(tags, rest))
    ensures DecodeTagSequence(payload, count).Success? <==> rest == []
    ensures rest == [] ==> DecodeTagSequence(payload, count) == Success(tags)
  {
  }

  lemma VectorFailed(payload: seq<Byte>, count: int)
    requires 0 <= count <= 255 && ReadSlices(payload, count).Failure?
    ensures DecodeTagSequence(payload, count).Failure?
  {
  }

  /** Reads tags one by one, each with its own bytes, and what is left behind them. */
  method ReadVector(payload: seq<Byte>, count: nat) returns (ok: bool, tags: seq<(Tag, seq<Byte>)>, rest: seq<Byte>)
    ensures ok == ReadSlices(payload, count).Success?
    ensures ok ==> ReadSlices(payload, count) == Success(Read(tags, rest))
  {
    hide ReadTag, ReadSlices;
    var reader := new Reader(payload);
    ok, tags, rest := true, [], payload;
    NoSlices(payload);
    for i := 0 to count
      invariant reader.Valid() && reader.data == payload && rest == reader.Rest()
      invariant ReadSlices(payload, i) == Success(Read(tags, rest))
    {
      var tag := reader.DecodeTag();
      if tag.Failure? {
        NoNextSlice(payload, i);
        SlicesFailEarly(payload, i + 1, count);
        return false, tags, rest;
      }
      NextSlice(payload, i, tags, rest);
      tags := tags + [(tag.value, rest[..|rest| - |reader.Rest()|])];
      rest := reader.Rest();
    }
  }

  /** The tag vector of a payload, with no byte left behind it. */
  method DecodeVector(payload: seq<Byte>, count: int) returns (r: Result<seq<(Tag, seq<Byte>)>>)
    ensures r.Success? == DecodeTagSequence(payload, count).Success?
    ensures r.Success? ==> r == DecodeTagSequence(payload, count) && Joined(r.value) == payload
  {
    if !(0 <= count <= 255) {
      return Failure("tag vector count must fit in u8");
    }
    hide ReadTag, ReadSlices, DecodeTagSequence, Joined;
    var ok, tags, rest := ReadVector(payload, count);
    if !ok {
      VectorFailed(payload, count);
      return Failure("eD2K payload underrun");
    }
    VectorRead(payload, count, tags, rest);
    if rest != [] {
      return Failure("tag vector has trailing bytes");
    }
    r := Success(tags);
    TagSequenceSlices(payload, count);
  }
}
