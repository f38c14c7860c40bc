/** The eD2K wire formats: tags, login, offers, search results, server UDP source
    queries and replies, and TCP frames. */
module WireCodec {
  import opened Wrappers
  import opened Bytes

  // ----- Reading ---------------------------------------------------------------------

  /** What was read and what is left to read. */
  datatype Read<+T> = Read(value: T, rest: seq<Byte>)

  function Take(data: seq<Byte>, n: nat): (r: Result<Read<seq<Byte>>>)
    ensures r.Success? ==> |r.value.rest| <= |data|
  {
    if |data| < n then Failure("eD2K payload underrun") else Success(Read(data[..n], data[n..]))
  }

  function Number(data: seq<Byte>, n: nat): (r: Result<Read<nat>>)
    ensures r.Success? ==> |r.value.rest| <= |data|
  {
    var bytes :- Take(data, n);
    Success(Read(Value(bytes.value), bytes.rest))
  }

  lemma TakeBack(bytes: seq<Byte>, rest: seq<Byte>)
    ensures Take(bytes + rest, |bytes|) == Success(Read(bytes, rest))
  {
    assert (bytes + rest)[..|bytes|] == bytes && (bytes + rest)[|bytes|..] == rest;
  }

  lemma NumberBack(v: nat, n: nat, rest: seq<Byte>)
    requires v < Bound(n)
    ensures Number(Little(v, n) + rest, n) == Success(Read(v, rest))
  {
    TakeBack(Little(v, n), rest);
    LittleValue(v, n);
  }

  lemma NumberOf(bytes: seq<Byte>, rest: seq<Byte>)
    ensures Number(bytes + rest, |bytes|) == Success(Read(Value(bytes), rest))
  {
    TakeBack(bytes, rest);
  }

  /** `r` is what is left of `data` behind some bytes. */
  predicate Suffix(data: seq<Byte>, rest: seq<Byte>) {
    |rest| <= |data| && data[|data| - |rest|..] == rest
  }

  // ----- Tags ------------------------------------------------------------------------

  const TAG_SHORT_NAME := 0x80
  const TAGTYPE_HASH := 0x01
  const TAGTYPE_STRING := 0x02
  const TAGTYPE_UINT32 := 0x03
  const TAGTYPE_FLOAT32 := 0x04
  const TAGTYPE_BOOL := 0x05
  const TAGTYPE_BOOLARRAY := 0x06
  const TAGTYPE_BLOB := 0x07
  const TAGTYPE_UINT16 := 0x08
  const TAGTYPE_UINT8 := 0x09
  const TAGTYPE_BSOB := 0x0A
  const TAGTYPE_UINT64 := 0x0B
  const TAGTYPE_STR1_BASE := 0x10

  /** A name of one byte is its number, any other is text. */
  datatype TagName = Id(id: Byte) | LongName(text: seq<Byte>)

  /** Text and floats are kept as their bytes. */
  datatype TagValue =
    | Raw(bytes: seq<Byte>) | Text(text: seq<Byte>) | Float(bits: seq<Byte>) | Flag(b: bool) | Integer(n: nat)

  datatype Tag = Tag(name: TagName, value: TagValue)

  function ReadName(kind: Byte, data: seq<Byte>): (r: Result<Read<TagName>>)
    ensures r.Success? ==> |r.value.rest| <= |data|
  {
    if kind >= TAG_SHORT_NAME then
      var id :- Take(data, 1);
      Success(Read(Id(id.value[0]), id.rest))
    else
      var length :- Number(data, 2);
      var name :- Take(length.rest, length.value);
      Success(Read(if |name.value| == 1 then Id(name.value[0]) else LongName(name.value), name.rest))
  }

  function ReadRaw(data: seq<Byte>, n: nat): (r: Result<Read<TagValue>>)
    ensures r.Success? ==> |r.value.rest| <= |data|
  {
    var bytes :- Take(data, n);
    Success(Read(Raw(bytes.value), bytes.rest))
  }

  function ReadText(data: seq<Byte>, n: nat): (r: Result<Read<TagValue>>)
    ensures r.Success? ==> |r.value.rest| <= |data|
  {
    var bytes :- Take(data, n);
    Success(Read(Text(bytes.value), bytes.rest))
  }

  function ReadInteger(data: seq<Byte>, n: nat): (r: Result<Read<TagValue>>)
    ensures r.Success? ==> |r.value.rest| <= |data|
  {
    var v :- Number(data, n);
    Success(Read(Integer(v.value), v.rest))
  }

  function ReadValue(kind: nat, data: seq<Byte>): (r: Result<Read<TagValue>>)
    ensures r.Success? ==> |r.value.rest| <= |data|
  {
    if kind == TAGTYPE_HASH then ReadRaw(data, 16)
    else if kind == TAGTYPE_STRING then
      var length :- Number(data, 2);
      ReadText(length.rest, length.value)
    else if kind == TAGTYPE_UINT32 then ReadInteger(data, 4)
    else if kind == TAGTYPE_FLOAT32 then
      var bits :- Take(data, 4);
      Success(Read(Float(bits.value), bits.rest))
    else if kind == TAGTYPE_BOOL then
      var b :- Number(data, 1);
      Success(Read(Flag(b.value != 0), b.rest))
    else if kind == TAGTYPE_BOOLARRAY then
      var count :- Number(data, 2);
      ReadRaw(count.rest, (count.value + 7) / 8)
    else if kind == TAGTYPE_BLOB then
      var length :- Number(data, 4);
      ReadRaw(length.rest, length.value)
    else if kind == TAGTYPE_UINT16 then ReadInteger(data, 2)
    else if kind == TAGTYPE_UINT8 then ReadInteger(data, 1)
    else if kind == TAGTYPE_BSOB then
      var length :- Number(data, 1);
      ReadRaw(length.rest, length.value)
    else if kind == TAGTYPE_UINT64 then ReadInteger(data, 8)
    else if TAGTYPE_STR1_BASE + 1 <= kind <= TAGTYPE_STR1_BASE + 22 then ReadText(data, kind - TAGTYPE_STR1_BASE)
    else Failure("unsupported eD2K tag type")
  }

  function ReadTag(data: seq<Byte>): (r: Result<Read<Tag>>)
    ensures r.Success? ==> |r.value.rest| <= |data|
  {
    var kind :- Take(data, 1);
    var name :- ReadName(kind.value[0], kind.rest);
    var value :- ReadValue(kind.value[0] % TAG_SHORT_NAME, name.rest);
    Success(Read(Tag(name.value, value.value), value.rest))
  }

  /** Reads `n` tags, each with the bytes it was read from. */
  function ReadSlices(data: seq<Byte>, n: nat): Result<Read<seq<(Tag, seq<Byte>)>>> {
    if n == 0 then Success(Read([], data))
    else
      var front :- ReadSlices(data, n - 1);
      var tag :- ReadTag(front.rest);
      Success(Read(front.value + [(tag.value, front.rest[..|front.rest| - |tag.rest|])], tag.rest))
  }

  function DecodeTagSequence(payload: seq<Byte>, count: int): Result<seq<(Tag, seq<Byte>)>> {
    if !(0 <= count <= 255) then Failure("tag vector count must fit in u8")
    else
      var slices :- ReadSlices(payload, count);
      if slices.rest != [] then Failure("tag vector has trailing bytes") else Success(slices.value)
  }

  function ReadTags(data: seq<Byte>, n: nat): Result<Read<seq<Tag>>> {
    if n == 0 then Success(Read([], data))
    else
      var front :- ReadTags(data, n - 1);
      var tag :- ReadTag(front.rest);
      Success(Read(front.value + [tag.value], tag.rest))
  }

  function Joined(slices: seq<(Tag, seq<Byte>)>): seq<Byte> {
    if |slices| == 0 then [] else Joined(slices[..|slices| - 1]) + slices[|slices| - 1].1
  }

  // ----- What reading a tag depends on -------------------------------------------------

  lemma NameLocal(kind: Byte, data: seq<Byte>)
    requires ReadName(kind, data).Success?
    ensures
      var r := ReadName(kind, data).value;
      Suffix(data, r.rest)
      && forall rest: seq<Byte> :: ReadName(kind, data[..|data| - |r.rest|] + rest) == Success(Read(r.value, rest))
  {
    var r := ReadName(kind, data).value;
    var used := data[..|data| - |r.rest|];
    if kind >= TAG_SHORT_NAME {
      forall rest: seq<Byte>
        ensures ReadName(kind, used + rest) == Success(Read(r.value, rest))
      {
        TakeBack(used, rest);
      }
    } else {
      var h := data[..2];
      var t := data[2..][..Value(h)];
      assert used == h + t;
      forall rest: seq<Byte>
        ensures ReadName(kind, used + rest) == Success(Read(r.value, rest))
      {
        assert used + rest == h + (t + rest);
        NumberOf(h, t + rest);
        TakeBack(t, rest);
      }
    }
  }

  /** The bytes of the length in front of a value, if it has one. */
  function Prefix(kind: nat): nat {
    if kind == TAGTYPE_STRING || kind == TAGTYPE_BOOLARRAY then 2
    else if kind == TAGTYPE_BLOB then 4
    else if kind == TAGTYPE_BSOB then 1
    else 0
  }

  /** How many bytes a length in front of a value stands for. */
  function Extent(kind: nat, length: nat): nat {
    if kind == TAGTYPE_BOOLARRAY then (length + 7) / 8 else length
  }

  lemma PrefixedValue(kind: nat, data: seq<Byte>)
    requires Prefix(kind) > 0
    ensures
      var length := Number(data, Prefix(kind));
      ReadValue(kind, data)
      == if length.Failure? then length.PropagateFailure()
         else if kind == TAGTYPE_STRING then ReadText(length.value.rest, Extent(kind, length.value.value))
         else ReadRaw(length.value.rest, Extent(kind, length.value.value))
  {
    hide Number, ReadText, ReadRaw;
  }

  lemma PrefixedLocal(kind: nat, data: seq<Byte>, rest: seq<Byte>)
    requires ReadValue(kind, data).Success? && Prefix(kind) > 0
    ensures
      var r := ReadValue(kind, data).value;
      Suffix(data, r.rest) && ReadValue(kind, data[..|data| - |r.rest|] + rest) == Success(Read(r.value, rest))
  {
    hide Value, ReadValue, Extent, Prefix;
    var r, k := ReadValue(kind, data).value, Prefix(kind);
    var used := data[..|data| - |r.rest|];
    PrefixedValue(kind, data);
    PrefixedValue(kind, used + rest);
    var h, t := data[..k], data[k..][..|used| - k];
    assert used == h + t;
    assert used + rest == h + (t + rest);
    NumberOf(h, t + rest);
    TakeBack(t, rest);
  }

  lemma FixedLocal(kind: nat, data: seq<Byte>, rest: seq<Byte>)
    requires ReadValue(kind, data).Success? && Prefix(kind) == 0
    ensures
      var r := ReadValue(kind, data).value;
      Suffix(data, r.rest) && ReadValue(kind, data[..|data| - |r.rest|] + rest) == Success(Read(r.value, rest))
  {
    hide Value;
    var used := data[..|data| - |ReadValue(kind, data).value.rest|];
    TakeBack(used, rest);
    NumberOf(used, rest);
  }

  lemma ValueLocal(kind: nat, data: seq<Byte>)
    requires ReadValue(kind, data).Success?
    ensures
      var r := ReadValue(kind, data).value;
      Suffix(data, r.rest)
      && forall rest: seq<Byte> :: ReadValue(kind, data[..|data| - |r.rest|] + rest) == Success(Read(r.value, rest))
  {
    hide ReadValue;
    if Prefix(kind) > 0 {
      PrefixedLocal(kind, data, []);
    } else {
      FixedLocal(kind, data, []);
    }
    forall rest: seq<Byte>
      ensures ReadValue(kind, data[..|data| - |ReadValue(kind, data).value.rest|] + rest)
              == Success(Read(ReadValue(kind, data).value.value, rest))
    {
      if Prefix(kind) > 0 {
        PrefixedLocal(kind, data, rest);
      } else {
        FixedLocal(kind, data, rest);
      }
    }
  }

  lemma TagLocal(data: seq<Byte>)
    requires ReadTag(data).Success?
    ensures
      var r := ReadTag(data).value;
      Suffix(data, r.rest) && |r.rest| < |data|
      && forall rest: seq<Byte> :: ReadTag(data[..|data| - |r.rest|] + rest) == Success(Read(r.value, rest))
  {
    hide ReadName, ReadValue;
    var kind := data[0];
    NameLocal(kind, data[1..]);
    var name := ReadName(kind, data[1..]).value;
    ValueLocal(kind % TAG_SHORT_NAME, name.rest);
    var value := ReadValue(kind % TAG_SHORT_NAME, name.rest).value;
    var b, c := data[1..][..|data[1..]| - |name.rest|], name.rest[..|name.rest| - |value.rest|];
    assert data[..|data| - |value.rest|] == [kind] + (b + c);
    forall rest: seq<Byte>
      ensures ReadTag(data[..|data| - |value.rest|] + rest) == Success(Read(Tag(name.value, value.value), rest))
    {
      var all := data[..|data| - |value.rest|] + rest;
      assert all == [kind] + (b + (c + rest));
      TakeBack([kind], b + (c + rest));
      assert ReadName(kind, b + (c + rest)) == Success(Read(name.value, c + rest));
      assert ReadValue(kind % TAG_SHORT_NAME, c + rest) == Success(Read(value.value, rest));
    }
  }

  /** One tag split off: its bytes decode to it alone. */
  lemma SliceOfTag(data: seq<Byte>)
    requires ReadTag(data).Success?
    ensures
      var r := ReadTag(data).value;
      var slice := data[..|data| - |r.rest|];
      data == slice + r.rest && ReadTag(slice) == Success(Read(r.value, []))
  {
    hide ReadTag;
    TagLocal(data);
    var r := ReadTag(data).value;
    var slice := data[..|data| - |r.rest|];
    assert slice + [] == slice;
  }

  /** The slices of a decoded tag vector concatenate to its payload, and each one
      alone decodes to its tag. */
  lemma {:induction false} SlicesAreTheBytes(data: seq<Byte>, n: nat)
    requires ReadSlices(data, n).Success?
    ensures
      var r := ReadSlices(data, n).value;
      && |r.value| == n && data == Joined(r.value) + r.rest
      && forall i :: 0 <= i < n ==> ReadTag(r.value[i].1) == Success(Read(r.value[i].0, []))
  {
    hide ReadTag;
    if n > 0 {
      var front := ReadSlices(data, n - 1).value;
      SlicesAreTheBytes(data, n - 1);
      SliceOfTag(front.rest);
      var r := ReadSlices(data, n).value;
      assert r.value[..n - 1] == front.value;
      assert Joined(r.value) == Joined(front.value) + r.value[n - 1].1;
    }
  }

  lemma TagSequenceSlices(payload: seq<Byte>, count: int)
    ensures DecodeTagSequence(payload, count).Success? <==>
      0 <= count < 0x100 && ReadTags(payload, count).Success? && ReadTags(payload, count).value.rest == []
    ensures DecodeTagSequence(payload, count).Success? ==>
      var tags := DecodeTagSequence(payload, count).value;
      && |tags| == count && Joined(tags) == payload
      && forall i :: 0 <= i < |tags| ==> ReadTag(tags[i].1) == Success(Read(tags[i].0, []))
  {
    if 0 <= count {
      TagsAreSlices(payload, count);
    }
    if DecodeTagSequence(payload, count).Success? {
      SlicesAreTheBytes(payload, count);
    }
  }

  /** Reading the tags of a message is reading the same slices. */
  lemma {:induction false} TagsAreSlices(data: seq<Byte>, n: nat)
    ensures ReadTags(data, n).Success? <==> ReadSlices(data, n).Success?
    ensures ReadTags(data, n).Success? ==>
      && ReadTags(data, n).value.rest == ReadSlices(data, n).value.rest
      && |ReadTags(data, n).value.value| == n == |ReadSlices(data, n).value.value|
      && forall i :: 0 <= i < n ==> ReadTags(data, n).value.value[i] == ReadSlices(data, n).value.value[i].0
  {
    hide ReadTag;
    if n > 0 {
      TagsAreSlices(data, n - 1);
      if ReadTags(data, n - 1).Success? && ReadTag(ReadTags(data, n - 1).value.rest).Success? {
        TagLocal(ReadTags(data, n - 1).value.rest);
      }
    }
  }
}
