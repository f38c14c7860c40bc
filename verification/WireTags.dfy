/**
 Every wire form of a tag, written out, and the two directions between forms and
 reading: what is encoded reads back as itself, and nothing else is read.
 */
module WireTags {
  import opened Wrappers
  import opened Bytes
  import opened WireCodec

  // ----- Forms ---------------------------------------------------------------------------

  /** The forms a value can take. A truth value is any byte, a bit array says how many
      bits its octets hold, and a short string has its length in its kind. */
  datatype Form =
    | Hash | Str | Str1 | Float32 | Truth(byte: Byte) | BitArray(count: nat) | Blob | Bsob
    | U8 | U16 | U32 | U64

  /** The form can hold the value. */
  predicate Holds(f: Form, v: TagValue) {
    match f
    case Hash => v.Raw? && |v.bytes| == 16
    case Str => v.Text? && |v.text| < 0x1_0000
    case Str1 => v.Text? && 1 <= |v.text| <= 22
    case Float32 => v.Float? && |v.bits| == 4
    case Truth(b) => v == Flag(b != 0)
    case BitArray(count) => v.Raw? && count < 0x1_0000 && |v.bytes| == (count + 7) / 8
    case Blob => v.Raw? && |v.bytes| < 0x1_0000_0000
    case Bsob => v.Raw? && |v.bytes| < 0x100
    case U8 => v.Integer? && v.n < 0x100
    case U16 => v.Integer? && v.n < 0x1_0000
    case U32 => v.Integer? && v.n < 0x1_0000_0000
    case U64 => v.Integer? && v.n < 0x1_0000_0000_0000_0000
  }

  function KindOf(f: Form, v: TagValue): Byte
    requires Holds(f, v)
  {
    match f
    case Hash => 0x01
    case Str => 0x02
    case U32 => 0x03
    case Float32 => 0x04
    case Truth(_) => 0x05
    case BitArray(_) => 0x06
    case Blob => 0x07
    case U16 => 0x08
    case U8 => 0x09
    case Bsob => 0x0A
    case U64 => 0x0B
    case Str1 => 0x10 + |v.text|
  }

  function ValueBytes(f: Form, v: TagValue): seq<Byte>
    requires Holds(f, v)
  {
    match f
    case Hash => v.bytes
    case Str => Little(|v.text|, 2) + v.text
    case Str1 => v.text
    case Float32 => v.bits
    case Truth(b) => [b]
    case BitArray(count) => Little(count, 2) + v.bytes
    case Blob => Little(|v.bytes|, 4) + v.bytes
    case Bsob => Little(|v.bytes|, 1) + v.bytes
    case U8 => Little(v.n, 1)
    case U16 => Little(v.n, 2)
    case U32 => Little(v.n, 4)
    case U64 => Little(v.n, 8)
  }

  /** The name fits: a short name is one number, a long one says its own length, and one
      byte of text is read as a number. */
  predicate Spells(short: bool, name: TagName) {
    name.Id? || (!short && |name.text| != 1 && |name.text| < 0x1_0000)
  }

  /** The kind, with the high bit set for a short name, then the name. */
  function HeadBytes(short: bool, kind: Byte, name: TagName): seq<Byte>
    requires Spells(short, name) && kind < 0x80
  {
    if short then [0x80 + kind, name.id]
    else
      var text := if name.Id? then [name.id] else name.text;
      [kind] + Little(|text|, 2) + text
  }

  function TagBytes(short: bool, f: Form, t: Tag): seq<Byte>
    requires Spells(short, t.name) && Holds(f, t.value)
  {
    HeadBytes(short, KindOf(f, t.value), t.name) + ValueBytes(f, t.value)
  }

  // ----- What is encoded reads back ---------------------------------------------------------

  lemma LengthBack(bytes: seq<Byte>, length: nat, n: nat, rest: seq<Byte>)
    requires length < Bound(n)
    ensures Number(Little(length, n) + bytes + rest, n) == Success(Read(length, bytes + rest))
    ensures Take(bytes + rest, |bytes|) == Success(Read(bytes, rest))
  {
    assert Little(length, n) + bytes + rest == Little(length, n) + (bytes + rest);
    NumberBack(length, n, bytes + rest);
    TakeBack(bytes, rest);
  }

  lemma ValueBack(f: Form, v: TagValue, rest: seq<Byte>)
    requires Holds(f, v)
    ensures ReadValue(KindOf(f, v), ValueBytes(f, v) + rest) == Success(Read(v, rest))
  {
    hide Number, Take, Little, Value, Bound;
    Bounds();
    match f
    case Hash => TakeBack(v.bytes, rest);
    case Str => LengthBack(v.text, |v.text|, 2, rest);
    case Str1 => TakeBack(v.text, rest);
    case Float32 => TakeBack(v.bits, rest);
    case Truth(b) => OneByte(b, rest);
    case BitArray(count) => LengthBack(v.bytes, count, 2, rest);
    case Blob => LengthBack(v.bytes, |v.bytes|, 4, rest);
    case Bsob => LengthBack(v.bytes, |v.bytes|, 1, rest);
    case U8 => NumberBack(v.n, 1, rest);
    case U16 => NumberBack(v.n, 2, rest);
    case U32 => NumberBack(v.n, 4, rest);
    case U64 => NumberBack(v.n, 8, rest);
  }

  lemma OneByte(b: Byte, rest: seq<Byte>)
    ensures Number([b] + rest, 1) == Success(Read(b, rest))
  {
    NumberOf([b], rest);
    assert Value([b]) == b;
  }

  lemma HeadBack(short: bool, kind: Byte, name: TagName, rest: seq<Byte>)
    requires Spells(short, name) && kind < 0x80
    ensures
      var head := HeadBytes(short, kind, name);
      && |head| > 0 && head[0] % 0x80 == kind && (head[0] >= 0x80 <==> short)
      && ReadName(head[0], (head + rest)[1..]) == Success(Read(name, rest))
  {
    hide Number, Take, Little, Value, Bound;
    Bounds();
    var head := HeadBytes(short, kind, name);
    if short {
      assert (head + rest)[1..] == [name.id] + rest;
      TakeBack([name.id], rest);
    } else {
      var text := if name.Id? then [name.id] else name.text;
      assert (head + rest)[1..] == Little(|text|, 2) + text + rest;
      LengthBack(text, |text|, 2, rest);
    }
  }

  /** Every tag in every form that can hold it reads back as itself, whatever follows. */
  lemma TagRoundTrip(short: bool, f: Form, t: Tag, rest: seq<Byte>)
    requires Spells(short, t.name) && Holds(f, t.value)
    ensures ReadTag(TagBytes(short, f, t) + rest) == Success(Read(t, rest))
  {
    hide ReadName, ReadValue, HeadBytes, ValueBytes;
    var kind, tail := KindOf(f, t.value), ValueBytes(f, t.value) + rest;
    var data := TagBytes(short, f, t) + rest;
    HeadBack(short, kind, t.name, tail);
    ValueBack(f, t.value, rest);
    assert data == HeadBytes(short, kind, t.name) + tail;
    assert data == [data[0]] + data[1..];
    TakeBack([data[0]], data[1..]);
  }

  // ----- Nothing else is read ---------------------------------------------------------------

  lemma NumberPrinted(data: seq<Byte>, n: nat)
    requires Number(data, n).Success?
    ensures
      var r := Number(data, n).value;
      r.value < Bound(n) && data == Little(r.value, n) + r.rest
  {
    ValueLittle(data[..n]);
    assert data == data[..n] + data[n..];
  }

  /** The form a value of this kind was read in. */
  function FormOf(kind: nat, data: seq<Byte>): Form
    requires ReadValue(kind, data).Success?
  {
    match kind
    case 0x01 => Hash
    case 0x02 => Str
    case 0x03 => U32
    case 0x04 => Float32
    case 0x05 => Truth(data[0])
    case 0x06 => BitArray(Value(data[..2]))
    case 0x07 => Blob
    case 0x08 => U16
    case 0x09 => U8
    case 0x0A => Bsob
    case 0x0B => U64
    case _ => Str1
  }

  lemma TakePrinted(data: seq<Byte>, n: nat)
    requires Take(data, n).Success?
    ensures
      var r := Take(data, n).value;
      |r.value| == n && data == r.value + r.rest
  {
  }

  lemma PrefixedPrinted(kind: nat, data: seq<Byte>)
    requires ReadValue(kind, data).Success? && Prefix(kind) > 0
    ensures
      var r, f := ReadValue(kind, data).value, FormOf(kind, data);
      Holds(f, r.value) && KindOf(f, r.value) == kind && data == ValueBytes(f, r.value) + r.rest
  {
    hide Number, Take, Little, Value, Bound;
    Bounds();
    NumberPrinted(data, Prefix(kind));
    var length := Number(data, Prefix(kind)).value;
    TakePrinted(length.rest, Extent(kind, length.value));
    if kind == 0x06 {
      NumberIs(data, 2);
    }
    var r := ReadValue(kind, data).value;
    var bytes := if r.value.Text? then r.value.text else r.value.bytes;
    assert data == Little(length.value, Prefix(kind)) + bytes + r.rest;
  }

  lemma NumberIs(data: seq<Byte>, n: nat)
    requires Number(data, n).Success?
    ensures n <= |data| && Number(data, n).value.value == Value(data[..n])
  {
  }

  lemma FixedPrinted(kind: nat, data: seq<Byte>)
    requires ReadValue(kind, data).Success? && Prefix(kind) == 0
    ensures
      var r, f := ReadValue(kind, data).value, FormOf(kind, data);
      Holds(f, r.value) && KindOf(f, r.value) == kind && data == ValueBytes(f, r.value) + r.rest
  {
    hide Number, Take, Little, Value, Bound;
    Bounds();
    if kind == 0x01 {
      TakePrinted(data, 16);
    } else if kind == 0x04 {
      TakePrinted(data, 4);
    } else if kind == 0x05 {
      NumberIs(data, 1);
      OneByte(data[0], data[1..]);
      assert data == [data[0]] + data[1..];
    } else if kind == 0x03 {
      NumberPrinted(data, 4);
    } else if kind == 0x08 {
      NumberPrinted(data, 2);
    } else if kind == 0x09 {
      NumberPrinted(data, 1);
    } else if kind == 0x0B {
      NumberPrinted(data, 8);
    } else {
      TakePrinted(data, kind - 0x10);
    }
  }

  lemma NamePrinted(first: Byte, data: seq<Byte>)
    requires ReadName(first, data).Success?
    ensures
      var r := ReadName(first, data).value;
      Spells(first >= 0x80, r.value) && [first] + data == HeadBytes(first >= 0x80, first % 0x80, r.value) + r.rest
  {
    hide Number, Take, Little, Value, Bound;
    Bounds();
    if first >= 0x80 {
      TakePrinted(data, 1);
    } else {
      NumberPrinted(data, 2);
      var length := Number(data, 2).value;
      TakePrinted(length.rest, length.value);
    }
  }

  /** Whatever is read as a tag is one of these forms of it. */
  lemma TagPrinted(data: seq<Byte>) returns (short: bool, f: Form)
    requires ReadTag(data).Success?
    ensures
      var r := ReadTag(data).value;
      && Spells(short, r.value.name) && Holds(f, r.value.value)
      && data == TagBytes(short, f, r.value) + r.rest
  {
    hide ReadName, ReadValue, HeadBytes, ValueBytes, FormOf;
    var first, kind := data[0], data[0] % 0x80;
    NamePrinted(first, data[1..]);
    var name := ReadName(first, data[1..]).value;
    short, f := first >= 0x80, FormOf(kind, name.rest);
    if Prefix(kind) > 0 {
      PrefixedPrinted(kind, name.rest);
    } else {
      FixedPrinted(kind, name.rest);
    }
    assert data == [first] + data[1..];
  }
}
