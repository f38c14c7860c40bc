/** The part-status bitmap of client-UDP requests and acknowledgements. */
module PartStatus {
  import opened Wrappers
  import opened Bytes
  import opened Division

  // ----- Bits of one byte ----------------------------------------------------------

  function Digit(c: char): nat {
    if c == '1' then 1 else 0
  }

  /** The integer whose bits are the characters, lowest first. */
  function Pack(bits: string): nat {
    if |bits| == 0 then 0 else Digit(bits[0]) + 2 * Pack(bits[1..])
  }

  function Bit(b: nat, k: nat): bool {
    if k == 0 then b % 2 == 1 else Bit(b / 2, k - 1)
  }

  predicate IsBits(s: string) {
    forall i :: 0 <= i < |s| ==> s[i] == '0' || s[i] == '1'
  }

  lemma {:induction false} PackBound(bits: string)
    ensures Pack(bits) < Pow2(|bits|)
  {
    if |bits| > 0 {
      PackBound(bits[1..]);
    }
  }

  lemma {:induction false} PackedBit(bits: string, k: nat)
    requires IsBits(bits) && k < |bits|
    ensures Bit(Pack(bits), k) <==> bits[k] == '1'
  {
    if k > 0 {
      PackedBit(bits[1..], k - 1);
      assert Pack(bits) / 2 == Pack(bits[1..]);
    }
  }

  /** Setting the next bit adds its weight. */
  lemma {:induction false} PackNext(bits: string, c: char)
    ensures Pack(bits + [c]) == Pack(bits) + Digit(c) * Pow2(|bits|)
  {
    if |bits| > 0 {
      assert (bits + [c])[1..] == bits[1..] + [c];
      PackNext(bits[1..], c);
      assert 2 * (Digit(c) * Pow2(|bits| - 1)) == Digit(c) * Pow2(|bits|);
    }
  }

  /** A byte is its first `n` bits when nothing lies above them. */
  lemma {:induction false} BitsDecide(b: nat, bits: string)
    requires b < Pow2(|bits|) && IsBits(bits)
    requires forall k :: 0 <= k < |bits| ==> (Bit(b, k) <==> bits[k] == '1')
    ensures b == Pack(bits)
  {
    if |bits| > 0 {
      assert Bit(b, 0) <==> bits[0] == '1';
      forall k | 0 <= k < |bits| - 1
        ensures Bit(b / 2, k) <==> bits[1..][k] == '1'
      {
        assert Bit(b, k + 1) <==> bits[k + 1] == '1';
      }
      BitsDecide(b / 2, bits[1..]);
    }
  }

  lemma EightBits()
    ensures Pow2(8) == 256
  {
    assert Pow2(1) == 2 && Pow2(2) == 4 && Pow2(3) == 8 && Pow2(4) == 16;
    assert Pow2(5) == 32 && Pow2(6) == 64 && Pow2(7) == 128;
  }

  lemma {:induction false} PowGrows(a: nat, b: nat)
    requires a <= b
    ensures Pow2(a) <= Pow2(b)
  {
    if a < b {
      PowGrows(a, b - 1);
    }
  }

  // ----- The bitmap ------------------------------------------------------------------

  function Octets(count: nat): nat {
    (count + 7) / 8
  }

  /** The bits of octet `j`. */
  function Slice(bits: string, j: nat): string
    requires j < Octets(|bits|)
  {
    bits[8 * j..if 8 * j + 8 <= |bits| then 8 * j + 8 else |bits|]
  }

  function Octet(bits: string, j: nat): Byte
    requires j < Octets(|bits|)
  {
    PackBound(Slice(bits, j));
    EightBits();
    PowGrows(|Slice(bits, j)|, 8);
    Pack(Slice(bits, j))
  }

  function Bitmap(bits: string): (bitmap: seq<Byte>)
    ensures |bitmap| == Octets(|bits|)
  {
    seq(Octets(|bits|), j requires 0 <= j < Octets(|bits|) => Octet(bits, j))
  }

  /** `None` means the source has every part. */
  datatype PartStatus = PartStatus(count: nat, bits: Option<string>, complete: bool)

  function Encode(bits: Option<string>): Result<seq<Byte>> {
    if bits.None? then Success([0, 0])
    else if !IsBits(bits.value) || |bits.value| > 0xFFFF then Failure("invalid part-status bits")
    else Success(Little(|bits.value|, 2) + Bitmap(bits.value))
  }

  function BitsOf(bitmap: seq<Byte>, count: nat): (bits: string)
    requires |bitmap| == Octets(count)
    ensures |bits| == count && IsBits(bits)
  {
    seq(count, i requires 0 <= i < count => if Bit(bitmap[i / 8], i % 8) then '1' else '0')
  }

  function Decode(data: seq<Byte>, offset: nat): Result<(PartStatus, nat)> {
    if |data| < offset + 2 then Failure("short part-status header")
    else
      var count, start := Value(data[offset..offset + 2]), offset + 2;
      var end := start + Octets(count);
      if |data| < end then Failure("short part-status bitmap")
      else
        var bitmap := data[start..end];
        if count % 8 != 0 && bitmap[|bitmap| - 1] / Pow2(count % 8) != 0 then
          Failure("non-zero part-status padding bits")
        else
          Success((PartStatus(count, if count > 0 then Some(BitsOf(bitmap, count)) else None, count == 0), end))
  }

  // ----- Round trips -------------------------------------------------------------------

  lemma BitmapBits(bits: string)
    requires IsBits(bits)
    ensures BitsOf(Bitmap(bits), |bits|) == bits
  {
    forall i | 0 <= i < |bits|
      ensures BitsOf(Bitmap(bits), |bits|)[i] == bits[i]
    {
      var j := i / 8;
      assert i == 8 * j + i % 8;
      assert IsBits(Slice(bits, j));
      PackedBit(Slice(bits, j), i % 8);
    }
  }

  lemma BitmapPadding(bits: string)
    requires |bits| % 8 != 0
    ensures Bitmap(bits)[Octets(|bits|) - 1] / Pow2(|bits| % 8) == 0
  {
    hide Pack, Pow2;
    var j := Octets(|bits|) - 1;
    assert |bits| == 8 * j + |bits| % 8;
    assert |Slice(bits, j)| == |bits| % 8;
    PackBound(Slice(bits, j));
    QuotientOfSmall(Bitmap(bits)[j], Pow2(|bits| % 8));
  }

  lemma QuotientOfSmall(a: nat, b: nat)
    requires a < b
    ensures a / b == 0
  {
  }

  lemma CountRoundTrip(count: nat)
    requires count <= 0xFFFF
    ensures Value(Little(count, 2)) == count
  {
    Bounds();
    LittleValue(count, 2);
  }

  /** Decoding an encoding found anywhere in a datagram gives the bits back and
      ends exactly behind it, except that the empty string reads as no bits. */
  lemma DecodeEncode(before: seq<Byte>, bits: Option<string>, rest: seq<Byte>)
    requires Encode(bits).Success?
    ensures
      var encoded := Encode(bits).value;
      var count := if bits.None? then 0 else |bits.value|;
      Decode(before + encoded + rest, |before|)
      == Success((PartStatus(count, if bits == Some("") then None else bits, count == 0), |before| + |encoded|))
  {
    hide Value, Little, Bitmap, BitsOf, Pow2;
    var encoded := Encode(bits).value;
    var data, offset := before + encoded + rest, |before|;
    var text := if bits.None? then "" else bits.value;
    CountRoundTrip(|text|);
    NothingEncoded();
    assert encoded == Little(|text|, 2) + Bitmap(text);
    assert data[offset..offset + 2] == Little(|text|, 2);
    assert data[offset + 2..offset + 2 + Octets(|text|)] == Bitmap(text);
    if |text| % 8 != 0 {
      BitmapPadding(text);
    }
    if |text| > 0 {
      BitmapBits(text);
    }
  }

  lemma NothingEncoded()
    ensures Little(0, 2) == [0, 0] && Bitmap("") == []
  {
    assert Little(0, 1) == [0];
  }

  /** Decoding is a left inverse of encoding on everything but the empty string. */
  lemma RoundTripExactly(bits: Option<string>)
    requires Encode(bits).Success?
    ensures Decode(Encode(bits).value, 0).Success?
    ensures Decode(Encode(bits).value, 0).value.0.bits == bits <==> bits != Some("")
  {
    DecodeEncode([], bits, []);
    assert [] + Encode(bits).value + [] == Encode(bits).value;
  }

  lemma OctetFromBits(bitmap: seq<Byte>, count: nat, j: nat)
    requires |bitmap| == Octets(count) && j < |bitmap|
    requires count % 8 != 0 ==> bitmap[|bitmap| - 1] / Pow2(count % 8) == 0
    ensures Octet(BitsOf(bitmap, count), j) == bitmap[j]
  {
    var bits := BitsOf(bitmap, count);
    var slice := Slice(bits, j);
    assert IsBits(slice);
    EightBits();
    forall k | 0 <= k < |slice|
      ensures Bit(bitmap[j], k) <==> slice[k] == '1'
    {
      DivModUnique(8, j, k);
      assert slice[k] == bits[8 * j + k];
    }
    if |slice| < 8 {
      DivModUnique(8, j, |slice|);
      assert count == 8 * j + |slice|;
      SmallQuotient(bitmap[j], Pow2(|slice|));
    }
    BitsDecide(bitmap[j], slice);
  }

  lemma SmallQuotient(a: nat, b: nat)
    requires b > 0 && a / b == 0
    ensures a < b
  {
  }

  /** Whatever is accepted is exactly what encoding its bits produces. */
  lemma EncodeDecode(data: seq<Byte>, offset: nat)
    requires Decode(data, offset).Success?
    ensures
      var (p, end) := Decode(data, offset).value;
      offset + 2 <= end <= |data| && Encode(p.bits) == Success(data[offset..end])
  {
    var (p, end) := Decode(data, offset).value;
    var header, bitmap := data[offset..offset + 2], data[offset + 2..end];
    Bounds();
    ValueLittle(header);
    assert data[offset..end] == header + bitmap;
    if p.count > 0 {
      assert Bitmap(p.bits.value) == bitmap by {
        forall j | 0 <= j < |bitmap|
          ensures Bitmap(p.bits.value)[j] == bitmap[j]
        {
          OctetFromBits(bitmap, p.count, j);
        }
      }
    } else {
      assert bitmap == [];
      NothingEncoded();
    }
  }

  // ----- Encoding in place ----------------------------------------------------------------

  /** A byte with bit `k` switched on. */
  function SetBit(b: nat, k: nat): nat {
    if Bit(b, k) then b else b + Pow2(k)
  }

  lemma {:induction false} HighBitClear(b: nat, k: nat)
    requires b < Pow2(k)
    ensures !Bit(b, k)
  {
    if k > 0 {
      HighBitClear(b / 2, k - 1);
    }
  }

  /** The bits of octet `j` among the first `n`. */
  function Done(bits: string, j: nat, n: nat): string
    requires n <= |bits|
  {
    if 8 * j >= n then "" else bits[8 * j..if 8 * j + 8 <= n then 8 * j + 8 else n]
  }

  lemma OctetFits(bits: string, j: nat, n: nat)
    requires n <= |bits|
    ensures Pack(Done(bits, j, n)) < 256
  {
    PackBound(Done(bits, j, n));
    EightBits();
    PowGrows(|Done(bits, j, n)|, 8);
  }

  lemma DoneNext(bits: string, j: nat, n: nat)
    requires n < |bits| && IsBits(bits)
    ensures
      Pack(Done(bits, j, n + 1))
      == if j == n / 8 && bits[n] == '1' then SetBit(Pack(Done(bits, j, n)), n % 8) else Pack(Done(bits, j, n))
  {
    assert n == 8 * (n / 8) + n % 8;
    if j == n / 8 {
      var slice := Done(bits, j, n);
      assert |slice| == n % 8;
      assert Done(bits, j, n + 1) == slice + [bits[n]];
      PackNext(slice, bits[n]);
      PackBound(slice);
      HighBitClear(Pack(slice), |slice|);
      if bits[n] == '1' {
        assert Digit(bits[n]) * Pow2(|slice|) == Pow2(|slice|);
      } else {
        assert Digit(bits[n]) * Pow2(|slice|) == 0;
      }
    }
  }

  method EncodePartStatus(bits: Option<string>) returns (r: Result<seq<Byte>>)
    ensures r == Encode(bits)
  {
    if bits.None? {
      return Success([0, 0]);
    }
    var text := bits.value;
    if !IsBits(text) || |text| > 0xFFFF {
      return Failure("invalid part-status bits");
    }
    var encoded := new Byte[Octets(|text|)](_ => 0);
    for index := 0 to |text|
      invariant forall j :: 0 <= j < encoded.Length ==> encoded[j] == Pack(Done(text, j, index))
    {
      forall j | 0 <= j < encoded.Length
        ensures Pack(Done(text, j, index + 1))
                == if j == index / 8 && text[index] == '1' then SetBit(Pack(Done(text, j, index)), index % 8)
                  else Pack(Done(text, j, index))
      {
        DoneNext(text, j, index);
      }
      if text[index] == '1' {
        OctetFits(text, index / 8, index + 1);
        encoded[index / 8] := SetBit(encoded[index / 8], index % 8);
      }
    }
    assert encoded[..] == Bitmap(text) by {
      forall j | 0 <= j < encoded.Length
        ensures encoded[j] == Octet(text, j)
      {
        assert Done(text, j, |text|) == Slice(text, j);
      }
    }
    r := Success(Little(|text|, 2) + encoded[..]);
  }

  // ----- Requests and acknowledgements -----------------------------------------------------

  const OP_EMULEPROT: Byte := 0xC5
  const OP_REASKFILEPING: Byte := 0x90
  const OP_REASKACK: Byte := 0x91

  datatype Request = Request(fileHash: seq<Byte>, partStatus: Option<PartStatus>, completeSources: Option<nat>)

  datatype Ack = Ack(partStatus: Option<PartStatus>, queueRank: nat)

  predicate Version(v: int) {
    1 <= v < 5
  }

  /** The part status of protocol versions above three. */
  function DecodeOptional(raw: seq<Byte>, offset: nat, present: bool): Result<(Option<PartStatus>, nat)> {
    if !present then Success((None, offset))
    else
      var decoded :- Decode(raw, offset);
      Success((Some(decoded.0), decoded.1))
  }

  function DecodeRequest(raw: seq<Byte>, version: int): Result<Request> {
    if !Version(version) then Failure("unsupported client-UDP version")
    else if |raw| < 18 || raw[..2] != [OP_EMULEPROT, OP_REASKFILEPING] then Failure("not an OP_REASKFILEPING frame")
    else
      var status :- DecodeOptional(raw, 18, version > 3);
      if version <= 2 then
        if |raw| != status.1 then Failure("unexpected OP_REASKFILEPING tail")
        else Success(Request(raw[2..18], status.0, None))
      else if |raw| < status.1 + 2 then Failure("short OP_REASKFILEPING complete-source count")
      else if |raw| != status.1 + 2 then Failure("unexpected OP_REASKFILEPING tail")
      else Success(Request(raw[2..18], status.0, Some(Value(raw[status.1..status.1 + 2]))))
  }

  function DecodeAck(raw: seq<Byte>, version: int): Result<Ack> {
    if !Version(version) then Failure("unsupported client-UDP version")
    else if |raw| < 4 || raw[..2] != [OP_EMULEPROT, OP_REASKACK] then Failure("not an OP_REASKACK frame")
    else
      var status :- DecodeOptional(raw, 2, version > 3);
      if |raw| != status.1 + 2 then Failure("unexpected OP_REASKACK tail")
      else
        var rank := Value(raw[status.1..status.1 + 2]);
        if rank == 0 then Failure("queue rank must be non-zero") else Success(Ack(status.0, rank))
  }

  // ----- Their exact wire forms ---------------------------------------------------------------

  predicate WellFormedStatus(p: PartStatus) {
    && p.complete == (p.count == 0) && p.bits != Some("")
    && p.count == (if p.bits.None? then 0 else |p.bits.value|)
    && Encode(p.bits).Success?
  }

  /** The bytes of an optional part status. */
  function StatusBytes(p: Option<PartStatus>): seq<Byte>
    requires p.Some? ==> WellFormedStatus(p.value)
  {
    if p.None? then [] else Encode(p.value.bits).value
  }

  predicate WellFormedRequest(r: Request, version: int) {
    && 1 <= version <= 4 && |r.fileHash| == 16
    && (r.partStatus.Some? <==> version > 3) && (r.partStatus.Some? ==> WellFormedStatus(r.partStatus.value))
    && (r.completeSources.Some? <==> version > 2) && (r.completeSources.Some? ==> r.completeSources.value < KIB64)
  }

  function RequestBytes(r: Request, version: int): seq<Byte>
    requires WellFormedRequest(r, version)
  {
    [0xC5, 0x90] + r.fileHash + StatusBytes(r.partStatus)
    + (if r.completeSources.Some? then Little(r.completeSources.value, 2) else [])
  }

  predicate WellFormedAck(a: Ack, version: int) {
    && 1 <= version <= 4 && 0 < a.queueRank < KIB64
    && (a.partStatus.Some? <==> version > 3) && (a.partStatus.Some? ==> WellFormedStatus(a.partStatus.value))
  }

  function AckBytes(a: Ack, version: int): seq<Byte>
    requires WellFormedAck(a, version)
  {
    [0xC5, 0x91] + StatusBytes(a.partStatus) + Little(a.queueRank, 2)
  }

  /** A part status found in a datagram is well formed and its bytes are its encoding. */
  lemma StatusParsed(raw: seq<Byte>, offset: nat, present: bool)
    requires offset <= |raw| && DecodeOptional(raw, offset, present).Success?
    ensures
      var (p, end) := DecodeOptional(raw, offset, present).value;
      && (p.Some? <==> present) && (p.Some? ==> WellFormedStatus(p.value))
      && offset <= end <= |raw| && raw[offset..end] == StatusBytes(p)
  {
    if present {
      EncodeDecode(raw, offset);
    }
  }

  lemma StatusPrinted(before: seq<Byte>, p: Option<PartStatus>, rest: seq<Byte>)
    requires p.Some? ==> WellFormedStatus(p.value)
    ensures DecodeOptional(before + StatusBytes(p) + rest, |before|, p.Some?)
      == Success((p, |before| + |StatusBytes(p)|))
  {
    if p.Some? {
      DecodeEncode(before, p.value.bits, rest);
    }
  }

  lemma ShortRoundTrip(bytes: seq<Byte>, v: nat)
    requires |bytes| == 2 && v < KIB64
    ensures Value(bytes) < KIB64 && Little(Value(bytes), 2) == bytes && Value(Little(v, 2)) == v
  {
    Bounds();
    ValueLittle(bytes);
    LittleValue(v, 2);
  }

  /** A request is accepted at a version exactly when it is the concatenation of
      the fields it is decoded to. */
  lemma RequestsAreConcatenations(raw: seq<Byte>, version: int)
    requires DecodeRequest(raw, version).Success?
    ensures
      var r := DecodeRequest(raw, version).value;
      WellFormedRequest(r, version) && raw == RequestBytes(r, version)
  {
    hide Decode, Encode, Little, Value, WellFormedStatus;
    StatusParsed(raw, 18, version > 3);
    var (p, end) := DecodeOptional(raw, 18, version > 3).value;
    if version > 2 {
      ShortRoundTrip(raw[end..end + 2], 0);
    }
    assert raw == raw[..2] + raw[2..18] + raw[18..end] + raw[end..];
  }

  lemma RequestRoundTrip(r: Request, version: int)
    requires WellFormedRequest(r, version)
    ensures DecodeRequest(RequestBytes(r, version), version) == Success(r)
  {
    hide Decode, Encode, Little, Value, WellFormedStatus;
    var raw, head := RequestBytes(r, version), [OP_EMULEPROT, OP_REASKFILEPING] + r.fileHash;
    var tail := if r.completeSources.Some? then Little(r.completeSources.value, 2) else [];
    assert raw == head + StatusBytes(r.partStatus) + tail;
    StatusPrinted(head, r.partStatus, tail);
    assert raw[..2] == [OP_EMULEPROT, OP_REASKFILEPING] && raw[2..18] == r.fileHash;
    if r.completeSources.Some? {
      ShortRoundTrip(tail, r.completeSources.value);
      assert raw[|head| + |StatusBytes(r.partStatus)|..] == tail;
      assert raw[|head| + |StatusBytes(r.partStatus)|..|head| + |StatusBytes(r.partStatus)| + 2] == tail;
    }
  }

  /** The same of acknowledgements, whose rank is never zero. */
  lemma AcksAreConcatenations(raw: seq<Byte>, version: int)
    requires DecodeAck(raw, version).Success?
    ensures
      var a := DecodeAck(raw, version).value;
      WellFormedAck(a, version) && raw == AckBytes(a, version)
  {
    hide Decode, Encode, Little, Value, WellFormedStatus;
    StatusParsed(raw, 2, version > 3);
    var (p, end) := DecodeOptional(raw, 2, version > 3).value;
    ShortRoundTrip(raw[end..end + 2], 0);
    assert raw == raw[..2] + raw[2..end] + raw[end..];
    assert raw[end..] == raw[end..end + 2];
  }

  lemma AckRoundTrip(a: Ack, version: int)
    requires WellFormedAck(a, version)
    ensures DecodeAck(AckBytes(a, version), version) == Success(a)
  {
    hide Decode, Encode, Little, Value, WellFormedStatus;
    var raw, head, tail := AckBytes(a, version), [OP_EMULEPROT, OP_REASKACK], Little(a.queueRank, 2);
    assert raw == head + StatusBytes(a.partStatus) + tail;
    StatusPrinted(head, a.partStatus, tail);
    ShortRoundTrip(tail, a.queueRank);
    assert raw[..2] == head;
    assert raw[2 + |StatusBytes(a.partStatus)|..2 + |StatusBytes(a.partStatus)| + 2] == tail;
  }
}
