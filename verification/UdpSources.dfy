/** Server UDP source queries, versions 1 and 2, and their replies. */
module UdpSources {
  import opened Wrappers
  import opened Bytes
  import opened WireCodec
  import opened WireMessages

  /** The payload of a clear datagram with the opcode expected. */
  function UdpPayload(datagram: seq<Byte>, opcode: Byte): Result<seq<Byte>> {
    if |datagram| < 2 then Failure("shorter than its marker and opcode")
    else if datagram[0] != PROTO_EDONKEY then Failure("unsupported protocol marker")
    else if datagram[1] != opcode then Failure("unexpected opcode")
    else Success(datagram[2..])
  }

  // ----- Version 1: hashes only ---------------------------------------------------------

  predicate ValidHashes(hashes: seq<seq<Byte>>) {
    hashes != [] && forall i :: 0 <= i < |hashes| ==> |hashes[i]| == 16
  }

  function Concat(parts: seq<seq<Byte>>): seq<Byte> {
    if |parts| == 0 then [] else Concat(parts[..|parts| - 1]) + parts[|parts| - 1]
  }

  function EncodeV1(hashes: seq<seq<Byte>>): Result<seq<Byte>> {
    if !ValidHashes(hashes) then Failure("GLOBGETSOURCES requires 16-byte file hashes")
    else Success([PROTO_EDONKEY, OP_GLOBGETSOURCES] + Concat(hashes))
  }

  function Hashes(payload: seq<Byte>): (hashes: seq<seq<Byte>>)
    requires |payload| % 16 == 0
  {
    if |payload| == 0 then [] else Hashes(payload[..|payload| - 16]) + [payload[|payload| - 16..]]
  }

  function DecodeV1(datagram: seq<Byte>): Result<seq<seq<Byte>>> {
    var payload :- UdpPayload(datagram, OP_GLOBGETSOURCES);
    if payload == [] || |payload| % 16 != 0 then Failure("payload must contain complete 16-byte hashes")
    else Success(Hashes(payload))
  }

  lemma {:induction false} HashesOfConcat(hashes: seq<seq<Byte>>)
    requires forall i :: 0 <= i < |hashes| ==> |hashes[i]| == 16
    ensures |Concat(hashes)| == 16 * |hashes| && Hashes(Concat(hashes)) == hashes
  {
    if |hashes| > 0 {
      var front := hashes[..|hashes| - 1];
      HashesOfConcat(front);
      assert Concat(hashes)[..|Concat(hashes)| - 16] == Concat(front);
      assert front + [hashes[|hashes| - 1]] == hashes;
    }
  }

  lemma {:induction false} ConcatOfHashes(payload: seq<Byte>)
    requires |payload| % 16 == 0
    ensures Concat(Hashes(payload)) == payload
    ensures |Hashes(payload)| * 16 == |payload|
    ensures forall i :: 0 <= i < |Hashes(payload)| ==> |Hashes(payload)[i]| == 16
  {
    if |payload| > 0 {
      ConcatOfHashes(payload[..|payload| - 16]);
      assert Hashes(payload)[..|Hashes(payload)| - 1] == Hashes(payload[..|payload| - 16]);
    }
  }

  /** Encoding and decoding are mutually inverse between the valid lists and the
      accepted datagrams. */
  lemma V1Inverse(hashes: seq<seq<Byte>>, datagram: seq<Byte>)
    ensures EncodeV1(hashes).Success? <==> hashes != [] && forall i :: 0 <= i < |hashes| ==> |hashes[i]| == 16
    ensures EncodeV1(hashes).Success? ==> DecodeV1(EncodeV1(hashes).value) == Success(hashes)
    ensures DecodeV1(datagram).Success? ==> EncodeV1(DecodeV1(datagram).value) == Success(datagram)
    ensures DecodeV1(datagram).Success? ==> datagram[..2] == [0xE3, 0x9A]
  {
    hide Hashes, Concat;
    if EncodeV1(hashes).Success? {
      HashesOfConcat(hashes);
      assert EncodeV1(hashes).value[2..] == Concat(hashes);
    }
    if DecodeV1(datagram).Success? {
      ConcatOfHashes(datagram[2..]);
      assert datagram == [PROTO_EDONKEY, OP_GLOBGETSOURCES] + datagram[2..];
    }
  }

  /** The decoder's loop over offsets. */
  method ReadHashes(payload: seq<Byte>) returns (hashes: seq<seq<Byte>>)
    requires |payload| % 16 == 0
    ensures hashes == Hashes(payload)
  {
    hashes := [];
    var offset := 0;
    while offset < |payload|
      invariant offset <= |payload| && offset % 16 == 0
      invariant hashes == Hashes(payload[..offset])
    {
      assert payload[..offset + 16][..offset] == payload[..offset];
      assert payload[..offset + 16][offset..] == payload[offset..offset + 16];
      hashes := hashes + [payload[offset..offset + 16]];
      offset := offset + 16;
    }
    assert payload[..offset] == payload;
  }

  // ----- Version 2: hashes and sizes ------------------------------------------------------

  datatype Target = Target(hash: seq<Byte>, size: int)

  predicate ValidTarget(t: Target) {
    |t.hash| == 16 && 1 <= t.size < GIB4 * GIB4
  }

  predicate ValidTargets(ts: seq<Target>) {
    ts != [] && forall i :: 0 <= i < |ts| ==> ValidTarget(ts[i])
  }

  /** A small size as itself, a large one behind a zero. */
  function TargetBytes(t: Target): seq<Byte>
    requires ValidTarget(t)
  {
    t.hash + if t.size >= GIB4 then Little(0, 4) + Little(t.size, 8) else Little(t.size, 4)
  }

  function TargetsBytes(ts: seq<Target>): seq<Byte>
    requires forall i :: 0 <= i < |ts| ==> ValidTarget(ts[i])
  {
    if |ts| == 0 then [] else TargetBytes(ts[0]) + TargetsBytes(ts[1..])
  }

  function EncodeV2(ts: seq<Target>): Result<seq<Byte>> {
    if !ValidTargets(ts) then Failure("GLOBGETSOURCES2 target is invalid")
    else Success([PROTO_EDONKEY, OP_GLOBGETSOURCES2] + TargetsBytes(ts))
  }

  function ReadTarget(data: seq<Byte>): (r: Result<Read<Target>>)
    ensures r.Success? ==> |r.value.rest| < |data|
  {
    if |data| < 20 then Failure("target requires a 16-byte hash and 4-byte file size")
    else
      var hash, small := data[..16], Value(data[16..20]);
      if small != 0 then Success(Read(Target(hash, small), data[20..]))
      else if |data| < 28 then Failure("large-file target requires an 8-byte file size")
      else
        var size := Value(data[20..28]);
        if size < GIB4 then Failure("large-file marker requires a size above u32")
        else Success(Read(Target(hash, size), data[28..]))
  }

  function ReadTargets(data: seq<Byte>): Result<seq<Target>>
    decreases |data|
  {
    if |data| == 0 then Success([])
    else
      var t :- ReadTarget(data);
      var rest :- ReadTargets(t.rest);
      Success([t.value] + rest)
  }

  function DecodeV2(datagram: seq<Byte>): Result<seq<Target>> {
    var payload :- UdpPayload(datagram, OP_GLOBGETSOURCES2);
    if payload == [] then Failure("GLOBGETSOURCES2 requires at least one target") else ReadTargets(payload)
  }

  lemma TargetBack(t: Target, rest: seq<Byte>)
    requires ValidTarget(t)
    ensures ReadTarget(TargetBytes(t) + rest) == Success(Read(t, rest))
  {
    hide Little, Value;
    Bounds();
    var data := TargetBytes(t) + rest;
    assert data[..16] == t.hash;
    if t.size >= GIB4 {
      LittleValue(0, 4);
      LittleValue(t.size, 8);
      assert data[16..20] == Little(0, 4) && data[20..28] == Little(t.size, 8) && data[28..] == rest;
    } else {
      LittleValue(t.size, 4);
      assert data[16..20] == Little(t.size, 4) && data[20..] == rest;
    }
  }

  lemma TargetPrinted(data: seq<Byte>)
    requires ReadTarget(data).Success?
    ensures
      var r := ReadTarget(data).value;
      ValidTarget(r.value) && data == TargetBytes(r.value) + r.rest
  {
    hide Little, Value;
    Bounds();
    ValueLittle(data[16..20]);
    if |data| >= 28 {
      ValueLittle(data[20..28]);
    }
    if Value(data[16..20]) == 0 {
      assert data == data[..16] + (data[16..20] + data[20..28]) + data[28..];
    } else {
      assert data == data[..16] + data[16..20] + data[20..];
    }
  }

  lemma {:induction false} TargetsBack(ts: seq<Target>)
    requires forall i :: 0 <= i < |ts| ==> ValidTarget(ts[i])
    ensures ReadTargets(TargetsBytes(ts)) == Success(ts)
  {
    hide ReadTarget, TargetBytes;
    if |ts| > 0 {
      TargetsBack(ts[1..]);
      TargetBack(ts[0], TargetsBytes(ts[1..]));
      assert ReadTarget(TargetsBytes(ts)).value.rest == TargetsBytes(ts[1..]);
      assert [ts[0]] + ts[1..] == ts;
    }
  }

  lemma {:induction false} TargetsPrinted(data: seq<Byte>)
    requires ReadTargets(data).Success?
    ensures
      var ts := ReadTargets(data).value;
      (forall i :: 0 <= i < |ts| ==> ValidTarget(ts[i])) && TargetsBytes(ts) == data && (ts == [] <==> data == [])
    decreases |data|
  {
    hide ReadTarget, TargetBytes;
    if |data| > 0 {
      var t := ReadTarget(data).value;
      TargetPrinted(data);
      TargetsPrinted(t.rest);
      assert ReadTargets(data).value[1..] == ReadTargets(t.rest).value;
    }
  }

  /** The same of version 2, small and large sizes each in their one form. */
  lemma V2Inverse(ts: seq<Target>, datagram: seq<Byte>)
    ensures EncodeV2(ts).Success? <==>
      ts != [] && forall i :: 0 <= i < |ts| ==> |ts[i].hash| == 16 && 0 < ts[i].size < 0x1_0000_0000_0000_0000
    ensures EncodeV2(ts).Success? ==> DecodeV2(EncodeV2(ts).value) == Success(ts)
    ensures DecodeV2(datagram).Success? ==> EncodeV2(DecodeV2(datagram).value) == Success(datagram)
    ensures DecodeV2(datagram).Success? ==> datagram[..2] == [0xE3, 0x94]
  {
    hide ReadTargets, TargetsBytes;
    if EncodeV2(ts).Success? {
      TargetsBack(ts);
      SomeTargetBytes(ts);
      assert EncodeV2(ts).value[2..] == TargetsBytes(ts);
    }
    if DecodeV2(datagram).Success? {
      TargetsPrinted(datagram[2..]);
      assert datagram == [PROTO_EDONKEY, OP_GLOBGETSOURCES2] + datagram[2..];
    }
  }

  lemma SomeTargetBytes(ts: seq<Target>)
    requires ValidTargets(ts)
    ensures TargetsBytes(ts) != []
  {
  }

  /** The decoder's loop, moving one offset through the payload. */
  method ReadAllTargets(payload: seq<Byte>) returns (r: Result<seq<Target>>)
    ensures r == ReadTargets(payload) || (r.Failure? && ReadTargets(payload).Failure?)
  {
    hide ReadTarget;
    var targets: seq<Target> := [];
    var offset := 0;
    while offset < |payload|
      invariant offset <= |payload|
      invariant ReadTargets(payload).Success? <==> ReadTargets(payload[offset..]).Success?
      invariant ReadTargets(payload).Success? ==>
        ReadTargets(payload).value == targets + ReadTargets(payload[offset..]).value
      decreases |payload| - offset
    {
      var rest := payload[offset..];
      var t := ReadTarget(rest);
      if t.Failure? {
        return Failure("GLOBGETSOURCES2");
      }
      targets := targets + [t.value.value];
      offset := |payload| - |t.value.rest|;
      ReadSuffix(rest);
      assert payload[offset..] == t.value.rest;
    }
    assert payload[offset..] == [] && ReadTargets([]) == Success([]);
    assert targets + [] == targets;
    r := Success(targets);
  }

  lemma ReadSuffix(data: seq<Byte>)
    requires ReadTarget(data).Success?
    ensures Suffix(data, ReadTarget(data).value.rest)
  {
  }

  // ----- Replies --------------------------------------------------------------------------

  datatype SourceKind = LowId | HighId | Ipv6

  /** `host` is an address as its bytes. */
  datatype Source = Source(
    kind: SourceKind, clientId: nat, host: Option<seq<Byte>>, port: nat, crypt: nat, userHash: Option<seq<Byte>>)

  datatype Found = Found(hash: seq<Byte>, sources: seq<Source>)

  predicate ValidSource(s: (int, int)) {
    0 <= s.0 < GIB4 && 1 <= s.1 < KIB64
  }

  function SourceBytes(s: (int, int)): seq<Byte>
    requires ValidSource(s)
  {
    Little(s.0, 4) + Little(s.1, 2)
  }

  function SourcesBytes(ss: seq<(int, int)>): seq<Byte>
    requires forall i :: 0 <= i < |ss| ==> ValidSource(ss[i])
  {
    if |ss| == 0 then [] else SourceBytes(ss[0]) + SourcesBytes(ss[1..])
  }

  function EncodeReply(hash: seq<Byte>, ss: seq<(int, int)>): Result<seq<Byte>> {
    if |hash| != 16 then Failure("file_hash must be 16 bytes")
    else if |ss| > 0xFF then Failure("source count must fit in one byte")
    else if !(forall i :: 0 <= i < |ss| ==> ValidSource(ss[i])) then Failure("client ID or port out of range")
    else Success([PROTO_EDONKEY, OP_GLOBFOUNDSOURCES] + hash + [|ss|] + SourcesBytes(ss))
  }

  function ReadSource(data: seq<Byte>, obfuscated: bool): (r: Result<Read<Source>>)
    ensures r.Success? ==> |r.value.rest| + 6 <= |data|
  {
    var id :- Number(data, 4);
    var port :- Number(id.rest, 2);
    var crypt :- if obfuscated then Number(port.rest, 1) else Success(Read(0, port.rest));
    var hashed := crypt.value >= 0x80;
    var hash :- if hashed then Take(crypt.rest, 16) else Success(Read([], crypt.rest));
    var user := if hashed then Some(hash.value) else None;
    if id.value == IPV6_SOURCE_SENTINEL then
      var host :- Take(hash.rest, 16);
      Success(Read(Source(Ipv6, id.value, Some(host.value), port.value, crypt.value, user), host.rest))
    else if id.value < LOW_ID_CEILING then
      Success(Read(Source(LowId, id.value, None, port.value, crypt.value, user), hash.rest))
    else
      Success(Read(Source(HighId, id.value, Some(Little(id.value, 4)), port.value, crypt.value, user), hash.rest))
  }

  function ReadSources(data: seq<Byte>, n: nat, obfuscated: bool): Result<Read<seq<Source>>>
    decreases n
  {
    if n == 0 then Success(Read([], data))
    else
      var s :- ReadSource(data, obfuscated);
      var rest :- ReadSources(s.rest, n - 1, obfuscated);
      Success(Read([s.value] + rest.value, rest.rest))
  }

  function DecodeFoundSources(payload: seq<Byte>, obfuscated: bool): Result<Found> {
    var hash :- Take(payload, 16);
    var count :- Number(hash.rest, 1);
    var sources :- ReadSources(count.rest, count.value, obfuscated);
    if sources.rest != [] then Failure("FOUNDSOURCES has trailing bytes") else Success(Found(hash.value, sources.value))
  }

  function DecodeReply(datagram: seq<Byte>): Result<Found> {
    var payload :- UdpPayload(datagram, OP_GLOBFOUNDSOURCES);
    if |payload| < 17 then Failure("payload requires a 16-byte hash and source count")
    else
      var count: nat := payload[16];
      if |payload| != 17 + 6 * count then Failure("payload length mismatch") else DecodeFoundSources(payload, false)
  }

  function SourceOf(s: (int, int)): Source
    requires ValidSource(s)
  {
    if s.0 < LOW_ID_CEILING then Source(LowId, s.0, None, s.1, 0, None)
    else Source(HighId, s.0, Some(Little(s.0, 4)), s.1, 0, None)
  }

  function SourcesOf(ss: seq<(int, int)>): seq<Source>
    requires forall i :: 0 <= i < |ss| ==> ValidSource(ss[i])
  {
    seq(|ss|, i requires 0 <= i < |ss| => SourceOf(ss[i]))
  }

  predicate Sentinel(s: (int, int)) {
    s.0 == IPV6_SOURCE_SENTINEL
  }

  lemma SourceBack(s: (int, int), rest: seq<Byte>)
    requires ValidSource(s)
    ensures !Sentinel(s) ==> ReadSource(SourceBytes(s) + rest, false) == Success(Read(SourceOf(s), rest))
    ensures Sentinel(s) && ReadSource(SourceBytes(s) + rest, false).Success? ==>
      |ReadSource(SourceBytes(s) + rest, false).value.rest| + 16 <= |rest|
  {
    hide Little, Value;
    Bounds();
    assert SourceBytes(s) + rest == Little(s.0, 4) + (Little(s.1, 2) + rest);
    NumberBack(s.0, 4, Little(s.1, 2) + rest);
    NumberBack(s.1, 2, rest);
  }

  /** Every source takes at least six bytes. */
  lemma {:induction false} SourcesNeed(data: seq<Byte>, n: nat)
    requires ReadSources(data, n, false).Success?
    ensures |ReadSources(data, n, false).value.rest| + 6 * n <= |data|
    decreases n
  {
    hide ReadSource;
    if n > 0 {
      SourcesNeed(ReadSource(data, false).value.rest, n - 1);
    }
  }

  lemma {:induction false} SourcesBack(ss: seq<(int, int)>)
    requires forall i :: 0 <= i < |ss| ==> ValidSource(ss[i])
    ensures |SourcesBytes(ss)| == 6 * |ss|
    ensures ReadSources(SourcesBytes(ss), |ss|, false).Success? <==> forall i :: 0 <= i < |ss| ==> !Sentinel(ss[i])
    ensures (forall i :: 0 <= i < |ss| ==> !Sentinel(ss[i])) ==>
      ReadSources(SourcesBytes(ss), |ss|, false) == Success(Read(SourcesOf(ss), []))
  {
    hide ReadSource, SourceBytes, SourceOf;
    if |ss| == 0 {
      assert SourcesOf(ss) == [];
    } else {
      var rest := SourcesBytes(ss[1..]);
      SourcesBack(ss[1..]);
      SourceSize(ss[0]);
      SourceBack(ss[0], rest);
      var first := ReadSource(SourcesBytes(ss), false);
      if Sentinel(ss[0]) {
        if first.Success? && ReadSources(first.value.rest, |ss| - 1, false).Success? {
          SourcesNeed(first.value.rest, |ss| - 1);
        }
      } else {
        assert first == Success(Read(SourceOf(ss[0]), rest));
        assert (forall i :: 0 <= i < |ss| ==> !Sentinel(ss[i])) <==>
               (forall i :: 0 <= i < |ss[1..]| ==> !Sentinel(ss[1..][i])) by {
          assert forall i :: 1 <= i < |ss| ==> ss[i] == ss[1..][i - 1];
        }
        assert [SourceOf(ss[0])] + SourcesOf(ss[1..]) == SourcesOf(ss);
      }
    }
  }

  lemma SourceSize(s: (int, int))
    requires ValidSource(s)
    ensures |SourceBytes(s)| == 6
  {
  }

  /** A reply decodes back to its sources exactly when none of them carries the
      client ID reserved for IPv6 sources. */
  lemma ReplyRoundTrip(hash: seq<Byte>, ss: seq<(int, int)>)
    ensures EncodeReply(hash, ss).Success? <==>
      && |hash| == 16 && |ss| < 0x100
      && forall i :: 0 <= i < |ss| ==> 0 <= ss[i].0 < 0x1_0000_0000 && 0 < ss[i].1 < 0x1_0000
    ensures EncodeReply(hash, ss).Success? ==>
      var datagram := EncodeReply(hash, ss).value;
      && datagram[..2] == [0xE3, 0x9B]
      && (DecodeReply(datagram).Success? <==> forall i :: 0 <= i < |ss| ==> ss[i].0 != 0xFFFF_FFFF)
      && (DecodeReply(datagram).Success? ==> DecodeReply(datagram) == Success(Found(hash, SourcesOf(ss))))
  {
    hide ReadSources, SourcesBytes;
    if EncodeReply(hash, ss).Success? {
      var datagram := EncodeReply(hash, ss).value;
      var payload := datagram[2..];
      SourcesBack(ss);
      assert payload == hash + ([|ss|] + SourcesBytes(ss));
      TakeBack(hash, [|ss|] + SourcesBytes(ss));
      NumberOf([|ss|], SourcesBytes(ss));
      assert Value([|ss|]) == |ss|;
      assert forall i :: 0 <= i < |ss| ==> (Sentinel(ss[i]) <==> ss[i].0 == 0xFFFF_FFFF);
    }
  }

  // ----- Found sources in full ------------------------------------------------------------------

  /** A source as it can be on the wire: an obfuscated list adds a byte of crypt options,
      whose high bit announces a user hash; the reserved client ID announces an IPv6
      address, a high one is itself an address. */
  predicate OnWire(s: Source, obfuscated: bool) {
    && s.clientId < 0x1_0000_0000 && s.port < 0x1_0000 && s.crypt < 0x100 && (!obfuscated ==> s.crypt == 0)
    && (s.userHash.Some? <==> s.crypt >= 0x80) && (s.userHash.Some? ==> |s.userHash.value| == 16)
    && match s.kind
       case Ipv6 => s.clientId == 0xFFFF_FFFF && s.host.Some? && |s.host.value| == 16
       case LowId => s.clientId < 0x100_0000 && s.host.None?
       case HighId => 0x100_0000 <= s.clientId < 0xFFFF_FFFF && s.host == Some(Little(s.clientId, 4))
  }

  function WireBytes(s: Source, obfuscated: bool): seq<Byte>
    requires OnWire(s, obfuscated)
  {
    Little(s.clientId, 4) + Little(s.port, 2) + (if obfuscated then [s.crypt] else [])
    + (if s.userHash.Some? then s.userHash.value else []) + (if s.kind == Ipv6 then s.host.value else [])
  }

  predicate AllOnWire(ss: seq<Source>, obfuscated: bool) {
    forall i :: 0 <= i < |ss| ==> OnWire(ss[i], obfuscated)
  }

  function AllWireBytes(ss: seq<Source>, obfuscated: bool): seq<Byte>
    requires AllOnWire(ss, obfuscated)
  {
    if |ss| == 0 then [] else WireBytes(ss[0], obfuscated) + AllWireBytes(ss[1..], obfuscated)
  }

  lemma OptionalBack(bytes: Option<seq<Byte>>, rest: seq<Byte>)
    ensures bytes.Some? ==> Take(bytes.value + rest, |bytes.value|) == Success(Read(bytes.value, rest))
    ensures [] + rest == rest
  {
    if bytes.Some? {
      TakeBack(bytes.value, rest);
    }
  }

  lemma WireBack(s: Source, obfuscated: bool, rest: seq<Byte>)
    requires OnWire(s, obfuscated)
    ensures ReadSource(WireBytes(s, obfuscated) + rest, obfuscated) == Success(Read(s, rest))
  {
    hide Little, Value, Number, Take, Bound;
    Bounds();
    var host := if s.kind == Ipv6 then s.host.value else [];
    var hash := if s.userHash.Some? then s.userHash.value else [];
    var crypt: seq<Byte> := if obfuscated then [s.crypt] else [];
    var hosted, hashed := host + rest, hash + (host + rest);
    var crypted := crypt + hashed;
    assert WireBytes(s, obfuscated) + rest == Little(s.clientId, 4) + (Little(s.port, 2) + crypted);
    NumberBack(s.clientId, 4, Little(s.port, 2) + crypted);
    NumberBack(s.port, 2, crypted);
    if obfuscated {
      CryptBack(s.crypt, hashed);
    }
    OptionalBack(s.userHash, hosted);
    OptionalBack(s.host, rest);
  }

  lemma CryptBack(b: Byte, rest: seq<Byte>)
    ensures Number([b] + rest, 1) == Success(Read(b, rest))
  {
    NumberOf([b], rest);
    assert Value([b]) == b;
  }

  lemma NumberAndRest(data: seq<Byte>, n: nat)
    requires Number(data, n).Success?
    ensures
      var r := Number(data, n).value;
      r.value < Bound(n) && data == Little(r.value, n) + r.rest
  {
    ValueLittle(data[..n]);
    assert data == data[..n] + data[n..];
  }

  lemma TakeAndRest(data: seq<Byte>, n: nat)
    requires Take(data, n).Success?
    ensures |Take(data, n).value.value| == n && data == Take(data, n).value.value + Take(data, n).value.rest
  {
  }

  lemma OneLittle(v: nat)
    requires v < 0x100
    ensures Little(v, 1) == [v]
  {
  }

  lemma WirePrinted(data: seq<Byte>, obfuscated: bool)
    requires ReadSource(data, obfuscated).Success?
    ensures
      var r := ReadSource(data, obfuscated).value;
      OnWire(r.value, obfuscated) && data == WireBytes(r.value, obfuscated) + r.rest
  {
    hide Little, Value, Number, Take, Bound;
    Bounds();
    var s := ReadSource(data, obfuscated).value.value;
    NumberAndRest(data, 4);
    var id := Number(data, 4).value;
    NumberAndRest(id.rest, 2);
    var port := Number(id.rest, 2).value;
    var rest := port.rest;
    if obfuscated {
      NumberAndRest(rest, 1);
      OneLittle(s.crypt);
      rest := Number(rest, 1).value.rest;
    }
    if s.userHash.Some? {
      TakeAndRest(rest, 16);
      rest := Take(rest, 16).value.rest;
    }
    if s.kind == Ipv6 {
      TakeAndRest(rest, 16);
    }
  }

  lemma {:induction false} AllWireBack(ss: seq<Source>, obfuscated: bool, rest: seq<Byte>)
    requires AllOnWire(ss, obfuscated)
    ensures ReadSources(AllWireBytes(ss, obfuscated) + rest, |ss|, obfuscated) == Success(Read(ss, rest))
  {
    hide ReadSource, WireBytes, OnWire;
    if |ss| == 0 {
      assert AllWireBytes(ss, obfuscated) + rest == rest;
    } else {
      AllWireBack(ss[1..], obfuscated, rest);
      var tail := AllWireBytes(ss[1..], obfuscated) + rest;
      WireBack(ss[0], obfuscated, tail);
      assert AllWireBytes(ss, obfuscated) + rest == WireBytes(ss[0], obfuscated) + tail;
      assert [ss[0]] + ss[1..] == ss;
    }
  }

  lemma {:induction false} AllWirePrinted(data: seq<Byte>, n: nat, obfuscated: bool)
    requires ReadSources(data, n, obfuscated).Success?
    ensures
      var r := ReadSources(data, n, obfuscated).value;
      |r.value| == n && AllOnWire(r.value, obfuscated) && data == AllWireBytes(r.value, obfuscated) + r.rest
    decreases n
  {
    hide ReadSource, WireBytes, OnWire;
    if n > 0 {
      var s := ReadSource(data, obfuscated).value;
      WirePrinted(data, obfuscated);
      AllWirePrinted(s.rest, n - 1, obfuscated);
      var r := ReadSources(data, n, obfuscated).value;
      assert r.value[1..] == ReadSources(s.rest, n - 1, obfuscated).value.value;
    }
  }

  /** A list of found sources, obfuscated or not, is read exactly from its own bytes: every
      list that can be on the wire is read back, and nothing else is accepted. */
  lemma FoundInverse(hash: seq<Byte>, ss: seq<Source>, payload: seq<Byte>, obfuscated: bool)
    ensures |hash| == 16 && |ss| < 0x100 && AllOnWire(ss, obfuscated) ==>
      DecodeFoundSources(hash + [|ss|] + AllWireBytes(ss, obfuscated), obfuscated) == Success(Found(hash, ss))
    ensures DecodeFoundSources(payload, obfuscated).Success? ==>
      var found := DecodeFoundSources(payload, obfuscated).value;
      && |found.hash| == 16 && |found.sources| < 0x100 && AllOnWire(found.sources, obfuscated)
      && payload == found.hash + [|found.sources|] + AllWireBytes(found.sources, obfuscated)
  {
    hide Little, Value, Number, Take, Bound, ReadSources, AllWireBytes, AllOnWire;
    Bounds();
    if |hash| == 16 && |ss| < 0x100 && AllOnWire(ss, obfuscated) {
      var bytes := AllWireBytes(ss, obfuscated);
      assert hash + [|ss|] + bytes == hash + ([|ss|] + bytes);
      TakeBack(hash, [|ss|] + bytes);
      CryptBack(|ss|, bytes);
      AllWireBack(ss, obfuscated, []);
      assert bytes + [] == bytes;
    }
    if DecodeFoundSources(payload, obfuscated).Success? {
      TakeAndRest(payload, 16);
      var rest := Take(payload, 16).value.rest;
      NumberAndRest(rest, 1);
      OneLittle(Number(rest, 1).value.value);
      AllWirePrinted(Number(rest, 1).value.rest, Number(rest, 1).value.value, obfuscated);
    }
  }
}
