/** Whole eD2K messages: what one side encodes the other decodes. */
module WireMessages {
  import opened Wrappers
  import opened Bytes
  import opened WireCodec

  const PROTO_EDONKEY: Byte := 0xE3
  const OP_GLOBGETSOURCES2: Byte := 0x94
  const OP_GLOBGETSOURCES: Byte := 0x9A
  const OP_GLOBFOUNDSOURCES: Byte := 0x9B
  const CT_NAME: Byte := 0x01
  const CT_SERVER_FLAGS: Byte := 0x20
  const FT_FILENAME: Byte := 0x01
  const FT_FILESIZE: Byte := 0x02
  const FT_SOURCES: Byte := 0x15
  const FT_COMPLETE_SOURCES: Byte := 0x30
  const FT_FILESIZE_HI: Byte := 0x3A
  const COMPLETE_FILE_ID := 0xFBFB_FBFB
  const COMPLETE_FILE_PORT := 0xFBFB
  const LOW_ID_CEILING := 0x0100_0000
  const IPV6_SOURCE_SENTINEL := 0xFFFF_FFFF
  const MAX_FRAME_BYTES := 8_000_000

  /** Packing an integer that does not fit is an error. */
  function Packed(v: int, n: nat): Result<seq<Byte>> {
    if 0 <= v < Bound(n) then Success(Little(v, n)) else Failure("struct.error")
  }

  function ShortStringTag(id: Byte, text: seq<Byte>): Result<seq<Byte>> {
    var length :- Packed(|text|, 2);
    Success([TAG_SHORT_NAME + TAGTYPE_STRING, id] + length + text)
  }

  function U32Tag(id: Byte, v: int): Result<seq<Byte>> {
    var bytes :- Packed(v, 4);
    Success([TAG_SHORT_NAME + TAGTYPE_UINT32, id] + bytes)
  }

  lemma StringTagBack(id: Byte, text: seq<Byte>, rest: seq<Byte>)
    requires ShortStringTag(id, text).Success?
    ensures ReadTag(ShortStringTag(id, text).value + rest) == Success(Read(Tag(Id(id), Text(text)), rest))
  {
    hide Little, Value;
    var length := Little(|text|, 2);
    var data := ShortStringTag(id, text).value + rest;
    assert data == [0x82] + ([id] + (length + (text + rest)));
    TakeBack([0x82], [id] + (length + (text + rest)));
    TakeBack([id], length + (text + rest));
    NumberBack(|text|, 2, text + rest);
    TakeBack(text, rest);
  }

  lemma U32TagBack(id: Byte, v: int, rest: seq<Byte>)
    requires U32Tag(id, v).Success?
    ensures ReadTag(U32Tag(id, v).value + rest) == Success(Read(Tag(Id(id), Integer(v)), rest))
  {
    hide Little, Value;
    var data := U32Tag(id, v).value + rest;
    assert data == [0x83] + ([id] + (Little(v, 4) + rest));
    TakeBack([0x83], [id] + (Little(v, 4) + rest));
    TakeBack([id], Little(v, 4) + rest);
    NumberBack(v, 4, rest);
  }

  // ----- Login ---------------------------------------------------------------------------

  datatype Login = Login(userHash: seq<Byte>, clientId: nat, port: nat, tags: seq<Tag>)

  function EncodeLogin(userHash: seq<Byte>, port: int, nickname: seq<Byte>, flags: int): Result<seq<Byte>> {
    if |userHash| != 16 then Failure("user_hash must be 16 bytes")
    else
      var name :- ShortStringTag(CT_NAME, nickname);
      var caps :- U32Tag(CT_SERVER_FLAGS, flags);
      var tcp :- Packed(port, 2);
      Success(userHash + Little(0, 4) + tcp + Little(2, 4) + name + caps)
  }

  function DecodeLogin(payload: seq<Byte>): Result<Login> {
    var hash :- Take(payload, 16);
    var id :- Number(hash.rest, 4);
    var port :- Number(id.rest, 2);
    var count :- Number(port.rest, 4);
    var tags :- ReadTags(count.rest, count.value);
    if tags.rest != [] then Failure("LOGINREQUEST has trailing bytes")
    else Success(Login(hash.value, id.value, port.value, tags.value))
  }

  /** Two tags in front of the rest of a message. */
  lemma TwoTags(a: seq<Byte>, b: seq<Byte>, s: Tag, t: Tag, rest: seq<Byte>)
    requires ReadTag(a + (b + rest)) == Success(Read(s, b + rest)) && ReadTag(b + rest) == Success(Read(t, rest))
    ensures ReadTags(a + (b + rest), 2) == Success(Read([s, t], rest))
  {
    hide ReadTag;
    assert [] + [s] == [s] && [s] + [t] == [s, t];
    assert ReadTags(a + (b + rest), 0) == Success(Read([], a + (b + rest)));
    assert ReadTags(a + (b + rest), 1) == Success(Read([s], b + rest));
  }

  lemma ThirdTag(data: seq<Byte>, c: seq<Byte>, ts: seq<Tag>, u: Tag, rest: seq<Byte>)
    requires |ts| == 2 && ReadTags(data, 2) == Success(Read(ts, c + rest))
    requires ReadTag(c + rest) == Success(Read(u, rest))
    ensures ReadTags(data, 3) == Success(Read(ts + [u], rest))
  {
    hide ReadTag;
  }

  /** A login decodes to exactly what was encoded, tags in order. */
  lemma LoginRoundTrip(userHash: seq<Byte>, port: int, nickname: seq<Byte>, flags: int)
    ensures EncodeLogin(userHash, port, nickname, flags).Success? <==>
      |userHash| == 16 && 0 <= port < KIB64 && |nickname| < KIB64 && 0 <= flags < GIB4
    ensures EncodeLogin(userHash, port, nickname, flags).Success? ==>
      DecodeLogin(EncodeLogin(userHash, port, nickname, flags).value)
      == Success(Login(userHash, 0, port, [Tag(Id(0x01), Text(nickname)), Tag(Id(0x20), Integer(flags))]))
  {
    hide Little, Value, Bound, ReadTag, ReadTags;
    Bounds();
    if EncodeLogin(userHash, port, nickname, flags).Success? {
      var payload := EncodeLogin(userHash, port, nickname, flags).value;
      var name, caps := ShortStringTag(CT_NAME, nickname).value, U32Tag(CT_SERVER_FLAGS, flags).value;
      var tags := name + (caps + []);
      assert payload == userHash + (Little(0, 4) + (Little(port, 2) + (Little(2, 4) + tags)));
      TakeBack(userHash, Little(0, 4) + (Little(port, 2) + (Little(2, 4) + tags)));
      NumberBack(0, 4, Little(port, 2) + (Little(2, 4) + tags));
      NumberBack(port, 2, Little(2, 4) + tags);
      NumberBack(2, 4, tags);
      StringTagBack(CT_NAME, nickname, caps + []);
      U32TagBack(CT_SERVER_FLAGS, flags, []);
      TwoTags(name, caps, Tag(Id(CT_NAME), Text(nickname)), Tag(Id(CT_SERVER_FLAGS), Integer(flags)), []);
    }
  }

  // ----- Offers and search results -----------------------------------------------------------

  datatype Row = Row(
    hash: seq<Byte>, name: TagValue, size: nat, sources: nat, completeSources: nat, sourceId: nat, sourcePort: nat)

  function EncodeOffer(hash: seq<Byte>, name: seq<Byte>, size: int): Result<seq<Byte>> {
    if |hash| != 16 then Failure("file_hash must be 16 bytes")
    else if size < 0 || size >= GIB4 * GIB4 then Failure("size must fit in u64")
    else
      var title :- ShortStringTag(FT_FILENAME, name);
      var low :- U32Tag(FT_FILESIZE, size % GIB4);
      var hi := size / GIB4;
      var high :- if hi > 0 then U32Tag(FT_FILESIZE_HI, hi) else Success([]);
      Success(Little(1, 4) + hash + Little(COMPLETE_FILE_ID, 4) + Little(COMPLETE_FILE_PORT, 2)
              + Little(if hi > 0 then 3 else 2, 4) + title + low + high)
  }

  /** The value of the last tag of that name, as a dictionary keeps it. */
  function Lookup(tags: seq<Tag>, id: Byte): Option<TagValue> {
    if |tags| == 0 then None
    else if tags[|tags| - 1].name == Id(id) then Some(tags[|tags| - 1].value)
    else Lookup(tags[..|tags| - 1], id)
  }

  /** A tag as an integer; text and bytes are not taken for numbers here. */
  function IntegerOf(tags: seq<Tag>, id: Byte): Result<nat> {
    match Lookup(tags, id)
    case None => Success(0)
    case Some(Integer(n)) => Success(n)
    case Some(Flag(b)) => Success(if b then 1 else 0)
    case Some(_) => Failure("not an integer")
  }

  /** Bitwise or. */
  function Or(a: nat, b: nat): nat {
    if a == 0 then b else if b == 0 then a
    else (if a % 2 == 1 || b % 2 == 1 then 1 else 0) + 2 * Or(a / 2, b / 2)
  }

  function ReadRow(data: seq<Byte>): Result<Read<Row>> {
    var hash :- Take(data, 16);
    var id :- Number(hash.rest, 4);
    var port :- Number(id.rest, 2);
    var count :- Number(port.rest, 4);
    var tags :- ReadTags(count.rest, count.value);
    var low :- IntegerOf(tags.value, FT_FILESIZE);
    var high :- IntegerOf(tags.value, FT_FILESIZE_HI);
    var sources :- IntegerOf(tags.value, FT_SOURCES);
    var complete :- IntegerOf(tags.value, FT_COMPLETE_SOURCES);
    var name := Lookup(tags.value, FT_FILENAME);
    Success(Read(Row(hash.value, if name.Some? then name.value else Text([]), Or(low, high * GIB4), sources, complete,
                     id.value, port.value), tags.rest))
  }

  function ReadRows(data: seq<Byte>, n: nat): Result<Read<seq<Row>>> {
    if n == 0 then Success(Read([], data))
    else
      var front :- ReadRows(data, n - 1);
      var row :- ReadRow(front.rest);
      Success(Read(front.value + [row.value], row.rest))
  }

  /** One byte left over is tolerated. */
  function DecodeSearchResults(payload: seq<Byte>): Result<seq<Row>> {
    var count :- Number(payload, 4);
    var rows :- ReadRows(count.rest, count.value);
    if |rows.rest| > 1 then Failure("SEARCHRESULT has trailing bytes") else Success(rows.value)
  }

  /** Disjoint bits add up. */
  lemma {:induction false} OrDisjoint(low: nat, high: nat, k: nat)
    requires low < Pow2(k)
    ensures Or(low, high * Pow2(k)) == low + high * Pow2(k)
  {
    if k > 0 && low > 0 && high > 0 {
      assert high * Pow2(k) == 2 * (high * Pow2(k - 1));
      OrDisjoint(low / 2, high, k - 1);
    }
  }

  lemma ThirtyTwo()
    ensures Pow2(32) == GIB4
  {
    assert Pow2(8) == 256 by { assert Pow2(4) == 16; }
    assert Pow2(12) == 4096 && Pow2(16) == KIB64 && Pow2(20) == 0x10_0000;
    assert Pow2(24) == 0x100_0000 && Pow2(28) == 0x1000_0000;
  }

  lemma RowBack(hash: seq<Byte>, tags: seq<Byte>, n: nat, ts: seq<Tag>, name: seq<Byte>, low: nat, high: nat)
    requires |hash| == 16 && n < GIB4 && low < GIB4 && ReadTags(tags, n) == Success(Read(ts, []))
    requires Lookup(ts, FT_FILENAME) == Some(Text(name)) && Lookup(ts, FT_FILESIZE) == Some(Integer(low))
    requires Lookup(ts, FT_FILESIZE_HI) == (if high > 0 then Some(Integer(high)) else None)
    requires Lookup(ts, FT_SOURCES) == None && Lookup(ts, FT_COMPLETE_SOURCES) == None
    ensures
      ReadRow(hash + (Little(COMPLETE_FILE_ID, 4) + (Little(COMPLETE_FILE_PORT, 2) + (Little(n, 4) + tags))))
      == Success(Read(Row(hash, Text(name), low + high * GIB4, 0, 0, COMPLETE_FILE_ID, COMPLETE_FILE_PORT), []))
  {
    hide Little, Value, Bound, ReadTag, ReadTags, Lookup, Or, Pow2;
    Bounds();
    TakeBack(hash, Little(COMPLETE_FILE_ID, 4) + (Little(COMPLETE_FILE_PORT, 2) + (Little(n, 4) + tags)));
    NumberBack(COMPLETE_FILE_ID, 4, Little(COMPLETE_FILE_PORT, 2) + (Little(n, 4) + tags));
    NumberBack(COMPLETE_FILE_PORT, 2, Little(n, 4) + tags);
    NumberBack(n, 4, tags);
    ThirtyTwo();
    OrDisjoint(low, high, 32);
  }

  function OfferTags(name: seq<Byte>, low: nat, high: nat): seq<Tag> {
    [Tag(Id(FT_FILENAME), Text(name)), Tag(Id(FT_FILESIZE), Integer(low))]
    + (if high > 0 then [Tag(Id(FT_FILESIZE_HI), Integer(high))] else [])
  }

  lemma OfferLookup(name: seq<Byte>, low: nat, high: nat, id: Byte)
    ensures Lookup(OfferTags(name, low, high), id) ==
            if id == FT_FILESIZE_HI && high > 0 then Some(Integer(high))
            else if id == FT_FILESIZE then Some(Integer(low))
            else if id == FT_FILENAME then Some(Text(name)) else None
  {
    hide Lookup;
    var a, b, c := Tag(Id(FT_FILENAME), Text(name)), Tag(Id(FT_FILESIZE), Integer(low)),
      Tag(Id(FT_FILESIZE_HI), Integer(high));
    LookupNone(id);
    LookupAppend([], a, id);
    LookupAppend([a], b, id);
    LookupAppend([a, b], c, id);
    assert [] + [a] == [a] && [a] + [b] == [a, b] && [a, b] + [c] == [a, b, c];
    assert [a, b] + [] == [a, b];
  }

  lemma LookupNone(id: Byte)
    ensures Lookup([], id) == None
  {
  }

  lemma LookupAppend(ts: seq<Tag>, t: Tag, id: Byte)
    ensures Lookup(ts + [t], id) == if t.name == Id(id) then Some(t.value) else Lookup(ts, id)
  {
    assert (ts + [t])[..|ts|] == ts;
  }

  lemma OfferTagsBack(name: seq<Byte>, size: nat)
    requires size < GIB4 * GIB4 && |name| < KIB64
    ensures U32Tag(FT_FILESIZE, size % GIB4).Success? && ShortStringTag(FT_FILENAME, name).Success?
    ensures size / GIB4 > 0 ==> U32Tag(FT_FILESIZE_HI, size / GIB4).Success?
    ensures
      var high := if size / GIB4 > 0 then U32Tag(FT_FILESIZE_HI, size / GIB4).value else [];
      ReadTags(ShortStringTag(FT_FILENAME, name).value + (U32Tag(FT_FILESIZE, size % GIB4).value + high),
               if size / GIB4 > 0 then 3 else 2) == Success(Read(OfferTags(name, size % GIB4, size / GIB4), []))
  {
    hide Little, Value, Bound, ReadTag, ReadTags;
    Bounds();
    var title, low := ShortStringTag(FT_FILENAME, name).value, U32Tag(FT_FILESIZE, size % GIB4).value;
    var high := if size / GIB4 > 0 then U32Tag(FT_FILESIZE_HI, size / GIB4).value else [];
    StringTagBack(FT_FILENAME, name, low + high);
    U32TagBack(FT_FILESIZE, size % GIB4, high);
    var ts := OfferTags(name, size % GIB4, size / GIB4);
    TwoTags(title, low, ts[0], ts[1], high);
    if size / GIB4 > 0 {
      U32TagBack(FT_FILESIZE_HI, size / GIB4, []);
      assert high + [] == high;
      ThirdTag(title + (low + high), high, [ts[0], ts[1]], ts[2], []);
      assert [ts[0], ts[1]] + [ts[2]] == ts;
    } else {
      assert [ts[0], ts[1]] == ts;
    }
  }

  /** An offer is encoded for every 64-bit size and every name that fits its tag,
      and reads as a search result with the same hash, name and size. */
  lemma OfferRoundTrip(hash: seq<Byte>, name: seq<Byte>, size: int)
    ensures EncodeOffer(hash, name, size).Success? <==> |hash| == 16 && 0 <= size < GIB4 * GIB4 && |name| < KIB64
    ensures EncodeOffer(hash, name, size).Success? ==>
      DecodeSearchResults(EncodeOffer(hash, name, size).value)
      == Success([Row(hash, Text(name), size, 0, 0, 0xFBFB_FBFB, 0xFBFB)])
  {
    hide Little, Value, Bound, ReadTag, ReadTags, ReadRow, Lookup;
    Bounds();
    if |hash| == 16 && 0 <= size < GIB4 * GIB4 && |name| < KIB64 {
      OfferTagsBack(name, size);
      forall id: Byte {
        OfferLookup(name, size % GIB4, size / GIB4, id);
      }
      var title, low := ShortStringTag(FT_FILENAME, name).value, U32Tag(FT_FILESIZE, size % GIB4).value;
      var high := if size / GIB4 > 0 then U32Tag(FT_FILESIZE_HI, size / GIB4).value else [];
      var n := if size / GIB4 > 0 then 3 else 2;
      RowBack(hash, title + (low + high), n, OfferTags(name, size % GIB4, size / GIB4), name, size % GIB4, size / GIB4);
      var row := hash + (Little(COMPLETE_FILE_ID,
        4) + (Little(COMPLETE_FILE_PORT, 2) + (Little(n, 4) + (title + (low + high)))));
      assert EncodeOffer(hash, name, size).value == Little(1, 4) + row;
      NumberBack(1, 4, row);
      OneRow(row);
    }
  }

  lemma OneRow(data: seq<Byte>)
    requires ReadRow(data).Success?
    ensures ReadRows(data, 1) == Success(Read([ReadRow(data).value.value], ReadRow(data).value.rest))
  {
    hide ReadRow;
    assert [] + [ReadRow(data).value.value] == [ReadRow(data).value.value];
    assert ReadRows(data, 0) == Success(Read([], data));
  }
}
