/** Search results with any tags: what a row says is what the last tag of each name says. */
module WireRows {
  import opened Wrappers
  import opened Bytes
  import opened WireCodec
  import opened WireMessages
  import opened WireTags
  import opened PartStatus

  // ----- Tag lists -------------------------------------------------------------------------

  /** A tag in one of its forms. */
  datatype Spelled = Spelled(short: bool, form: Form, tag: Tag)

  predicate Writable(xs: seq<Spelled>) {
    forall i :: 0 <= i < |xs| ==> Spells(xs[i].short, xs[i].tag.name) && Holds(xs[i].form, xs[i].tag.value)
  }

  function TagsBytes(xs: seq<Spelled>): seq<Byte>
    requires Writable(xs)
  {
    if |xs| == 0 then []
    else
      var x := xs[|xs| - 1];
      TagsBytes(xs[..|xs| - 1]) + TagBytes(x.short, x.form, x.tag)
  }

  function TagsOf(xs: seq<Spelled>): seq<Tag> {
    seq(|xs|, i requires 0 <= i < |xs| => xs[i].tag)
  }

  lemma {:induction false} TagsBack(xs: seq<Spelled>, rest: seq<Byte>)
    requires Writable(xs)
    ensures ReadTags(TagsBytes(xs) + rest, |xs|) == Success(Read(TagsOf(xs), rest))
  {
    hide ReadTag, TagBytes, Spells, Holds;
    if |xs| == 0 {
      assert TagsBytes(xs) + rest == rest;
    } else {
      var front, x := xs[..|xs| - 1], xs[|xs| - 1];
      var bytes := TagBytes(x.short, x.form, x.tag);
      TagsBack(front, bytes + rest);
      assert TagsBytes(xs) + rest == TagsBytes(front) + (bytes + rest);
      TagRoundTrip(x.short, x.form, x.tag, rest);
      assert TagsOf(xs) == TagsOf(front) + [x.tag];
    }
  }

  // ----- What a row says -----------------------------------------------------------------------

  /** The tag at this position is the last of its name. */
  predicate LastAt(ts: seq<Tag>, id: Byte, i: nat)
    requires i < |ts|
  {
    ts[i].name == Id(id) && forall j :: i < j < |ts| ==> ts[j].name != Id(id)
  }

  lemma {:induction false} LookupExactly(ts: seq<Tag>, id: Byte)
    ensures Lookup(ts, id).None? <==> forall i :: 0 <= i < |ts| ==> ts[i].name != Id(id)
    ensures Lookup(ts, id).Some? <==> exists i :: 0 <= i < |ts| && LastAt(ts, id, i)
    ensures forall i :: 0 <= i < |ts| && LastAt(ts, id, i) ==> Lookup(ts, id) == Some(ts[i].value)
  {
    if |ts| > 0 {
      var n := |ts| - 1;
      var front := ts[..n];
      LookupExactly(front, id);
      assert forall i :: 0 <= i < n ==> front[i] == ts[i];
      if ts[n].name == Id(id) {
        assert LastAt(ts, id, n);
      } else {
        assert forall i :: 0 <= i < n ==> (LastAt(ts, id, i) <==> LastAt(front, id, i));
      }
    }
  }

  /** The value counts as the number: nothing as zero, a truth value as zero or one. */
  predicate CountsAs(v: Option<TagValue>, n: nat) {
    match v
    case None => n == 0
    case Some(Integer(k)) => n == k
    case Some(Flag(b)) => n == (if b then 1 else 0)
    case Some(_) => false
  }

  predicate IsNumber(v: Option<TagValue>) {
    v.None? || v.value.Integer? || v.value.Flag?
  }

  /** Or works bit by bit. */
  lemma {:induction false} OrBits(a: nat, b: nat, k: nat)
    ensures Bit(Or(a, b), k) <==> Bit(a, k) || Bit(b, k)
  {
    if a == 0 || b == 0 {
      NoBits(k);
    } else {
      var low := if a % 2 == 1 || b % 2 == 1 then 1 else 0;
      assert Or(a, b) == low + 2 * Or(a / 2, b / 2);
      assert Or(a, b) / 2 == Or(a / 2, b / 2) && Or(a, b) % 2 == low;
      if k > 0 {
        OrBits(a / 2, b / 2, k - 1);
      }
    }
  }

  lemma {:induction false} NoBits(k: nat)
    ensures !Bit(0, k)
  {
    if k > 0 {
      NoBits(k - 1);
    }
  }

  /** A row as it goes over the wire: a hash, an address and any tags in any forms. */
  datatype RowForm = RowForm(hash: seq<Byte>, sourceId: nat, sourcePort: nat, tags: seq<Spelled>)

  predicate WritableRow(r: RowForm) {
    |r.hash| == 16 && r.sourceId < GIB4 && r.sourcePort < KIB64 && |r.tags| < GIB4 && Writable(r.tags)
  }

  function RowBytes(r: RowForm): seq<Byte>
    requires WritableRow(r)
  {
    r.hash + Little(r.sourceId, 4) + Little(r.sourcePort, 2) + Little(|r.tags|, 4) + TagsBytes(r.tags)
  }

  /** Every number the row is made from is one: its size (0x02), the high half of it (0x3A),
      its sources (0x15) and its complete sources (0x30). */
  predicate ReadableRow(ts: seq<Tag>) {
    && IsNumber(Lookup(ts, 0x02)) && IsNumber(Lookup(ts, 0x3A))
    && IsNumber(Lookup(ts, 0x15)) && IsNumber(Lookup(ts, 0x30))
  }

  /** The row says what the last tags of its five names say; the size is put together from
      its two halves bit by bit, so that they add up when the low one has 32 bits. */
  ghost predicate RowSays(row: Row, r: RowForm) {
    var ts := TagsOf(r.tags);
    && row.hash == r.hash && row.sourceId == r.sourceId && row.sourcePort == r.sourcePort
    && (exists low: nat, high: nat ::
          && CountsAs(Lookup(ts, 0x02), low) && CountsAs(Lookup(ts, 0x3A), high)
          && Combines(row.size, low, high))
    && CountsAs(Lookup(ts, 0x15), row.sources) && CountsAs(Lookup(ts, 0x30), row.completeSources)
    && (if Lookup(ts, 0x01).Some? then Some(row.name) == Lookup(ts, 0x01) else row.name == Text([]))
  }

  ghost predicate Combines(size: nat, low: nat, high: nat) {
    && (forall k: nat :: Bit(size, k) <==> Bit(low, k) || Bit(high * GIB4, k))
    && (low < GIB4 ==> size == low + high * GIB4)
  }

  lemma SizeCombines(low: nat, high: nat)
    ensures Combines(Or(low, high * GIB4), low, high)
  {
    hide Or, Bit, Pow2;
    forall k: nat {
      OrBits(low, high * GIB4, k);
    }
    if low < GIB4 {
      ThirtyTwo();
      OrDisjoint(low, high, 32);
    }
  }

  lemma IntegerExactly(ts: seq<Tag>, id: Byte)
    ensures IntegerOf(ts, id).Success? <==> IsNumber(Lookup(ts, id))
    ensures IntegerOf(ts, id).Success? ==> CountsAs(Lookup(ts, id), IntegerOf(ts, id).value)
  {
    hide Lookup;
  }

  /** A row with any tags is read exactly when its numbers are numbers, and then it says
      what its tags say. */
  lemma RowRoundTrip(r: RowForm, rest: seq<Byte>)
    requires WritableRow(r)
    ensures ReadRow(RowBytes(r) + rest).Success? <==> ReadableRow(TagsOf(r.tags))
    ensures ReadRow(RowBytes(r) + rest).Success? ==>
      RowSays(ReadRow(RowBytes(r) + rest).value.value, r) && ReadRow(RowBytes(r) + rest).value.rest == rest
  {
    hide Little, Value, Bound, ReadTag, ReadTags, TagsBytes, Lookup, Or, Combines, Writable, TagsOf, CountsAs, IsNumber;
    Bounds();
    var ts, tail := TagsOf(r.tags), TagsBytes(r.tags) + rest;
    var counted := Little(|r.tags|, 4) + tail;
    var ported := Little(r.sourcePort, 2) + counted;
    var addressed := Little(r.sourceId, 4) + ported;
    assert RowBytes(r) + rest == r.hash + addressed;
    TakeBack(r.hash, addressed);
    NumberBack(r.sourceId, 4, ported);
    NumberBack(r.sourcePort, 2, counted);
    NumberBack(|r.tags|, 4, tail);
    TagsBack(r.tags, rest);
    IntegerExactly(ts, FT_FILESIZE);
    IntegerExactly(ts, FT_FILESIZE_HI);
    IntegerExactly(ts, FT_SOURCES);
    IntegerExactly(ts, FT_COMPLETE_SOURCES);
    if ReadableRow(ts) {
      SizeCombines(IntegerOf(ts, FT_FILESIZE).value, IntegerOf(ts, FT_FILESIZE_HI).value);
    }
  }

  // ----- Whole results -------------------------------------------------------------------------

  predicate WritableRows(rs: seq<RowForm>) {
    forall i :: 0 <= i < |rs| ==> WritableRow(rs[i]) && ReadableRow(TagsOf(rs[i].tags))
  }

  function RowsBytes(rs: seq<RowForm>): seq<Byte>
    requires WritableRows(rs)
  {
    if |rs| == 0 then [] else RowsBytes(rs[..|rs| - 1]) + RowBytes(rs[|rs| - 1])
  }

  lemma {:induction false} RowsBack(rs: seq<RowForm>, rest: seq<Byte>)
    requires WritableRows(rs)
    ensures ReadRows(RowsBytes(rs) + rest, |rs|).Success?
    ensures
      var r := ReadRows(RowsBytes(rs) + rest, |rs|).value;
      r.rest == rest && |r.value| == |rs| && forall i :: 0 <= i < |rs| ==> RowSays(r.value[i], rs[i])
  {
    hide ReadRow, RowBytes, RowSays, WritableRow, ReadableRow;
    if |rs| == 0 {
      assert RowsBytes(rs) + rest == rest;
    } else {
      var front, last := rs[..|rs| - 1], rs[|rs| - 1];
      RowsBack(front, RowBytes(last) + rest);
      assert RowsBytes(rs) + rest == RowsBytes(front) + (RowBytes(last) + rest);
      RowRoundTrip(last, rest);
    }
  }

  /** Any rows are read back in order, with at most one byte behind them. */
  lemma ResultsRoundTrip(rs: seq<RowForm>, tail: seq<Byte>)
    requires WritableRows(rs) && |rs| < GIB4
    ensures DecodeSearchResults(Little(|rs|, 4) + RowsBytes(rs) + tail).Success? <==> |tail| <= 1
    ensures |tail| <= 1 ==>
      var rows := DecodeSearchResults(Little(|rs|, 4) + RowsBytes(rs) + tail).value;
      |rows| == |rs| && forall i :: 0 <= i < |rs| ==> RowSays(rows[i], rs[i])
  {
    hide Little, Value, Bound, ReadRows, RowsBytes, RowSays, WritableRows;
    Bounds();
    assert Little(|rs|, 4) + RowsBytes(rs) + tail == Little(|rs|, 4) + (RowsBytes(rs) + tail);
    NumberBack(|rs|, 4, RowsBytes(rs) + tail);
    RowsBack(rs, tail);
  }
}
