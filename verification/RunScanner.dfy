/** The scanning loops: segments and records consumed one after the other. */
module RunScanner {
  import opened Wrappers
  import opened RunIndex
  import opened RunIndexer
  import opened RunScan

  lemma {:induction false} SegmentsFailEarly(
    x: Index, s: Source, run: RunId, segs: map<nat, Content>, lo: nat, mid: int, hi: int)
    requires Covers(segs, lo, hi) && mid <= hi && AdvanceSegments(x, s, run, segs, lo, mid).Failure?
    ensures AdvanceSegments(x, s, run, segs, lo, hi).Failure?
    decreases hi - mid
  {
    hide ConsumeSegment;
    if mid < hi {
      SegmentsFailEarly(x, s, run, segs, lo, mid, hi - 1);
    }
  }

  /** Indexes the segments from `lo` up to `hi` and moves the source on with each. */
  method ConsumeSegments(x: Index, s: Source, run: RunId, segs: map<nat, Content>, lo: nat, hi: int)
    returns (ok: bool, index: Index, source: Source)
    requires Covers(segs, lo, hi) && lo <= hi
    ensures ok == AdvanceSegments(x, s, run, segs, lo, hi).Success?
    ensures ok ==> (index, source) == AdvanceSegments(x, s, run, segs, lo, hi).value
  {
    hide AdvanceRecords, Envelopes;
    ok, index, source := true, x, s;
    for id := lo to hi
      invariant Covers(segs, lo, id)
      invariant AdvanceSegments(x, s, run, segs, lo, id) == Success((index, source))
    {
      var content := segs[id];
      ok := content.Records? && Envelopes(content.rs, run, id);
      if ok {
        var indexer := new Indexer(index);
        ok := indexer.AdvanceAll(content.rs);
        index := indexer.Value();
      }
      if !ok {
        SegmentsFailEarly(x, s, run, segs, lo, id + 1, hi);
        return;
      }
      if source.first.None? {
        source := source.(first := Some(id), omitted := Some(id));
      }
      source := source.(last := Some(id), count := source.count + 1, lastSegment := Some(id));
    }
    ok := true;
  }

  lemma {:induction false} LoadFailsEarly(segs: map<nat, Content>, run: RunId, lo: nat, mid: int, hi: int)
    requires Covers(segs, lo, hi) && mid <= hi && LoadSegments(segs, run, lo, mid).Failure?
    ensures LoadSegments(segs, run, lo, hi).Failure?
    decreases hi - mid
  {
    if mid < hi {
      LoadFailsEarly(segs, run, lo, mid, hi - 1);
    }
  }

  lemma {:induction false} RecordsFailEarly(rs: seq<Record>, run: RunId, id: nat, previous: Option<int>, i: nat)
    requires i <= |rs| && LoadRecords(rs[..i], run, id, previous).Failure?
    ensures LoadRecords(rs, run, id, previous).Failure?
  {
    if i < |rs| {
      assert rs[..|rs| - 1][..i] == rs[..i];
      RecordsFailEarly(rs[..|rs| - 1], run, id, previous, i);
    } else {
      assert rs[..i] == rs;
    }
  }

  /** Checks the records of one segment after those read before it. */
  method LoadSegment(rs: seq<Record>, run: RunId, id: nat, before: Option<int>)
      returns (ok: bool, previous: Option<int>)
    ensures ok == LoadRecords(rs, run, id, before).Success?
    ensures ok ==> previous == LoadRecords(rs, run, id, before).value
  {
    hide Envelope;
    ok, previous := true, before;
    for i := 0 to |rs|
      invariant LoadRecords(rs[..i], run, id, before) == Success(previous)
    {
      var r := rs[i];
      var seqNo := IntLike(r.seqNo);
      assert rs[..i + 1][..i] == rs[..i];
      if !Envelope(r, run, id) || seqNo.None? || seqNo.value <= 0
         || IntLike(r.streamSeq).None? || IntLike(r.streamSeq).value <= 0
         || (previous.Some? && seqNo.value != previous.value + 1) {
        RecordsFailEarly(rs, run, id, before, i + 1);
        return false, previous;
      }
      previous := seqNo;
    }
    assert rs[..|rs|] == rs;
  }

  /** Loads the segments of one run in order, carrying the previous sequence
      number from segment to segment. */
  method LoadInOrder(segs: map<nat, Content>, run: RunId, lo: nat, hi: int) returns (ok: bool, records: seq<Record>)
    requires Covers(segs, lo, hi) && lo <= hi
    ensures ok == LoadSegments(segs, run, lo, hi).Success?
    ensures ok ==> records == LoadSegments(segs, run, lo, hi).value.0
  {
    hide LoadRecords;
    records := [];
    var previous: Option<int> := None;
    for id := lo to hi
      invariant Covers(segs, lo, id)
      invariant LoadSegments(segs, run, lo, id) == Success((records, previous))
    {
      ok := segs[id].Records?;
      if ok {
        ok, previous := LoadSegment(segs[id].rs, run, id, previous);
      }
      if !ok {
        LoadFailsEarly(segs, run, lo, id + 1, hi);
        return;
      }
      records := records + segs[id].rs;
    }
    ok := true;
  }
}
