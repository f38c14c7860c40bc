/** The incremental scan against the loader that reads a whole run at once. */
module RunScanBatch {
  import opened Wrappers
  import opened Blanks
  import opened JsonFields
  import opened RunIndex
  import opened RunScan
  import opened RunScanTheorems

  predicate InStep(previous: Option<int>, x: Index) {
    previous.Some? ==> x.process.last.Some? && x.process.last.value == previous.value
  }

  /** Records the index accepts, the batch loader accepts too. */
  lemma {:induction false} RecordsInStep(rs: seq<Record>, run: RunId, id: nat, previous: Option<int>, x: Index)
    requires Envelopes(rs, run, id) && AdvanceRecords(x, rs).Success? && InStep(previous, x)
    ensures LoadRecords(rs, run, id, previous).Success?
    ensures InStep(LoadRecords(rs, run, id, previous).value, AdvanceRecords(x, rs).value)
  {
    hide CountRecord, AdvanceFamily, AdvanceSegment, SameRun;
    if |rs| > 0 {
      RecordsInStep(rs[..|rs| - 1], run, id, previous, x);
      hide Envelope;
      assert Envelope(rs[|rs| - 1], run, id);
    }
  }

  lemma {:induction false} LoadedEnvelopes(rs: seq<Record>, run: RunId, id: nat, previous: Option<int>)
    requires LoadRecords(rs, run, id, previous).Success?
    ensures Envelopes(rs, run, id)
  {
    hide Envelope;
    if |rs| > 0 {
      LoadedEnvelopes(rs[..|rs| - 1], run, id, previous);
      assert forall i :: 0 <= i < |rs| - 1 ==> rs[..|rs| - 1][i] == rs[i];
    }
  }

  lemma {:induction false} SegmentsInStep(segs: map<nat, Content>, run: RunId, lo: nat, hi: int, x: Index)
    requires Covers(segs, lo, hi) && Clean(segs, run, lo, hi) && AdvanceRecords(x, Flat(segs, lo, hi)).Success?
    ensures LoadSegments(segs, run, lo, hi).Success?
    ensures LoadSegments(segs, run, lo, hi).value.0 == Flat(segs, lo, hi)
    ensures InStep(LoadSegments(segs, run, lo, hi).value.1, AdvanceRecords(x, Flat(segs, lo, hi)).value)
    decreases hi - lo
  {
    hide AdvanceRecords, LoadRecords, Envelopes;
    if lo < hi {
      var front := Flat(segs, lo, hi - 1);
      AdvanceInParts(x, front, segs[hi - 1].rs);
      SegmentsInStep(segs, run, lo, hi - 1, x);
      RecordsInStep(segs[hi - 1].rs, run, hi - 1, LoadSegments(segs, run, lo, hi - 1).value.1,
        AdvanceRecords(x, front).value);
    }
  }

  lemma {:induction false} LoadedClean(segs: map<nat, Content>, run: RunId, lo: nat, hi: int)
    requires Covers(segs, lo, hi) && LoadSegments(segs, run, lo, hi).Success?
    ensures Clean(segs, run, lo, hi) && LoadSegments(segs, run, lo, hi).value.0 == Flat(segs, lo, hi)
    decreases hi - lo
  {
    hide LoadRecords, Envelopes;
    if lo < hi {
      LoadedClean(segs, run, lo, hi - 1);
      LoadedEnvelopes(segs[hi - 1].rs, run, hi - 1, LoadSegments(segs, run, lo, hi - 1).value.1);
    }
  }

  // ----- Agreement ------------------------------------------------------------------

  /** The files retained are those of the segments from `k` on that the
      checkpoint counted, unchanged. */
  ghost predicate Retained(files: seq<File>, cp: Checkpoint, k: nat, content: map<nat, Content>) {
    && cp.source.count > 0 && cp.source.first.Some? && cp.source.last.Some?
    && cp.source.first.value <= k <= cp.source.last.value
    && RunSegments(files).Success? && Agrees(files, content, None)
    && RunSegments(files).value.Keys == Range(k, cp.source.last.value + 1)
  }

  /** Whatever suffix of the consumed segments is retained, the batch loader
      reads exactly its records, as long as the run identifier is not blank. */
  lemma BatchAgrees(files: seq<File>, cp: Checkpoint, run: RunId, k: nat, content: map<nat, Content>)
    requires Faithful(cp, run, content) && Retained(files, cp, k, content) && run.processId > 0
    ensures Covers(content, k, cp.source.last.value + 1)
    ensures
      if BlankId(run.runId) then LoadExactRun(files, run).Failure?
      else LoadExactRun(files, run) == Success(Flat(content, k, cp.source.last.value + 1))
  {
    hide AdvanceRecords, LoadSegments, Clean;
    var segs := RunSegments(files).value;
    var first, hi := cp.source.first.value, cp.source.last.value + 1;
    FlatSplit(content, first, k, hi);
    AdvanceInParts(NewRunIndex(run), Flat(content, first, k), Flat(content, k, hi));
    var y := AdvanceRecords(NewRunIndex(run), Flat(content, first, k)).value;
    var ids := NewIds(segs, None, None);
    assert ids == segs.Keys;
    FilesCover(files, content, None, None, k, hi);
    FlatSame(segs, content, k, hi);
    SuffixClean(segs, content, run, first, k, hi);
    SegmentsInStep(segs, run, k, hi, y);
    assert k in ids && hi - 1 in ids;
    assert Min(ids) == k && Max(ids) == hi - 1;
  }

  lemma SuffixClean(segs: map<nat, Content>, content: map<nat, Content>, run: RunId, first: nat, k: nat, hi: int)
    requires Covers(content, first, hi) && Clean(content, run, first, hi) && first <= k && Covers(segs, k, hi)
    requires forall id: nat :: k <= id < hi ==> segs[id] == content[id]
    ensures Clean(segs, run, k, hi)
  {
  }

  /** Finalizing a whole run without a checkpoint succeeds exactly when its identity
      is not empty, one pass over its files succeeds, the index accepts the records
      that pass returns, and the files reach the writer's last segment; the index is
      then one pass over those records. The batch loader is that same pass unless
      the run identifier is blank. */
  lemma FinalizeIsBatch(files: seq<File>, observed: string, health: Health)
    ensures
      var run := health.run;
      var whole := FinalizeStoppedRun(files, run.client, observed, None, Some(health));
      var batch := LoadRun(files, run);
      && (whole.Success? <==>
            && run.processId > 0 && run.runId != "" && observed != "" && !health.regressed
            && batch.Success? && AdvanceRecords(NewRunIndex(run), batch.value).Success?
            && health.active <= Max(NewIds(RunSegments(files).value, None, None)))
      && (whole.Success? ==> AdvanceRecords(NewRunIndex(run), batch.value) == Success(whole.value.index))
      && (run.processId > 0 && !BlankId(run.runId) ==> LoadExactRun(files, run) == batch)
  {
    hide AdvanceRecords, LoadSegments, Clean, AdvanceSegments, RunSegments, NewIds, CoverageOf, ConsumedTo, BlankId;
    var run := health.run;
    if RunSegments(files).Success? {
      var segs := RunSegments(files).value;
      var ids := NewIds(segs, None, None);
      if ids != {} && ids == Range(Min(ids), Max(ids) + 1) {
        var lo, hi := Min(ids), Max(ids) + 1;
        RangeCovered(segs, None, None, lo, hi);
        SegmentsAreOneFold(NewRunIndex(run), NEW_SOURCE, run, segs, lo, hi);
        if LoadSegments(segs, run, lo, hi).Success? {
          LoadedClean(segs, run, lo, hi);
        }
        if Clean(segs, run, lo, hi) && AdvanceRecords(NewRunIndex(run), Flat(segs, lo, hi)).Success? {
          SegmentsInStep(segs, run, lo, hi, NewRunIndex(run));
        }
      }
    }
  }

  // ----- Where the two differ ---------------------------------------------------------

  lemma {:induction false} SegmentOf(x: Index, rs: seq<Record>, run: RunId, id: nat)
    requires Envelopes(rs, run, id) && AdvanceRecords(x, rs).Success?
    ensures AdvanceRecords(x, rs).value.segments.last == if |rs| == 0 then x.segments.last else Some(id)
    ensures |rs| > 0 && x.segments.last.Some? ==> x.segments.last.value <= id <= x.segments.last.value + 1
  {
    hide CountRecord, AdvanceFamily, SameRun;
    if |rs| > 0 {
      var front := rs[..|rs| - 1];
      assert Envelopes(front, run, id);
      SegmentOf(x, front, run, id);
      assert Envelope(rs[|rs| - 1], run, id);
    }
  }

  /** The index's last segment is the last one that held a record, and no empty
      segment lies before it and after another that held one. */
  ghost predicate GapFree(segs: map<nat, Content>, lo: nat, hi: int, last: Option<nat>)
    requires Covers(segs, lo, hi)
  {
    && (forall id: nat :: lo <= id < hi && segs[id].Records? && segs[id].rs != [] ==> last.Some? && id <= last.value)
    && (last.Some? ==> lo <= last.value < hi && segs[last.value].Records? && segs[last.value].rs != [])
    && forall a: nat, b: nat, c: nat ::
         lo <= a < b < c < hi && segs[a].Records? && segs[a].rs != [] && segs[c].Records? && segs[c].rs != [] ==>
           segs[b].Records? && segs[b].rs != []
  }

  lemma {:induction false} FoldIsGapFree(segs: map<nat, Content>, run: RunId, lo: nat, hi: int)
    requires Covers(segs, lo, hi) && Clean(segs, run, lo, hi)
    requires AdvanceRecords(NewRunIndex(run), Flat(segs, lo, hi)).Success?
    ensures GapFree(segs, lo, hi, AdvanceRecords(NewRunIndex(run), Flat(segs, lo, hi)).value.segments.last)
    decreases hi - lo
  {
    hide AdvanceRecords, Envelopes;
    if lo < hi {
      AdvanceInParts(NewRunIndex(run), Flat(segs, lo, hi - 1), segs[hi - 1].rs);
      FoldIsGapFree(segs, run, lo, hi - 1);
      SegmentOf(AdvanceRecords(NewRunIndex(run), Flat(segs, lo, hi - 1)).value, segs[hi - 1].rs, run, hi - 1);
    } else {
      NoRecords(NewRunIndex(run));
    }
  }

  /** The scan never counts an empty segment between two that hold records,
      although the batch loader reads such runs. */
  lemma EmptySegmentsOnlyAtTheEnds(cp: Checkpoint, run: RunId, content: map<nat, Content>, a: nat, b: nat, c: nat)
    requires Faithful(cp, run, content) && cp.source.count > 0
    requires cp.source.first.value <= a < b < c <= cp.source.last.value
    requires content[a].rs != [] && content[c].rs != []
    ensures content[b].rs != []
  {
    hide AdvanceRecords, SourceConsistent, Envelopes, Flat;
    FoldIsGapFree(content, run, cp.source.first.value, cp.source.last.value + 1);
  }

  function SampleRecord(run: RunId, segment: nat, seqNo: nat): Record {
    Record(true, Text(run.client), Num(run.processId), Text(run.runId), Num(segment), Num(seqNo), Num(seqNo),
           Text("f"), Text("e"), Text("s"), Some(Body(Missing, Missing, Missing, Missing, Missing)),
           Some(Keys([], Missing, Missing)))
  }

  function GappedFiles(run: RunId): seq<File> {
    [File(0, Records([SampleRecord(run, 0, 1)])), File(1, Records([])), File(2, Records([SampleRecord(run, 2, 2)]))]
  }

  /** A run with an empty middle segment: the batch loader reads it, the final
      pass refuses it. */
  lemma EmptyMiddleSegment(run: RunId, observed: string, health: Health)
    requires run.processId > 0 && !BlankId(run.runId) && health.run == run
    ensures LoadExactRun(GappedFiles(run), run) == Success([SampleRecord(run, 0, 1), SampleRecord(run, 2, 2)])
    ensures FinalizeStoppedRun(GappedFiles(run), run.client, observed, None, Some(health)).Failure?
  {
    var files := GappedFiles(run);
    var segs := map[0 := Records([SampleRecord(run, 0, 1)]), 1 := Records([]), 2 := Records([SampleRecord(run, 2, 2)])];
    GappedListing(run);
    var ids := NewIds(segs, None, None);
    assert ids == {0, 1, 2} == Range(0, 3);
    assert Min(ids) == 0 && Max(ids) == 2;
    GappedLoad(run, segs);
    if FinalizeStoppedRun(files, run.client, observed, None, Some(health)).Success? {
      FinalizeIsBatch(files, observed, health);
      RangeCovered(segs, None, None, 0, 3);
      LoadedClean(segs, run, 0, 3);
      FoldIsGapFree(segs, run, 0, 3);
      assert false;
    }
  }

  lemma GappedListing(run: RunId)
    ensures RunSegments(GappedFiles(run))
            == Success(map[0 := Records([SampleRecord(run, 0, 1)]), 1 := Records([]),
              2 := Records([SampleRecord(run, 2, 2)])])
  {
    var files := GappedFiles(run);
    assert files[..2][..1] == files[..1] && files[..1][..0] == [];
    assert RunSegments(files[..1]) == Success(map[0 := files[0].content]);
    assert RunSegments(files[..2]) == Success(map[0 := files[0].content, 1 := files[1].content]);
  }

  lemma GappedLoad(run: RunId, segs: map<nat, Content>)
    requires segs
      == map[0 := Records([SampleRecord(run, 0, 1)]), 1 := Records([]), 2 := Records([SampleRecord(run, 2, 2)])]
    ensures LoadSegments(segs, run, 0, 3) == Success(([SampleRecord(run, 0, 1), SampleRecord(run, 2, 2)], Some(2)))
  {
    var one, two := SampleRecord(run, 0, 1), SampleRecord(run, 2, 2);
    assert [one][..0] == [] && [two][..0] == [];
    assert LoadRecords([one], run, 0, None) == Success(Some(1));
    assert LoadSegments(segs, run, 0, 0) == Success(([], None));
    assert Covers(segs, 0, 0) && Covers(segs, 0, 1) && Covers(segs, 0, 2);
    assert segs[0] == Records([one]) && segs[1] == Records([]) && segs[2] == Records([two]);
    assert [] + [one] == [one] && [one] + [] == [one];
    assert LoadSegments(segs, run, 0, 1) == Success(([one], Some(1)));
    assert LoadSegments(segs, run, 0, 2) == Success(([one], Some(1)));
    assert LoadRecords([two], run, 2, Some(1)) == Success(Some(2)) by {
      assert LoadRecords([], run, 2, Some(1)) == Success(Some(1));
    }
    assert [one] + [two] == [one, two];
  }
}
