/**
 Restart-safe scanning of the immutable segments of one diagnostic run: a
 checkpoint says which segments were consumed, and each scan or the final
 pass advances it over exactly the next ones.
 */
module RunScan {
  import opened Wrappers
  import opened Blanks
  import opened JsonFields
  import opened RunIndex

  // ----- Values --------------------------------------------------------------

  datatype RunId = RunId(client: string, processId: nat, runId: string)

  /** What reading one segment file yields. */
  datatype Content = Unreadable | Records(rs: seq<Record>)

  /** One file of the run in the profile directory. */
  datatype File = File(id: nat, content: Content)

  /** A writer-health sample; `regressed` stands for the index refusing its fields. */
  datatype Health = Health(run: RunId, active: nat, regressed: bool)

  datatype Coverage = Awaiting | FromRunStart | RetainedSuffix

  datatype Source = Source(
    coverage: Coverage, active: Option<nat>, finalized: bool, finalizedAt: Option<string>,
    first: Option<nat>, last: Option<nat>, omitted: Option<nat>, count: nat, lastSegment: Option<nat>,
    startAfter: Option<nat>)

  datatype Checkpoint = Checkpoint(run: RunId, updated: string, source: Source, index: Index)

  const NEW_SOURCE := Source(Awaiting, None, false, None, None, None, None, 0, None, None)

  function NewRunIndex(run: RunId): Index {
    NewIndex(run.client, run.processId, run.runId)
  }

  // ----- Checks ----------------------------------------------------------------

  function CoverageOf(s: Source): Coverage {
    if s.first.None? then Awaiting else if s.first.value == 0 then FromRunStart else RetainedSuffix
  }

  predicate SourceConsistent(s: Source) {
    && (s.finalized ==> s.active.None? && s.finalizedAt.Some?)
    && (!s.finalized ==> s.active.Some? && s.finalizedAt.None?)
    && (s.count == 0 ==>
          && s.first.None? && s.last.None? && s.omitted.None? && s.lastSegment.None? && s.coverage == Awaiting
          && (s.startAfter.Some? && s.active.Some? ==> s.startAfter.value < s.active.value))
    && (s.count > 0 ==>
          && s.first.Some? && s.last.Some? && s.omitted == s.first && s.first.value <= s.last.value
          && (s.startAfter.Some? ==> s.first.value == s.startAfter.value + 1)
          && s.count == s.last.value - s.first.value + 1
          && (s.active.Some? ==> s.last.value < s.active.value)
          && s.lastSegment == s.last && s.coverage == CoverageOf(s))
  }

  function LoadCheckpoint(cp: Option<Checkpoint>, run: RunId): Result<(Index, Source)> {
    if cp.None? then Success((NewRunIndex(run), NEW_SOURCE))
    else if cp.value.run != run then Failure("checkpoint identity mismatch")
    else if cp.value.source.finalizedAt == Some("") then Failure("source.finalizedUtc")
    else if !SourceConsistent(cp.value.source) then Failure("source state is inconsistent")
    else Success((cp.value.index, cp.value.source))
  }

  /** The files of the run by segment ID; two files of one segment are an error. */
  function RunSegments(files: seq<File>): Result<map<nat, Content>> {
    if |files| == 0 then Success(map[])
    else
      var f := files[|files| - 1];
      var front :- RunSegments(files[..|files| - 1]);
      if f.id in front then Failure("duplicate segment ID") else Success(front[f.id := f.content])
  }

  function Range(lo: nat, hi: int): (ids: set<nat>)
    ensures forall id: nat :: id in ids <==> lo <= id < hi
    decreases hi - lo
  {
    if hi <= lo then {} else Range(lo, hi - 1) + {hi - 1}
  }

  function NewIds(segs: map<nat, Content>, after: Option<nat>, below: Option<nat>): set<nat> {
    set id | id in segs && (after.None? || id > after.value) && (below.None? || id < below.value)
  }

  predicate IsMin(ids: set<nat>, m: nat) {
    m in ids && forall i :: i in ids ==> m <= i
  }

  predicate IsMax(ids: set<nat>, m: nat) {
    m in ids && forall i :: i in ids ==> i <= m
  }

  lemma {:induction false} SomeExtremes(ids: set<nat>)
    requires ids != {}
    ensures (exists m :: IsMin(ids, m)) && exists m :: IsMax(ids, m)
  {
    var x :| x in ids;
    if ids == {x} {
      assert IsMin(ids, x) && IsMax(ids, x);
    } else {
      var rest := ids - {x};
      assert rest != {};
      SomeExtremes(rest);
      assert ids == rest + {x};
      var lo :| IsMin(rest, lo);
      var hi :| IsMax(rest, hi);
      assert IsMin(ids, if x < lo then x else lo);
      assert IsMax(ids, if x > hi then x else hi);
    }
  }

  function Min(ids: set<nat>): (m: nat)
    requires ids != {}
    ensures IsMin(ids, m)
  {
    SomeExtremes(ids);
    var m :| IsMin(ids, m);
    m
  }

  function Max(ids: set<nat>): (m: nat)
    requires ids != {}
    ensures IsMax(ids, m)
  {
    SomeExtremes(ids);
    var m :| IsMax(ids, m);
    m
  }

  function Next(id: nat): Result<nat> {
    Success(id + 1)
  }

  /** The first segment a live scan must take, given the ones it found. */
  function ClosedStart(ids: set<nat>, active: nat, last: Option<nat>, startAfter: Option<nat>): Result<nat> {
    if last.None? then
      if startAfter.Some? then Next(startAfter.value)
      else if active == 0 then Success(0)
      else if ids != {} then Success(Min(ids))
      else Failure("no retained closed diagnostic segment is available")
    else if last.value >= active then Failure("checkpoint closed segment is not before the active segment")
    else Next(last.value)
  }

  function RequireClosedSuffix(ids: set<nat>, active: nat, last: Option<nat>, startAfter: Option<nat>): Result<nat> {
    var start :- ClosedStart(ids, active, last, startAfter);
    if ids != Range(start, active) then Failure("closed diagnostic segment suffix is incomplete") else Success(start)
  }

  /** The first and the last segment the final pass must take. */
  function RequireFinalSuffix(ids: set<nat>, last: Option<nat>, lastActive: Option<nat>, startAfter: Option<nat>)
    : Result<(nat, nat)>
  {
    if ids == {} then Failure("no retained stopped diagnostic segment is available")
    else
      var final := Max(ids);
      if lastActive.Some? && final < lastActive.value then
        Failure("suffix does not reach the last observed active segment")
      else
        var first: nat := if last.Some? then last.value + 1 else if startAfter.Some? then startAfter.value + 1
          else Min(ids);
        if ids != Range(first, final + 1) then Failure("stopped diagnostic segment suffix is incomplete")
        else Success((first, final))
  }

  // ----- Consuming segments -------------------------------------------------------

  predicate Envelope(r: Record, run: RunId, id: nat) {
    SameRun(r, run.client, run.processId, run.runId) && EqualsNumber(r.segmentId, id)
  }

  predicate Envelopes(rs: seq<Record>, run: RunId, id: nat) {
    forall i :: 0 <= i < |rs| ==> Envelope(rs[i], run, id)
  }

  function Consumed(s: Source, id: nat): Source {
    s.(first := if s.first.None? then Some(id) else s.first,
       omitted := if s.first.None? then Some(id) else s.omitted,
       last := Some(id), count := s.count + 1, lastSegment := Some(id))
  }

  function ConsumeSegment(x: Index, s: Source, run: RunId, id: nat, content: Content): Result<(Index, Source)> {
    if content.Unreadable? then Failure("segment is unreadable")
    else if !Envelopes(content.rs, run, id) then Failure("diagnostic segment envelope mismatch")
    else
      var y :- AdvanceRecords(x, content.rs);
      Success((y, Consumed(s, id)))
  }

  predicate Covers(segs: map<nat, Content>, lo: nat, hi: int) {
    forall id: nat :: lo <= id < hi ==> id in segs
  }

  /** The segments from `lo` up to `hi`, in order. */
  function AdvanceSegments(x: Index, s: Source, run: RunId, segs: map<nat, Content>, lo: nat, hi: int)
    : Result<(Index, Source)>
    requires Covers(segs, lo, hi)
    decreases hi - lo
  {
    if hi <= lo then Success((x, s))
    else
      var front :- AdvanceSegments(x, s, run, segs, lo, hi - 1);
      ConsumeSegment(front.0, front.1, run, hi - 1, segs[hi - 1])
  }

  lemma RangeCovered(segs: map<nat, Content>, after: Option<nat>, below: Option<nat>, lo: nat, hi: int)
    requires NewIds(segs, after, below) == Range(lo, hi)
    ensures Covers(segs, lo, hi)
  {
    forall id: nat | lo <= id < hi
      ensures id in segs
    {
      assert id in Range(lo, hi);
      assert id in NewIds(segs, after, below);
    }
  }

  function After(s: Source): Option<nat> {
    if s.last.Some? then s.last else s.startAfter
  }

  // ----- The two passes --------------------------------------------------------------

  /** Indexes every newly closed segment while leaving the active one untouched. */
  function ScanClosedSegments(
    files: seq<File>, health: Health, observed: string, cp: Option<Checkpoint>, tail: bool): Result<Checkpoint>
  {
    var run := health.run;
    if run.processId == 0 || run.runId == "" then Failure("writer health identity")
    else
      var loaded :- LoadCheckpoint(cp, run);
      var (x, s) := loaded;
      if s.finalized then Failure("already finalized")
      else if observed == "" || health.regressed then Failure("writer health")
      else if tail && cp.Some? then Failure("tail_from_active requires a new checkpoint")
      else if s.active.Some? && health.active < s.active.value then Failure("writer active segment regressed")
      else if tail then
        var started := s.(startAfter := if health.active > 0 then Some(health.active - 1) else None,
          active := Some(health.active));
        Success(Checkpoint(run, observed, started.(coverage := CoverageOf(started)), x))
      else
        var segs :- RunSegments(files);
        var ids := NewIds(segs, After(s), Some(health.active));
        var start :- RequireClosedSuffix(ids, health.active, s.last, s.startAfter);
        RangeCovered(segs, After(s), Some(health.active), start, health.active);
        var advanced :- AdvanceSegments(x, s, run, segs, start, health.active);
        var t := advanced.1.(active := Some(health.active), finalized := false, finalizedAt := None);
        Success(Checkpoint(run, observed, t.(coverage := CoverageOf(t)), advanced.0))
  }

  /** Indexes everything that is left once the writer has stopped. */
  function FinalizeStoppedRun(
    files: seq<File>, client: string, observed: string, cp: Option<Checkpoint>,
      health: Option<Health>): Result<Checkpoint>
  {
    if cp.None? && health.None? then Failure("writer health is required")
    else
      var run := if cp.None? then health.value.run else RunId(client, cp.value.run.processId, cp.value.run.runId);
      if run.client != client || run.processId == 0 || run.runId == "" then Failure("run identity")
      else
        var loaded :- LoadCheckpoint(cp, run);
        var (x, s) := loaded;
        if s.finalized then Success(cp.value)
        else if cp.None? && (observed == "" || health.value.regressed) then Failure("writer health")
        else
          var lastActive := if s.active.Some? then s.active else Some(health.value.active);
          var segs :- RunSegments(files);
          var ids := NewIds(segs, After(s), None);
          var ends :- RequireFinalSuffix(ids, s.last, lastActive, s.startAfter);
          RangeCovered(segs, After(s), None, ends.0, ends.1 + 1);
          var advanced :- AdvanceSegments(x, s, run, segs, ends.0, ends.1 + 1);
          var t := advanced.1.(active := None, finalized := true, finalizedAt := Some(observed));
          Success(Checkpoint(run, observed, t.(coverage := CoverageOf(t)), advanced.0))
  }

  // ----- The batch loader --------------------------------------------------------------

  /** An integer for the batch loader, which takes a boolean for one. */
  function IntLike(v: Json): Option<int> {
    match v
    case Num(n) => Some(n)
    case Bool(b) => Some(if b then 1 else 0)
    case _ => None
  }

  /** The previous sequence number after the records of one segment. */
  function LoadRecords(rs: seq<Record>, run: RunId, id: nat, previous: Option<int>): Result<Option<int>> {
    if |rs| == 0 then Success(previous)
    else
      var r := rs[|rs| - 1];
      var before :- LoadRecords(rs[..|rs| - 1], run, id, previous);
      if !Envelope(r, run, id) then Failure("mixed run identity")
      else if IntLike(r.seqNo).None? || IntLike(r.seqNo).value <= 0 then Failure("invalid process sequence")
      else if IntLike(r.streamSeq).None? || IntLike(r.streamSeq).value <= 0 then Failure("invalid stream sequence")
      else if before.Some? && IntLike(r.seqNo).value != before.value + 1 then Failure("non-contiguous process sequence")
      else Success(IntLike(r.seqNo))
  }

  function LoadSegments(segs: map<nat, Content>, run: RunId, lo: nat, hi: int): Result<(seq<Record>, Option<int>)>
    requires Covers(segs, lo, hi)
    decreases hi - lo
  {
    if hi <= lo then Success(([], None))
    else
      var front :- LoadSegments(segs, run, lo, hi - 1);
      match segs[hi - 1]
      case Unreadable => Failure("segment is unreadable")
      case Records(rs) =>
        var previous :- LoadRecords(rs, run, hi - 1, front.1);
        Success((front.0 + rs, previous))
  }

  /** One pass over the files of a run. */
  function LoadRun(files: seq<File>, run: RunId): Result<seq<Record>> {
    var segs :- RunSegments(files);
    var ids := NewIds(segs, None, None);
    if ids == {} then Failure("no exact run was found")
    else if ids != Range(Min(ids), Max(ids) + 1) then Failure("non-contiguous segment IDs")
    else
      RangeCovered(segs, None, None, Min(ids), Max(ids) + 1);
      var loaded :- LoadSegments(segs, run, Min(ids), Max(ids) + 1);
      Success(loaded.0)
  }

  /** The batch loader: that pass, for a run identity it accepts. */
  function LoadExactRun(files: seq<File>, run: RunId): Result<seq<Record>> {
    if run.processId == 0 || BlankId(run.runId) then Failure("run_id must be a non-empty string")
    else LoadRun(files, run)
  }
}
