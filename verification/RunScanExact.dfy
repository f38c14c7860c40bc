/**
 Exactly when a pass over the segment files succeeds and what it then takes, and
 where the segments of a run that is followed from its tail begin.
 */
module RunScanExact {
  import opened Wrappers
  import opened Blanks
  import opened JsonFields
  import opened RunIndex
  import opened RunIndexHistory
  import opened RunScan
  import opened RunScanTheorems

  // ----- What the directory holds ------------------------------------------------------------

  predicate Keeps(files: seq<File>, id: nat) {
    exists i :: 0 <= i < |files| && files[i].id == id
  }

  predicate OneFileEach(files: seq<File>) {
    forall i, j :: 0 <= i < j < |files| ==> files[i].id != files[j].id
  }

  lemma {:induction false} ListingExactly(files: seq<File>)
    ensures RunSegments(files).Success? <==> OneFileEach(files)
    ensures RunSegments(files).Success? ==> forall id: nat :: id in RunSegments(files).value <==> Keeps(files, id)
  {
    if |files| > 0 {
      var front, f := files[..|files| - 1], files[|files| - 1];
      ListingExactly(front);
      assert forall i :: 0 <= i < |front| ==> front[i] == files[i];
      assert forall id: nat :: Keeps(files, id) <==> Keeps(front, id) || id == f.id by {
        forall id: nat | Keeps(front, id)
          ensures Keeps(files, id)
        {
          var i :| 0 <= i < |front| && front[i].id == id;
          assert files[i].id == id;
        }
        assert files[|files| - 1].id == f.id;
      }
    }
  }

  /** A segment behind `after` and before `end` that has a file. */
  ghost predicate Ahead(files: seq<File>, after: Option<nat>, end: int, id: nat) {
    Keeps(files, id) && id < end && (after.Some? ==> after.value < id)
  }

  /** The files behind `after` and before `end` are those of exactly the segments from
      `start` on. */
  ghost predicate NextSegments(files: seq<File>, after: Option<nat>, start: nat, end: int) {
    forall id: nat :: Ahead(files, after, end, id) <==> start <= id < end
  }

  lemma IdsExactly(files: seq<File>, after: Option<nat>, below: Option<nat>, start: nat, end: int)
    requires RunSegments(files).Success? && (below.Some? ==> below.value == end)
    requires below.None? ==> forall id: nat :: Keeps(files, id) ==> id < end
    ensures NewIds(RunSegments(files).value, after, below) == Range(start, end) <==>
      NextSegments(files, after, start, end)
  {
    hide Keeps, RunSegments;
    ListingExactly(files);
    var ids := NewIds(RunSegments(files).value, after, below);
    forall id: nat
      ensures id in ids <==> Ahead(files, after, end, id)
    {
      assert id in ids <==> Keeps(files, id) && id < end && (after.Some? ==> after.value < id);
    }
    if NextSegments(files, after, start, end) {
      forall id: nat
        ensures id in ids <==> id in Range(start, end)
      {
        assert Ahead(files, after, end, id) <==> start <= id < end;
      }
    }
    if ids == Range(start, end) {
      forall id: nat
        ensures Ahead(files, after, end, id) <==> start <= id < end
      {
        assert id in ids <==> id in Range(start, end);
      }
    }
  }

  // ----- Loading a checkpoint ----------------------------------------------------------------

  function SourceOf(cp: Option<Checkpoint>): Source {
    if cp.None? then NEW_SOURCE else cp.value.source
  }

  function IndexFrom(cp: Option<Checkpoint>, run: RunId): Index {
    if cp.None? then NewRunIndex(run) else cp.value.index
  }

  /** A checkpoint of this run whose source is consistent and whose final time, if it
      has one, is not empty. */
  predicate Loadable(cp: Option<Checkpoint>, run: RunId) {
    cp.Some? ==> cp.value.run == run && cp.value.source.finalizedAt != Some("") && SourceConsistent(cp.value.source)
  }

  /** The source records `n` segments from `lo` on. */
  predicate RecordsInterval(s: Source, lo: nat, n: nat) {
    && s.count == n
    && (s.first, s.omitted) == (if n == 0 then (None, None) else (Some(lo), Some(lo)))
    && (s.last, s.lastSegment) == (if n == 0 then (None, None) else (Some(lo + n - 1), Some(lo + n - 1)))
    && s.coverage == (if n == 0 then Awaiting else if lo == 0 then FromRunStart else RetainedSuffix)
  }

  /** A consistent source is the record of one interval of segments, which begins right
      behind the mark, if there is one, and ends before the active segment, of a run that
      is either live, with an active segment, or finalized, with a time. */
  lemma ConsistentExactly(s: Source)
    ensures SourceConsistent(s) <==>
      && (exists lo: nat ::
            && RecordsInterval(s, lo, s.count)
            && (s.startAfter.Some? && s.count > 0 ==> lo == s.startAfter.value + 1))
      && (if s.finalized then s.active.None? && s.finalizedAt.Some? else s.active.Some? && s.finalizedAt.None?)
      && (s.active.Some? && s.last.Some? ==> s.last.value < s.active.value)
      && (s.active.Some? && s.last.None? && s.startAfter.Some? ==> s.startAfter.value < s.active.value)
  {
    if SourceConsistent(s) {
      var lo: nat := if s.first.Some? then s.first.value else 0;
      assert RecordsInterval(s, lo, s.count);
    }
  }

  /** The records are of this run and say that they are of this segment. */
  predicate OwnRecords(rs: seq<Record>, run: RunId, id: nat) {
    forall i :: 0 <= i < |rs| ==> OfRun(rs[i], run.client, run.processId, run.runId) && Numbers(rs[i].segmentId, id)
  }

  /** Every segment is readable and holds records of its own only. */
  predicate Pure(segs: map<nat, Content>, run: RunId, lo: nat, hi: int)
    requires Covers(segs, lo, hi)
  {
    forall id: nat :: lo <= id < hi ==> segs[id].Records? && OwnRecords(segs[id].rs, run, id)
  }

  lemma OwnExactly(rs: seq<Record>, run: RunId, id: nat)
    ensures OwnRecords(rs, run, id) <==> Envelopes(rs, run, id)
  {
    hide OfRun, Numbers, SameRun, EqualsNumber;
    forall i | 0 <= i < |rs|
      ensures OfRun(rs[i], run.client, run.processId, run.runId) && Numbers(rs[i].segmentId, id) <==>
              Envelope(rs[i], run, id)
    {
      OfRunExactly(rs[i], run.client, run.processId, run.runId);
      NumbersExactly(rs[i].segmentId, id);
    }
  }

  lemma PureExactly(segs: map<nat, Content>, run: RunId, lo: nat, hi: int)
    requires Covers(segs, lo, hi)
    ensures Pure(segs, run, lo, hi) <==> Clean(segs, run, lo, hi)
  {
    hide OwnRecords, Envelopes;
    forall id: nat | lo <= id < hi && segs[id].Records? {
      OwnExactly(segs[id].rs, run, id);
    }
  }

  // ----- Live scans --------------------------------------------------------------------------

  /** The segment a live scan must start with: the one behind what it counted, or behind
      the segment it was told to start after; else the oldest file there is. */
  ghost predicate StartsAt(files: seq<File>, s: Source, active: nat, start: nat) {
    if s.last.Some? then start == s.last.value + 1
    else if s.startAfter.Some? then start == s.startAfter.value + 1
    else if active == 0 then start == 0
    else start < active && Keeps(files, start) && forall id: nat :: id < start ==> !Keeps(files, id)
  }

  ghost predicate Taken(files: seq<File>, x: Index, s: Source, run: RunId, start: nat, end: int)
    requires RunSegments(files).Success?
  {
    var after := if s.last.Some? then s.last else s.startAfter;
    var segs := RunSegments(files).value;
    && NextSegments(files, after, start, end) && Covers(segs, start, end)
    && Pure(segs, run, start, end) && AdvanceRecords(x, Flat(segs, start, end)).Success?
  }

  ghost predicate ScanTakes(files: seq<File>, x: Index, s: Source, run: RunId, active: nat, start: nat) {
    OneFileEach(files) && RunSegments(files).Success? && StartsAt(files, s, active, start)
    && Taken(files, x, s, run, start, active)
  }

  /** What a live scan asks for before it looks at any file. */
  predicate ScanAllowed(health: Health, observed: string, cp: Option<Checkpoint>, tail: bool) {
    && health.run.processId > 0 && health.run.runId != "" && observed != "" && !health.regressed
    && Loadable(cp, health.run) && !SourceOf(cp).finalized && (tail ==> cp.None?)
    && (SourceOf(cp).active.Some? ==> SourceOf(cp).active.value <= health.active)
  }

  /** The source after the segments from `start` up to `end`. */
  predicate SourceReads(s: Source, t: Source, start: nat, end: int) {
    && t.startAfter == s.startAfter && t.omitted == (if end <= start && s.first.None? then s.omitted else t.first)
    && (if end <= start then t.first == s.first && t.last == s.last && t.count == s.count
        else
          && t.first == (if s.first.Some? then s.first else Some(start))
          && t.last == Some(end - 1) && t.count == s.count + (end - start))
    && (t.first == None <==> t.coverage == Awaiting) && (t.first == Some(0) <==> t.coverage == FromRunStart)
  }

  lemma SuffixExactly(files: seq<File>, s: Source, active: nat)
    requires RunSegments(files).Success? && (s.last.Some? ==> s.last.value < active)
    ensures
      var after := if s.last.Some? then s.last else s.startAfter;
      var ids := NewIds(RunSegments(files).value, after, Some(active));
      var start := RequireClosedSuffix(ids, active, s.last, s.startAfter);
      && (start.Success? ==>
            && StartsAt(files, s, active, start.value) && NextSegments(files, after, start.value, active)
            && Covers(RunSegments(files).value, start.value, active))
      && forall n: nat :: StartsAt(files, s, active, n) && NextSegments(files, after, n, active) ==> start == Success(n)
  {
    hide Keeps, Ahead, RunSegments, Covers;
    var after := if s.last.Some? then s.last else s.startAfter;
    var ids := NewIds(RunSegments(files).value, after, Some(active));
    ListingExactly(files);
    var start := RequireClosedSuffix(ids, active, s.last, s.startAfter);
    if start.Success? {
      IdsExactly(files, after, Some(active), start.value, active);
      RangeCovered(RunSegments(files).value, after, Some(active), start.value, active);
      if after.None? && active > 0 {
        OldestFirst(files, ids, active, start.value);
      }
    }
    forall n: nat | StartsAt(files, s, active, n) && NextSegments(files, after, n, active)
      ensures start == Success(n)
    {
      IdsExactly(files, after, Some(active), n, active);
      if after.None? && active > 0 {
        assert n in ids;
      }
    }
  }

  lemma OldestFirst(files: seq<File>, ids: set<nat>, active: nat, start: nat)
    requires RunSegments(files).Success? && ids == NewIds(RunSegments(files).value, None, Some(active))
    requires IsMin(ids, start)
    ensures Keeps(files, start) && start < active && forall id: nat :: id < start ==> !Keeps(files, id)
  {
    ListingExactly(files);
    assert forall id: nat :: Keeps(files, id) && id < active ==> id in ids;
  }

  lemma LoadExactly(cp: Option<Checkpoint>, run: RunId)
    ensures LoadCheckpoint(cp, run).Success? <==> Loadable(cp, run)
    ensures LoadCheckpoint(cp, run).Success? ==> LoadCheckpoint(cp, run).value == (IndexFrom(cp, run), SourceOf(cp))
  {
  }

  /** A live scan that does not just mark the tail succeeds exactly when it is allowed and
      the closed segments it has not counted are all there, readable and acceptable to the
      index; it then counts just those. */
  lemma ScanExactly(files: seq<File>, health: Health, observed: string, cp: Option<Checkpoint>) returns (start: nat)
    ensures
      var run, s, x := health.run, SourceOf(cp), IndexFrom(cp, health.run);
      var t := ScanClosedSegments(files, health, observed, cp, false);
      && (t.Success? <==> ScanAllowed(health, observed, cp, false) && ScanTakes(files, x, s, run, health.active, start))
      && (forall n: nat :: ScanAllowed(health, observed, cp, false) && ScanTakes(files, x, s, run, health.active, n) ==>
            t.Success? && n == start)
      && (t.Success? ==>
            && SourceReads(s, t.value.source, start, health.active)
            && t.value.source.active == Some(health.active) && !t.value.source.finalized
            && t.value.source.finalizedAt.None? && t.value.run == run && t.value.updated == observed
            && AdvanceRecords(x, Flat(RunSegments(files).value, start, health.active)) == Success(t.value.index))
  {
    hide AdvanceRecords, Clean, Pure, SourceConsistent, RequireClosedSuffix, NextSegments, StartsAt, OneFileEach;
    var run, s, x, active := health.run, SourceOf(cp), IndexFrom(cp, health.run), health.active;
    start := 0;
    ListingExactly(files);
    LoadExactly(cp, run);
    if ScanAllowed(health, observed, cp, false) && OneFileEach(files) {
      LastBefore(cp, run, active);
      SuffixExactly(files, s, active);
      var ids := NewIds(RunSegments(files).value, After(s), Some(active));
      var first := RequireClosedSuffix(ids, active, s.last, s.startAfter);
      if first.Success? {
        start := first.value;
        ClosedIds(ids, active, s.last, s.startAfter);
        PureExactly(RunSegments(files).value, run, start, active);
        SegmentsAreOneFold(x, s, run, RunSegments(files).value, start, active);
      }
    }
  }

  lemma LastBefore(cp: Option<Checkpoint>, run: RunId, active: nat)
    requires Loadable(cp, run) && !SourceOf(cp).finalized
    requires SourceOf(cp).active.Some? ==> SourceOf(cp).active.value <= active
    ensures SourceOf(cp).last.Some? ==> SourceOf(cp).last.value < active
    ensures SourceOf(cp).first.Some? ==> SourceOf(cp).omitted == SourceOf(cp).first
  {
  }

  // ----- The final pass ----------------------------------------------------------------------

  /** The segments a final pass must take: from where the checkpoint left off, or the
      oldest file, through the newest one, which the writer must have reached. */
  ghost predicate EndsAt(files: seq<File>, s: Source, lastActive: nat, start: nat, final: nat) {
    && Keeps(files, final) && (forall id: nat :: Keeps(files, id) ==> id <= final) && lastActive <= final
    && (s.last.Some? ==> start == s.last.value + 1)
    && (s.last.None? && s.startAfter.Some? ==> start == s.startAfter.value + 1)
    && (s.last.None? && s.startAfter.None? ==>
          Keeps(files, start) && forall id: nat :: Keeps(files, id) ==> start <= id)
    && start <= final
  }

  ghost predicate FinalTakes(
    files: seq<File>, x: Index, s: Source, run: RunId, lastActive: nat, start: nat, final: nat)
  {
    && OneFileEach(files) && RunSegments(files).Success? && EndsAt(files, s, lastActive, start, final)
    && Taken(files, x, s, run, start, final + 1)
  }

  lemma FinalIdsAre(files: seq<File>, after: Option<nat>)
    requires RunSegments(files).Success?
    ensures forall id: nat ::
      id in NewIds(RunSegments(files).value, after, None) <==> Keeps(files, id) && (after.Some? ==> after.value < id)
  {
    ListingExactly(files);
  }

  lemma FinalSuffixIs(files: seq<File>, s: Source, lastActive: nat)
    requires RunSegments(files).Success?
    ensures
      var after := if s.last.Some? then s.last else s.startAfter;
      var ids := NewIds(RunSegments(files).value, after, None);
      var ends := RequireFinalSuffix(ids, s.last, Some(lastActive), s.startAfter);
      ends.Success? ==>
        && EndsAt(files, s, lastActive, ends.value.0, ends.value.1)
        && NextSegments(files, after, ends.value.0, ends.value.1 + 1)
        && Covers(RunSegments(files).value, ends.value.0, ends.value.1 + 1)
  {
    hide NewIds, RunSegments, NextSegments, Keeps, Covers;
    var after := if s.last.Some? then s.last else s.startAfter;
    var ids := NewIds(RunSegments(files).value, after, None);
    var ends := RequireFinalSuffix(ids, s.last, Some(lastActive), s.startAfter);
    FinalIdsAre(files, after);
    if ends.Success? {
      FinalIds(ids, s.last, Some(lastActive), s.startAfter);
      assert ends.value.1 in ids;
      assert forall id: nat :: Keeps(files, id) ==> id <= ends.value.1;
      IdsExactly(files, after, None, ends.value.0, ends.value.1 + 1);
      RangeCovered(RunSegments(files).value, after, None, ends.value.0, ends.value.1 + 1);
    }
  }

  lemma FinalSuffixOnly(files: seq<File>, s: Source, lastActive: nat, m: nat, n: nat)
    requires RunSegments(files).Success? && EndsAt(files, s, lastActive, m, n)
    requires NextSegments(files, if s.last.Some? then s.last else s.startAfter, m, n + 1)
    ensures
      var ids := NewIds(RunSegments(files).value, if s.last.Some? then s.last else s.startAfter, None);
      RequireFinalSuffix(ids, s.last, Some(lastActive), s.startAfter) == Success((m, n))
  {
    hide NewIds, RunSegments, NextSegments, Keeps;
    var after := if s.last.Some? then s.last else s.startAfter;
    var ids := NewIds(RunSegments(files).value, after, None);
    FinalIdsAre(files, after);
    IdsExactly(files, after, None, m, n + 1);
    assert n in ids;
    assert Max(ids) == n;
    if after.None? {
      assert Min(ids) == m;
    }
  }

  /** What the final pass asks for: an identity, and, without a checkpoint, a writer health. */
  predicate FinalAllowed(client: string, run: RunId, observed: string, cp: Option<Checkpoint>, health: Option<Health>) {
    && run.client == client && run.processId > 0 && run.runId != "" && Loadable(cp, run)
    && (cp.None? ==> health.Some? && health.value.run == run && observed != "" && !health.value.regressed)
  }

  function LastActive(cp: Option<Checkpoint>, health: Option<Health>): nat {
    if cp.Some? && cp.value.source.active.Some? then cp.value.source.active.value
    else if health.Some? then health.value.active else 0
  }

  lemma LiveHasActive(cp: Option<Checkpoint>, run: RunId)
    requires Loadable(cp, run) && cp.Some? && !SourceOf(cp).finalized
    ensures SourceOf(cp).active.Some?
    ensures SourceOf(cp).first.Some? ==> SourceOf(cp).omitted == SourceOf(cp).first
  {
  }

  /** The run a final pass is about: the checkpoint's, or that of the health sample. */
  function RunOf(client: string, cp: Option<Checkpoint>, health: Option<Health>): RunId
    requires cp.Some? || health.Some?
  {
    if cp.Some? then RunId(client, cp.value.run.processId, cp.value.run.runId) else health.value.run
  }

  /** A final pass over a run that is not finalized succeeds exactly when it is allowed and
      everything behind the checkpoint up to the newest file is there, readable and
      acceptable to the index; it then counts just that. */
  lemma FinalExactly(
    files: seq<File>, client: string, observed: string, cp: Option<Checkpoint>, health: Option<Health>)
    returns (start: nat, final: nat)
    requires !SourceOf(cp).finalized && (cp.Some? || health.Some?)
    ensures
      var run := RunOf(client, cp, health);
      var s, x, active := SourceOf(cp), IndexFrom(cp, run), LastActive(cp, health);
      var t := FinalizeStoppedRun(files, client, observed, cp, health);
      && (t.Success? <==>
            FinalAllowed(client, run, observed, cp, health) && FinalTakes(files, x, s, run, active, start, final))
      && (forall m: nat, n: nat ::
            FinalAllowed(client, run, observed, cp, health) && FinalTakes(files, x, s, run, active, m, n) ==>
              t.Success? && m == start && n == final)
      && (t.Success? ==>
            && SourceReads(s, t.value.source, start, final + 1)
            && t.value.source.active.None? && t.value.source.finalized
            && t.value.source.finalizedAt == Some(observed) && t.value.run == run && t.value.updated == observed
            && AdvanceRecords(x, Flat(RunSegments(files).value, start, final + 1)) == Success(t.value.index))
  {
    hide AdvanceRecords, Clean, Pure, SourceConsistent, RequireFinalSuffix, NextSegments, EndsAt, OneFileEach, Keeps;
    hide RunSegments, NewIds, LoadCheckpoint, Loadable;
    var run := RunOf(client, cp, health);
    var s, x, active := SourceOf(cp), IndexFrom(cp, run), LastActive(cp, health);
    start, final := 0, 0;
    ListingExactly(files);
    LoadExactly(cp, run);
    if FinalAllowed(client, run, observed, cp, health) && OneFileEach(files) {
      if cp.Some? {
        LiveHasActive(cp, run);
      }
      FinalSuffixIs(files, s, active);
      forall m: nat, n: nat | FinalTakes(files, x, s, run, active, m, n) {
        FinalSuffixOnly(files, s, active, m, n);
      }
      var ids := NewIds(RunSegments(files).value, After(s), None);
      var ends := RequireFinalSuffix(ids, s.last, Some(active), s.startAfter);
      if ends.Success? {
        start, final := ends.value.0, ends.value.1;
        FinalIds(ids, s.last, Some(active), s.startAfter);
        PureExactly(RunSegments(files).value, run, start, final + 1);
        SegmentsAreOneFold(x, s, run, RunSegments(files).value, start, final + 1);
      }
    }
  }

  // ----- Following a run from its tail ---------------------------------------------------------

  /** The pass marks the tail at the writer's active segment, and its checkpoint is saved. */
  predicate MarksTail(client: string, cp: Option<Checkpoint>, p: Pass) {
    p.Live? && p.tail && p.saved && Perform(client, cp, p).Success?
  }

  lemma TailMarked(files: seq<File>, health: Health, observed: string, cp: Option<Checkpoint>)
    requires ScanClosedSegments(files, health, observed, cp, true).Success?
    ensures
      var t := ScanClosedSegments(files, health, observed, cp, true).value.source;
      && t.count == 0 && t.first.None? && t.last.None? && t.active == Some(health.active)
      && t.startAfter == (if health.active == 0 then None else Some(health.active - 1))
  {
  }

  /** Every pass keeps the mark. */
  lemma MarkKept(client: string, cp: Option<Checkpoint>, p: Pass)
    requires cp.Some? && Perform(client, cp, p).Success?
    ensures Perform(client, cp, p).value.source.startAfter == cp.value.source.startAfter
  {
    hide RequireClosedSuffix, RequireFinalSuffix, RunSegments, AdvanceSegments, SourceConsistent;
    match p
    case Live(files, health, observed, tail, _) =>
      var start := ScanExactly(files, health, observed, cp);
    case Final(files, health, observed, _) =>
      if !cp.value.source.finalized {
        var start, final := FinalExactly(files, client, observed, cp, health);
      }
  }

  lemma {:induction false} MarkStays(
    client: string, cps: seq<Option<Checkpoint>>, ps: seq<Pass>, i: nat, j: nat)
    requires Passes(client, cps, ps) && i <= j <= |ps| && cps[i].Some?
    ensures cps[j].Some? && cps[j].value.source.startAfter == cps[i].value.source.startAfter
    decreases j
  {
    hide Perform;
    if i < j {
      MarkStays(client, cps, ps, i, j - 1);
      assert Turns(client, cps, ps, j - 1);
      if Perform(client, cps[j - 1], ps[j - 1]).Success? {
        MarkKept(client, cps[j - 1], ps[j - 1]);
      }
    }
  }

  lemma FirstFollowsMark(cp: Checkpoint, run: RunId, content: map<nat, Content>)
    requires Faithful(cp, run, content)
    ensures cp.source.first.Some? && cp.source.startAfter.Some? ==>
      cp.source.first == Some(cp.source.startAfter.value + 1)
  {
  }

  /** After a run was marked at its active segment `a`, no pass, live or final, ever counts
      a segment before it, and what is counted starts with it, unless `a` is zero. */
  lemma TailStartsThere(
    client: string, cps: seq<Option<Checkpoint>>, ps: seq<Pass>, run: RunId, content: map<nat, Content>, i: nat, j: nat)
    requires Passes(client, cps, ps) && SameRunPasses(ps, run, content) && i < j <= |ps|
    requires MarksTail(client, cps[i], ps[i])
    ensures cps[j].Some?
    ensures
      var a, first := ps[i].health.active, cps[j].value.source.first;
      first.Some? ==> first.value >= a && (a > 0 ==> first.value == a)
  {
    hide Perform, Faithful;
    assert Turns(client, cps, ps, i);
    assert Perform(client, cps[i], ps[i]) == ScanClosedSegments(ps[i].files, ps[i].health, ps[i].observed, cps[i], true)
      by { TailPass(client, cps[i], ps[i]); }
    TailMarked(ps[i].files, ps[i].health, ps[i].observed, cps[i]);
    MarkStays(client, cps, ps, i + 1, j);
    ScansAreOnePass(client, cps, ps, run, content, j);
    FirstFollowsMark(cps[j].value, run, content);
  }

  lemma TailPass(client: string, cp: Option<Checkpoint>, p: Pass)
    requires p.Live? && p.tail
    ensures Perform(client, cp, p) == ScanClosedSegments(p.files, p.health, p.observed, cp, true)
  {
  }

  /** Marking the tail at segment zero marks nothing: the first scan that counts anything
      then starts with the oldest file there is, which is segment zero exactly if it is
      still there. */
  lemma UnmarkedStartsAtOldest(files: seq<File>, health: Health, observed: string, cp: Checkpoint)
    requires cp.source.count == 0 && cp.source.startAfter.None? && health.active > 0
    requires ScanClosedSegments(files, health, observed, Some(cp), false).Success?
    ensures
      var first := ScanClosedSegments(files, health, observed, Some(cp), false).value.source.first;
      first.Some? && Keeps(files, first.value) && (forall id: nat :: id < first.value ==> !Keeps(files, id))
      && (first == Some(0) <==> Keeps(files, 0))
  {
    hide Keeps, Taken, OneFileEach, RunSegments;
    var start := ScanExactly(files, health, observed, Some(cp));
  }

  function EmptyFile(id: nat): File {
    File(id, Records([]))
  }

  /** A run marked at segment zero of which only segment three is left when it is scanned
      first: segments zero to two were never counted and are not missed. */
  lemma TailAtZeroMayStartLater(run: RunId, observed: string)
    returns (cps: seq<Option<Checkpoint>>, ps: seq<Pass>)
    requires run.processId > 0 && run.runId != "" && observed != ""
    ensures Passes(run.client, cps, ps) && |ps| == 2 && MarksTail(run.client, cps[0], ps[0])
    ensures ps[0].health.active == 0 && cps[2].Some? && cps[2].value.source.first == Some(3)
  {
    hide AdvanceRecords;
    var marks := Live([], Health(run, 0, false), observed, true, true);
    var scans := Live([EmptyFile(3)], Health(run, 4, false), observed, false, true);
    ps := [marks, scans];
    var one := Perform(run.client, None, marks).value;
    ScanOfThree(run, observed, one);
    var two := Perform(run.client, Some(one), scans).value;
    cps := [None, Some(one), Some(two)];
    assert Turns(run.client, cps, ps, 0) && Turns(run.client, cps, ps, 1);
  }

  lemma ScanOfThree(run: RunId, observed: string, cp: Checkpoint)
    requires run.processId > 0 && run.runId != "" && observed != "" && cp.run == run && cp.index == NewRunIndex(run)
    requires cp.source == NEW_SOURCE.(active := Some(0))
    ensures
      var t := ScanClosedSegments([EmptyFile(3)], Health(run, 4, false), observed, Some(cp), false);
      t.Success? && t.value.source.first == Some(3)
  {
    hide AdvanceRecords;
    var files := [EmptyFile(3)];
    assert files[..0] == [] && RunSegments([]) == Success(map[]);
    assert RunSegments(files) == Success(map[3 := Records([])]);
    assert Flat(RunSegments(files).value, 3, 3) == [];
    NoRecords(cp.index);
    assert files[0].id == 3;
    assert forall id: nat :: Keeps(files, id) <==> id == 3;
    assert NextSegments(files, None, 3, 4);
    var segs := RunSegments(files).value;
    assert Flat(segs, 3, 4) == [];
    assert Pure(segs, run, 3, 4);
    assert StartsAt(files, cp.source, 4, 3) && OneFileEach(files);
    assert ScanTakes(files, cp.index, cp.source, run, 4, 3);
    var start := ScanExactly(files, Health(run, 4, false), observed, Some(cp));
  }

  // ----- The batch loader ----------------------------------------------------------------------

  /** The integer a sequence field counts as: itself, one for `true`, and nothing else. */
  function Counted(v: Json): int {
    if v.Num? then v.n else if v == Bool(true) then 1 else 0
  }

  /** Both sequence numbers of every record are positive, and each process sequence
      number is the one after that of the record before it. */
  predicate Sequenced(rs: seq<Record>) {
    && (forall i :: 0 <= i < |rs| ==> Counted(rs[i].seqNo) > 0 && Counted(rs[i].streamSeq) > 0)
    && (forall i :: 1 <= i < |rs| ==> Counted(rs[i].seqNo) == Counted(rs[i - 1].seqNo) + 1)
  }

  function LastCounted(rs: seq<Record>): Option<int> {
    if |rs| == 0 then None else Some(Counted(rs[|rs| - 1].seqNo))
  }

  lemma CountedExactly(v: Json)
    ensures IntLike(v).Some? && IntLike(v).value > 0 <==> Counted(v) > 0
    ensures Counted(v) > 0 ==> IntLike(v) == Some(Counted(v))
  {
  }

  lemma SequencedAppend(rs: seq<Record>, r: Record)
    ensures Sequenced(rs + [r]) <==>
      && Sequenced(rs) && Counted(r.seqNo) > 0 && Counted(r.streamSeq) > 0
      && (|rs| > 0 ==> Counted(r.seqNo) == Counted(rs[|rs| - 1].seqNo) + 1)
  {
    hide Counted;
    var all := rs + [r];
    assert all[|rs|] == r && forall i :: 0 <= i < |rs| ==> all[i] == rs[i];
  }

  lemma EnvelopesAppend(rs: seq<Record>, r: Record, run: RunId, id: nat)
    ensures Envelopes(rs + [r], run, id) <==> Envelopes(rs, run, id) && Envelope(r, run, id)
  {
    hide Envelope;
    var all := rs + [r];
    assert all[|rs|] == r && forall i :: 0 <= i < |rs| ==> all[i] == rs[i];
  }

  /** The records of one segment behind those before it. */
  lemma {:induction false} LoadRecordsExactly(before: seq<Record>, rs: seq<Record>, run: RunId, id: nat)
    requires Sequenced(before)
    ensures LoadRecords(rs, run, id, LastCounted(before)).Success? <==> Envelopes(rs, run, id) && Sequenced(before + rs)
    ensures LoadRecords(rs, run, id, LastCounted(before)).Success? ==>
      LoadRecords(rs, run, id, LastCounted(before)).value == LastCounted(before + rs)
  {
    hide Envelopes, Envelope, Sequenced, Counted, IntLike;
    if |rs| == 0 {
      assert before + rs == before;
      assert Envelopes([], run, id) by { NoEnvelopes(run, id); }
    } else {
      var front, r := rs[..|rs| - 1], rs[|rs| - 1];
      LoadRecordsExactly(before, front, run, id);
      assert before + rs == before + front + [r] && rs == front + [r];
      SequencedAppend(before + front, r);
      EnvelopesAppend(front, r, run, id);
      CountedExactly(r.seqNo);
      CountedExactly(r.streamSeq);
    }
  }

  lemma NoEnvelopes(run: RunId, id: nat)
    ensures Envelopes([], run, id)
  {
  }

  lemma {:induction false} LoadSegmentsExactly(segs: map<nat, Content>, run: RunId, lo: nat, hi: int)
    requires Covers(segs, lo, hi)
    ensures LoadSegments(segs, run, lo, hi).Success? <==> Clean(segs, run, lo, hi) && Sequenced(Flat(segs, lo, hi))
    ensures LoadSegments(segs, run, lo, hi).Success? ==>
      LoadSegments(segs, run, lo, hi).value == (Flat(segs, lo, hi), LastCounted(Flat(segs, lo, hi)))
    decreases hi - lo
  {
    hide Envelopes, LoadRecords, Sequenced;
    if hi <= lo {
      assert Sequenced([]) by { NothingSequenced(); }
    } else {
      LoadSegmentsExactly(segs, run, lo, hi - 1);
      assert Clean(segs, run, lo, hi) <==>
        Clean(segs, run, lo, hi - 1) && segs[hi - 1].Records? && Envelopes(segs[hi - 1].rs, run, hi - 1);
      if segs[hi - 1].Records? {
        var front := Flat(segs, lo, hi - 1);
        SequencedPrefix(front, segs[hi - 1].rs);
        if Sequenced(front) {
          LoadRecordsExactly(front, segs[hi - 1].rs, run, hi - 1);
        }
      }
    }
  }

  lemma NothingSequenced()
    ensures Sequenced([])
  {
  }

  lemma SequencedPrefix(rs: seq<Record>, more: seq<Record>)
    ensures Sequenced(rs + more) ==> Sequenced(rs)
  {
    hide Counted;
    assert forall i :: 0 <= i < |rs| ==> (rs + more)[i] == rs[i];
  }

  /** One file for each segment of an interval, all readable, with records of the run
      and the segment only, whose process sequence has no gap. */
  ghost predicate BatchTakes(files: seq<File>, run: RunId, lo: nat, hi: nat) {
    && lo < hi && OneFileEach(files) && RunSegments(files).Success?
    && (forall id: nat :: Keeps(files, id) <==> lo <= id < hi)
    && Covers(RunSegments(files).value, lo, hi) && Pure(RunSegments(files).value, run, lo, hi)
    && Sequenced(Flat(RunSegments(files).value, lo, hi))
  }

  lemma KeptInterval(files: seq<File>, m: nat, n: nat)
    requires RunSegments(files).Success? && m < n && forall id: nat :: Keeps(files, id) <==> m <= id < n
    ensures
      var ids := NewIds(RunSegments(files).value, None, None);
      ids != {} && Min(ids) == m && Max(ids) == n - 1 && ids == Range(m, n)
  {
    hide RunSegments, Keeps;
    FinalIdsAre(files, None);
    var ids := NewIds(RunSegments(files).value, None, None);
    assert m in ids && n - 1 in ids;
    assert forall id: nat :: id in ids <==> id in Range(m, n);
  }

  lemma IntervalKept(files: seq<File>)
    requires RunSegments(files).Success?
    requires
      var ids := NewIds(RunSegments(files).value, None, None);
      ids != {} && ids == Range(Min(ids), Max(ids) + 1)
    ensures
      var ids := NewIds(RunSegments(files).value, None, None);
      forall id: nat :: Keeps(files, id) <==> Min(ids) <= id < Max(ids) + 1
  {
    hide RunSegments, Keeps;
    FinalIdsAre(files, None);
    var ids := NewIds(RunSegments(files).value, None, None);
    forall id: nat
      ensures Keeps(files, id) <==> Min(ids) <= id < Max(ids) + 1
    {
      assert id in ids <==> id in Range(Min(ids), Max(ids) + 1);
    }
  }

  /** The batch loader reads exactly such directories, and returns all records in order. */
  lemma BatchExactly(files: seq<File>, run: RunId) returns (lo: nat, hi: nat)
    ensures LoadExactRun(files, run).Success? ==>
      && run.processId > 0 && !BlankId(run.runId) && BatchTakes(files, run, lo, hi)
      && LoadExactRun(files, run).value == Flat(RunSegments(files).value, lo, hi)
    ensures forall m: nat, n: nat ::
      run.processId > 0 && !BlankId(run.runId) && BatchTakes(files, run, m, n) ==>
        LoadExactRun(files, run).Success? && m == lo && n == hi
  {
    hide BlankId, Keeps, OneFileEach, RunSegments, NewIds, Sequenced, Clean, Pure, LoadSegments;
    lo, hi := 0, 0;
    ListingExactly(files);
    if RunSegments(files).Success? {
      var segs := RunSegments(files).value;
      var ids := NewIds(segs, None, None);
      if ids != {} && ids == Range(Min(ids), Max(ids) + 1) {
        lo, hi := Min(ids), Max(ids) + 1;
        IntervalKept(files);
        RangeCovered(segs, None, None, lo, hi);
        PureExactly(segs, run, lo, hi);
        LoadSegmentsExactly(segs, run, lo, hi);
      }
      forall m: nat, n: nat | BatchTakes(files, run, m, n) {
        KeptInterval(files, m, n);
      }
    }
  }
}
