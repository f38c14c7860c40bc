/**
 Any interleaving of scans, restarts from saved checkpoints and a final pass
 consumes the segments of a run once each, in order, and indexes them as one
 pass over all of them would.
 */
module RunScanTheorems {
  import opened Wrappers
  import opened RunIndex
  import opened RunScan

  // ----- Consuming a range of segments --------------------------------------------

  /** All records of the segments from `lo` up to `hi`. */
  function Flat(segs: map<nat, Content>, lo: nat, hi: int): seq<Record>
    requires Covers(segs, lo, hi)
    decreases hi - lo
  {
    if hi <= lo then [] else Flat(segs, lo, hi - 1) + (if segs[hi - 1].Records? then segs[hi - 1].rs else [])
  }

  /** Every segment is readable and holds records of its own file only. */
  predicate Clean(segs: map<nat, Content>, run: RunId, lo: nat, hi: int)
    requires Covers(segs, lo, hi)
  {
    forall id: nat :: lo <= id < hi ==> segs[id].Records? && Envelopes(segs[id].rs, run, id)
  }

  function ConsumedTo(s: Source, lo: nat, hi: int): Source {
    if hi <= lo then s
    else
      s.(first := if s.first.None? then Some(lo) else s.first, omitted := if s.first.None? then Some(lo) else s.omitted,
         last := Some(hi - 1), count := s.count + (hi - lo), lastSegment := Some(hi - 1))
  }

  /** Consuming segments one by one is indexing their concatenation, and fails
      exactly when that does or a segment is not clean. */
  lemma {:induction false} SegmentsAreOneFold(
      x: Index, s: Source, run: RunId, segs: map<nat, Content>, lo: nat, hi: int)
    requires Covers(segs, lo, hi)
    ensures AdvanceSegments(x, s, run, segs, lo, hi).Success? <==>
      Clean(segs, run, lo, hi) && AdvanceRecords(x, Flat(segs, lo, hi)).Success?
    ensures AdvanceSegments(x, s, run, segs, lo, hi).Success? ==>
      AdvanceSegments(x, s, run, segs, lo, hi).value
      == (AdvanceRecords(x, Flat(segs, lo, hi)).value, ConsumedTo(s, lo, hi))
    decreases hi - lo
  {
    hide Envelopes, AdvanceRecords;
    if hi <= lo {
      assert AdvanceRecords(x, []) == Success(x) by { NoRecords(x); }
    } else {
      SegmentsAreOneFold(x, s, run, segs, lo, hi - 1);
      assert Clean(segs, run, lo, hi) <==>
        Clean(segs, run, lo, hi - 1) && segs[hi - 1].Records? && Envelopes(segs[hi - 1].rs, run, hi - 1);
      if segs[hi - 1].Records? {
        AdvanceInParts(x, Flat(segs, lo, hi - 1), segs[hi - 1].rs);
      }
    }
  }

  lemma NoRecords(x: Index)
    ensures AdvanceRecords(x, []) == Success(x)
  {
  }

  lemma {:induction false} FlatSame(a: map<nat, Content>, b: map<nat, Content>, lo: nat, hi: int)
    requires Covers(a, lo, hi) && Covers(b, lo, hi)
    requires forall id: nat :: lo <= id < hi ==> a[id] == b[id]
    ensures Flat(a, lo, hi) == Flat(b, lo, hi)
    decreases hi - lo
  {
    if lo < hi {
      FlatSame(a, b, lo, hi - 1);
    }
  }

  lemma {:induction false} FlatSplit(segs: map<nat, Content>, lo: nat, mid: nat, hi: int)
    requires Covers(segs, lo, hi) && lo <= mid <= hi
    ensures Covers(segs, lo, mid) && Covers(segs, mid, hi)
    ensures Flat(segs, lo, hi) == Flat(segs, lo, mid) + Flat(segs, mid, hi)
    decreases hi
  {
    assert Covers(segs, lo, mid) && Covers(segs, mid, hi);
    if mid < hi {
      FlatSplit(segs, lo, mid, hi - 1);
    } else {
      assert Flat(segs, mid, hi) == [];
    }
  }

  // ----- Checkpoints that tell the truth --------------------------------------------

  /** Every file below `below` holds what the run finally wrote to that segment. */
  ghost predicate Agrees(files: seq<File>, content: map<nat, Content>, below: Option<nat>) {
    forall i :: 0 <= i < |files| && (below.None? || files[i].id < below.value) ==>
      files[i].id in content && content[files[i].id] == files[i].content
  }

  lemma {:induction false} SegmentsFromFiles(files: seq<File>)
    requires RunSegments(files).Success?
    ensures forall id :: id in RunSegments(files).value ==> File(id, RunSegments(files).value[id]) in files
    ensures forall i :: 0 <= i < |files| ==> files[i].id in RunSegments(files).value
  {
    if |files| > 0 {
      SegmentsFromFiles(files[..|files| - 1]);
    }
  }

  /** The index is one pass over the records of the segments counted so far. */
  ghost predicate Holds(x: Index, s: Source, run: RunId, content: map<nat, Content>) {
    && (s.count == 0 ==> x == NewRunIndex(run) && s.first.None? && s.last.None?)
    && (s.count > 0 ==>
          && s.first.Some? && s.last.Some? && s.first.value <= s.last.value
          && Covers(content, s.first.value, s.last.value + 1)
          && Clean(content, run, s.first.value, s.last.value + 1)
          && AdvanceRecords(NewRunIndex(run), Flat(content, s.first.value, s.last.value + 1)) == Success(x))
  }

  /** What a checkpoint of the run claims is so: the segments it counts form one
      interval, ending just before the writer's active segment while the run is
      live, and its index is one pass over all their records. */
  ghost predicate Faithful(cp: Checkpoint, run: RunId, content: map<nat, Content>) {
    && cp.run == run && SourceConsistent(cp.source) && Holds(cp.index, cp.source, run, content)
    && (cp.source.count > 0 && !cp.source.finalized ==> cp.source.last.value + 1 == cp.source.active.value)
  }

  /** What the next segments add. */
  lemma Extended(
    x: Index, s: Source, run: RunId, content: map<nat, Content>, segs: map<nat, Content>, lo: nat, hi: int)
    requires Covers(segs, lo, hi) && Covers(content, lo, hi)
    requires forall id: nat :: lo <= id < hi ==> segs[id] == content[id]
    requires Holds(x, s, run, content) && (s.count > 0 ==> lo == s.last.value + 1 && hi >= lo)
    requires AdvanceSegments(x, s, run, segs, lo, hi).Success?
    ensures AdvanceSegments(x, s, run, segs, lo, hi).value.1 == ConsumedTo(s, lo, hi)
    ensures Holds(AdvanceSegments(x, s, run, segs, lo, hi).value.0, ConsumedTo(s, lo, hi), run, content)
  {
    hide AdvanceRecords, Envelopes;
    SegmentsAreOneFold(x, s, run, segs, lo, hi);
    FlatSame(segs, content, lo, hi);
    if s.count > 0 {
      var f := s.first.value;
      assert Covers(content, f, hi);
      FlatSplit(content, f, lo, hi);
      AdvanceInParts(NewRunIndex(run), Flat(content, f, lo), Flat(content, lo, hi));
    } else if hi <= lo {
      assert Flat(segs, lo, hi) == [];
      NoRecords(x);
    }
  }

  /** Fields that the index does not depend on. */
  lemma SameHolds(x: Index, s: Source, t: Source, run: RunId, content: map<nat, Content>)
    requires Holds(x, s, run, content) && t.count == s.count && t.first == s.first && t.last == s.last
    ensures Holds(x, t, run, content)
  {
  }

  lemma LoadedHolds(cp: Option<Checkpoint>, run: RunId, content: map<nat, Content>)
    requires cp.Some? ==> Faithful(cp.value, run, content)
    requires LoadCheckpoint(cp, run).Success?
    ensures
      var (x, s) := LoadCheckpoint(cp, run).value;
      && Holds(x, s, run, content)
      && (if cp.None? then s == NEW_SOURCE else s == cp.value.source)
      && (s.count > 0 && !s.finalized ==> s.active.Some? && s.last.value + 1 == s.active.value)
  {
    hide AdvanceRecords;
  }

  lemma FilesCover(
      files: seq<File>, content: map<nat, Content>, after: Option<nat>, below: Option<nat>, lo: nat, hi: int)
    requires RunSegments(files).Success? && Agrees(files, content, below)
    requires NewIds(RunSegments(files).value, after, below) == Range(lo, hi)
    ensures
      var segs := RunSegments(files).value;
      Covers(segs, lo, hi) && Covers(content, lo, hi) && forall id: nat :: lo <= id < hi ==> segs[id] == content[id]
  {
    var segs := RunSegments(files).value;
    SegmentsFromFiles(files);
    RangeCovered(segs, after, below, lo, hi);
    forall id: nat | lo <= id < hi
      ensures id in content && segs[id] == content[id]
    {
      assert id in Range(lo, hi);
      assert id in NewIds(segs, after, below);
      assert File(id, segs[id]) in files;
    }
  }

  /** The source a live scan leaves behind. */
  lemma ClosedSource(s: Source, start: nat, active: nat, ids: set<nat>)
    requires s == NEW_SOURCE || (SourceConsistent(s) && !s.finalized && s.active.value <= active)
    requires RequireClosedSuffix(ids, active, s.last, s.startAfter) == Success(start)
    ensures s.count > 0 ==> start == s.last.value + 1 && start <= active
    ensures
      var u := ConsumedTo(s, start, active).(active := Some(active), finalized := false, finalizedAt := None);
      var t := u.(coverage := CoverageOf(u));
      && SourceConsistent(t) && (t.last.Some? ==> t.last.value + 1 == active)
      && (s.count > 0 ==> t.first == s.first && t.last.value >= s.last.value)
      && (t.count > 0 <==> t.last.Some?)
  {
    if s.last.None? && s.startAfter.None? && active > 0 {
      assert start in ids;
      assert start in Range(start, active);
    }
  }

  /** A live scan keeps checkpoints faithful; it ends just before the active
      segment, or has consumed nothing, and never drops what it had. */
  lemma ScanKeepsFaithful(
    files: seq<File>, health: Health, observed: string, cp: Option<Checkpoint>, tail: bool, content: map<nat, Content>)
    requires cp.Some? ==> Faithful(cp.value, health.run, content)
    requires Agrees(files, content, Some(health.active))
    requires ScanClosedSegments(files, health, observed, cp, tail).Success?
    ensures
      var t := ScanClosedSegments(files, health, observed, cp, tail).value;
      && Faithful(t, health.run, content)
      && !t.source.finalized && t.source.active == Some(health.active)
      && (t.source.last.None? || t.source.last.value + 1 == health.active)
      && (cp.Some? && cp.value.source.count > 0 ==>
            && t.source.count > 0 && t.source.first == cp.value.source.first
            && t.source.last.value >= cp.value.source.last.value)
  {
    hide AdvanceSegments, Holds, RequireClosedSuffix;
    LoadedHolds(cp, health.run, content);
    var (x, s) := LoadCheckpoint(cp, health.run).value;
    var t := ScanClosedSegments(files, health, observed, cp, tail).value;
    if tail {
      SameHolds(x, s, t.source, health.run, content);
    } else {
      var segs := RunSegments(files).value;
      var ids := NewIds(segs, After(s), Some(health.active));
      var start := RequireClosedSuffix(ids, health.active, s.last, s.startAfter).value;
      ClosedSource(s, start, health.active, ids);
      ClosedIds(ids, health.active, s.last, s.startAfter);
      FilesCover(files, content, After(s), Some(health.active), start, health.active);
      Extended(x, s, health.run, content, segs, start, health.active);
      SameHolds(t.index, ConsumedTo(s, start, health.active), t.source, health.run, content);
    }
  }

  lemma ClosedIds(ids: set<nat>, active: nat, last: Option<nat>, startAfter: Option<nat>)
    requires RequireClosedSuffix(ids, active, last, startAfter).Success?
    ensures ids == Range(RequireClosedSuffix(ids, active, last, startAfter).value, active)
  {
  }

  lemma FinalIds(ids: set<nat>, last: Option<nat>, lastActive: Option<nat>, startAfter: Option<nat>)
    requires RequireFinalSuffix(ids, last, lastActive, startAfter).Success?
    ensures
      var ends := RequireFinalSuffix(ids, last, lastActive, startAfter).value;
      ids == Range(ends.0, ends.1 + 1) && ends.0 <= ends.1
  {
    var ends := RequireFinalSuffix(ids, last, lastActive, startAfter).value;
    assert ends.1 in ids;
    assert ends.1 in Range(ends.0, ends.1 + 1);
  }

  lemma FinalSource(s: Source, ends: (nat, nat), lastActive: nat, ids: set<nat>, observed: string)
    requires s == NEW_SOURCE || (SourceConsistent(s) && !s.finalized && s.active.value == lastActive)
    requires RequireFinalSuffix(ids, s.last, Some(lastActive), s.startAfter) == Success(ends)
    ensures s.count > 0 ==> ends.0 == s.last.value + 1
    ensures
      var u := ConsumedTo(s, ends.0, ends.1 + 1).(active := None, finalized := true, finalizedAt := Some(observed));
      var t := u.(coverage := CoverageOf(u));
      && SourceConsistent(t) && t.last.Some? && t.last.value >= lastActive && t.count > 0
      && (s.count > 0 ==> t.first == s.first && t.last.value >= s.last.value)
  {
    FinalIds(ids, s.last, Some(lastActive), s.startAfter);
  }

  /** The final pass keeps checkpoints faithful and reaches at least the last
      segment the writer was seen on. */
  lemma FinalizeKeepsFaithful(
    files: seq<File>, client: string, observed: string, cp: Option<Checkpoint>, health: Option<Health>, run: RunId,
    content: map<nat, Content>)
    requires cp.Some? ==> Faithful(cp.value, run, content)
    requires cp.None? && health.Some? ==> health.value.run == run
    requires Agrees(files, content, None)
    requires FinalizeStoppedRun(files, client, observed, cp, health).Success?
    ensures
      var t := FinalizeStoppedRun(files, client, observed, cp, health).value;
      && Faithful(t, run, content) && t.source.finalized
      && (cp.Some? && cp.value.source.finalized ==> t == cp.value)
      && (cp.None? || !cp.value.source.finalized ==>
            && t.source.last.Some? && t.source.finalizedAt == Some(observed)
            && t.source.last.value >= (if cp.None? then health.value.active else cp.value.source.active.value))
      && (cp.Some? && cp.value.source.count > 0 ==>
            && t.source.count > 0 && t.source.first == cp.value.source.first
            && t.source.last.value >= cp.value.source.last.value)
  {
    hide AdvanceSegments, Holds, RequireFinalSuffix;
    LoadedHolds(cp, run, content);
    var (x, s) := LoadCheckpoint(cp, run).value;
    if !s.finalized {
      var t := FinalizeStoppedRun(files, client, observed, cp, health).value;
      var segs := RunSegments(files).value;
      var ids := NewIds(segs, After(s), None);
      var lastActive := if s.active.Some? then s.active else Some(health.value.active);
      var ends := RequireFinalSuffix(ids, s.last, lastActive, s.startAfter).value;
      FinalSource(s, ends, lastActive.value, ids, observed);
      FinalIds(ids, s.last, lastActive, s.startAfter);
      FilesCover(files, content, After(s), None, ends.0, ends.1 + 1);
      Extended(x, s, run, content, segs, ends.0, ends.1 + 1);
      SameHolds(t.index, ConsumedTo(s, ends.0, ends.1 + 1), t.source, run, content);
    }
  }

  // ----- Runs of scans ----------------------------------------------------------------

  /** One pass over the directory; an unsaved result is lost with its process. */
  datatype Pass =
    | Live(files: seq<File>, health: Health, observed: string, tail: bool, saved: bool)
    | Final(files: seq<File>, sample: Option<Health>, observed: string, saved: bool)

  function Perform(client: string, cp: Option<Checkpoint>, p: Pass): Result<Checkpoint> {
    match p
    case Live(files, health, observed, tail, _) => ScanClosedSegments(files, health, observed, cp, tail)
    case Final(files, health, observed, _) => FinalizeStoppedRun(files, client, observed, cp, health)
  }

  /** The `i`-th pass reads the saved checkpoint and, if it succeeds and its
      process lives long enough, saves the next one. */
  ghost predicate Turns(client: string, cps: seq<Option<Checkpoint>>, ps: seq<Pass>, i: int)
    requires 0 <= i < |ps| && |cps| == |ps| + 1
  {
    var result := Perform(client, cps[i], ps[i]);
    cps[i + 1] == if result.Success? && ps[i].saved then Some(result.value) else cps[i]
  }

  /** Passes from no checkpoint on, and the checkpoint on disk around each. */
  ghost predicate Passes(client: string, cps: seq<Option<Checkpoint>>, ps: seq<Pass>) {
    && |cps| == |ps| + 1 && cps[0] == None
    && forall i :: 0 <= i < |ps| ==> Turns(client, cps, ps, i)
  }

  /** The passes look at one run whose closed segments never change. */
  ghost predicate SameRunPasses(ps: seq<Pass>, run: RunId, content: map<nat, Content>) {
    forall i :: 0 <= i < |ps| ==> SameRunPass(ps, i, run, content)
  }

  ghost predicate SameRunPass(ps: seq<Pass>, i: int, run: RunId, content: map<nat, Content>)
    requires 0 <= i < |ps|
  {
    match ps[i]
    case Live(files, health, _, _, _) => health.run == run && Agrees(files, content, Some(health.active))
    case Final(files, health, _, _) => (health.Some? ==> health.value.run == run) && Agrees(files, content, None)
  }

  /** However scans, lost results, restarts and the final pass interleave, the
      checkpoint on disk is faithful: one interval of segments, each consumed
      once, indexed as one pass over them. */
  lemma {:induction false} ScansAreOnePass(
    client: string, cps: seq<Option<Checkpoint>>, ps: seq<Pass>, run: RunId, content: map<nat, Content>, i: nat)
    requires Passes(client, cps, ps) && SameRunPasses(ps, run, content) && i <= |ps|
    ensures cps[i].Some? ==> Faithful(cps[i].value, run, content)
  {
    hide ScanClosedSegments, FinalizeStoppedRun, Faithful, Agrees;
    if i > 0 {
      ScansAreOnePass(client, cps, ps, run, content, i - 1);
      assert Turns(client, cps, ps, i - 1) && SameRunPass(ps, i - 1, run, content);
      if Perform(client, cps[i - 1], ps[i - 1]).Success? {
        match ps[i - 1]
        case Live(files, health, observed, tail, _) => ScanKeepsFaithful(files, health, observed, cps[i - 1], tail,
          content);
        case Final(files, health, observed, _) => FinalizeKeepsFaithful(files, client, observed, cps[i - 1], health,
          run, content);
      }
    }
  }

  /** Along any passes the consumed interval only grows at its end: its first
      segment never changes and its last never goes back. */
  lemma {:induction false} ConsumedOnlyGrows(
    client: string, cps: seq<Option<Checkpoint>>, ps: seq<Pass>, run: RunId, content: map<nat, Content>, i: nat, j: nat)
    requires Passes(client, cps, ps) && SameRunPasses(ps, run, content) && i <= j <= |ps|
    requires cps[i].Some? && cps[i].value.source.count > 0
    ensures cps[j].Some? && cps[j].value.source.count > 0
    ensures cps[j].value.source.first == cps[i].value.source.first
    ensures cps[i].value.source.last.Some? && cps[j].value.source.last.Some?
    ensures cps[i].value.source.last.value <= cps[j].value.source.last.value
    decreases j
  {
    hide ScanClosedSegments, FinalizeStoppedRun, Holds, Agrees;
    ScansAreOnePass(client, cps, ps, run, content, i);
    if i < j {
      ConsumedOnlyGrows(client, cps, ps, run, content, i, j - 1);
      ScansAreOnePass(client, cps, ps, run, content, j - 1);
      assert Turns(client, cps, ps, j - 1) && SameRunPass(ps, j - 1, run, content);
      if Perform(client, cps[j - 1], ps[j - 1]).Success? {
        match ps[j - 1]
        case Live(files, health, observed, tail, _) => ScanKeepsFaithful(files, health, observed, cps[j - 1], tail,
          content);
        case Final(files, health, observed, _) => FinalizeKeepsFaithful(files, client, observed, cps[j - 1], health,
          run, content);
      }
    }
  }

  /** Finalizing what this pass finalized changes nothing and succeeds, unless
      the pass was given an empty time, which no later load accepts. */
  lemma FinalizeTwice(
    files: seq<File>, client: string, observed: string, cp: Option<Checkpoint>, health: Option<Health>, run: RunId,
    content: map<nat, Content>, files2: seq<File>, observed2: string, health2: Option<Health>)
    requires cp.Some? ==> Faithful(cp.value, run, content)
    requires cp.None? && health.Some? ==> health.value.run == run
    requires Agrees(files, content, None)
    requires FinalizeStoppedRun(files, client, observed, cp, health).Success?
    requires cp.Some? ==> !cp.value.source.finalized
    ensures
      var t := FinalizeStoppedRun(files, client, observed, cp, health).value;
      var again := FinalizeStoppedRun(files2, client, observed2, Some(t), health2);
      if observed != "" then again == Success(t) else again.Failure?
  {
    hide AdvanceRecords, AdvanceSegments, Envelopes, Faithful;
    FinalizeKeepsFaithful(files, client, observed, cp, health, run, content);
    var t := FinalizeStoppedRun(files, client, observed, cp, health).value;
    FaithfulSource(t, run, content);
    FinalRun(files, client, observed, cp, health);
    hide Perform;
  }

  lemma FaithfulSource(cp: Checkpoint, run: RunId, content: map<nat, Content>)
    requires Faithful(cp, run, content)
    ensures SourceConsistent(cp.source) && cp.run == run
  {
  }

  lemma FinalRun(files: seq<File>, client: string, observed: string, cp: Option<Checkpoint>, health: Option<Health>)
    requires FinalizeStoppedRun(files, client, observed, cp, health).Success?
    ensures
      var t := FinalizeStoppedRun(files, client, observed, cp, health).value;
      t.run.client == client && t.run.processId > 0 && t.run.runId != ""
  {
    hide AdvanceSegments, RequireFinalSuffix;
  }
}
