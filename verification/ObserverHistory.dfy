/** The order of external effects over whole runs, and what the books say. */
module ObserverHistory {
  import opened ObserverSummary
  import opened ObserverState
  import opened ObserverRun
  import opened ObserverSafety
  import opened ObserverLedger
  import opened ObserverTheorems

  /** Where an effect may stand: a cycle is reserved only after every earlier
      cycle was committed, its report is stored only while it is the one open
      cycle, and it is committed only after its report was stored. */
  predicate InPlace(before: seq<Effect>, x: Effect) {
    match x
    case Reserved(slot, cycle, _, _, _) =>
      && slot > 0 && Slots(before) == UpTo(slot - 1)
      && cycle > 0 && Cycles(before) == UpTo(cycle - 1) && Commits(before) == UpTo(cycle - 1)
    case SlotSkipped(slot) => slot > 0 && Slots(before) == UpTo(slot - 1) && Commits(before) == Cycles(before)
    case Stored(k) =>
      k > 0 && Cycles(before) == UpTo(k) && StoredReports(before) == UpTo(k - 1) && Commits(before) == UpTo(k - 1)
    case Committed(k, _) =>
      k > 0 && Cycles(before) == UpTo(k) && StoredReports(before) == UpTo(k) && Commits(before) == UpTo(k - 1)
    case _ => true
  }

  ghost predicate Ordered(log: seq<Effect>) {
    forall j :: 0 <= j < |log| ==> InPlace(log[..j], log[j])
  }

  lemma OrderedAppend(log: seq<Effect>, x: Effect)
    requires Ordered(log) && InPlace(log, x)
    ensures Ordered(log + [x])
  {
    hide InPlace;
    var all := log + [x];
    forall j | 0 <= j < |all|
      ensures InPlace(all[..j], all[j])
    {
      if j < |log| {
        assert all[..j] == log[..j];
      } else {
        assert all[..j] == log;
      }
    }
  }

  /** Between outcome and commit one cycle is open; otherwise none is. */
  lemma Numbers(cfg: Config, w: World)
    requires Core(cfg, w)
    ensures w.disk.summary.actions + Owed(w.disk.pending) == w.disk.driver.cycles
    ensures w.disk.pending.None? ==> w.disk.scheduler.nextCycle == w.disk.summary.actions + 1
    ensures w.disk.pending.Some? ==>
      && w.disk.pending.value.reportSeq == w.disk.summary.actions + 1
      && w.disk.scheduler.nextCycle == w.disk.pending.value.cycle + 1
      && w.disk.pending.value.cycle == w.disk.pending.value.reportSeq
  {
  }

  lemma ClosingPlace(cfg: Config, w: World, e: Event)
    requires Core(cfg, w) && ReportsOk(cfg, w) && SlotsOk(w) && Enabled(cfg, w, e)
    requires e.CloseCycle? || e.MarkEvidence? || e.StoreReport? || e.Commit?
    requires ApplyClosing(w, e).Success?
    ensures
      var v := ApplyClosing(w, e).value;
      v.log == w.log || (exists x :: v.log == w.log + [x] && InPlace(w.log, x))
  {
    hide Valid, ValidCore, CommitActionReport, RecordStreamRetention, RecordDriverCycle, MarkEvidencePending, Core;
    Numbers(cfg, w);
    var v := ApplyClosing(w, e).value;
    match e
    case StoreReport(_, _) =>
      assert InPlace(w.log, Stored(w.disk.pending.value.reportSeq));
    case Commit(at, _, _) =>
      assert InPlace(w.log, Committed(w.disk.pending.value.reportSeq, at));
    case _ =>
  }

  lemma ProbePlace(cfg: Config, w: World, e: Event)
    requires Core(cfg, w) && ReportsOk(cfg, w) && SlotsOk(w) && e.Probe?
    requires ApplyProbe(cfg, w, e.at, e.probe).Success?
    ensures
      var v := ApplyProbe(cfg, w, e.at, e.probe).value;
      exists x :: v.log == w.log + [x] && InPlace(w.log, x)
  {
    hide ApplyProbe, Core;
    Numbers(cfg, w);
    ProbeShape(cfg, w, e.at, e.probe);
    var x := ApplyProbe(cfg, w, e.at, e.probe).value.log[|w.log|];
    assert InPlace(w.log, x);
  }

  lemma ExchangePlace(w: World, e: Event)
    requires ApplyExchange(w, e).Success?
    ensures
      var v := ApplyExchange(w, e).value;
      v.log == w.log || (exists x :: v.log == w.log + [x] && InPlace(w.log, x))
  {
    hide ApplyExchange;
    ExchangeShape(w, e);
    var v := ApplyExchange(w, e).value;
    if |v.log| > |w.log| {
      var x := v.log[|w.log|];
      assert v.log == w.log + [x] && InPlace(w.log, x);
    } else {
      assert v.log == w.log;
    }
  }

  /** Every step adds at most one effect, in its place. */
  lemma StepPlace(cfg: Config, w: World, e: Event)
    requires ValidConfig(cfg) && Inv(cfg, w) && Enabled(cfg, w, e)
    ensures
      var v := Step(cfg, w, e);
      v.log == w.log || (exists x :: v.log == w.log + [x] && InPlace(w.log, x))
  {
    hide ApplyLoop, ApplyProbe, ApplyRecovery, ApplyExchange, ApplyPolls, ApplyClosing, Core, ReportsOk, SlotsOk,
         SummaryMatches, RateOk, PostsOk, InPlace, QuietMove;
    if e.FailReport? {
      ReportFails(w, e.at);
    }
    if Apply(cfg, w, e).Success? && !e.Crash? {
      match e
      case Crash(_) =>
      case Probe(_, _) => ProbePlace(cfg, w, e);
      case CloseAmbiguous(_) => RecoveryShape(w, e.at);
      case SkipPeer(_) => RecoveryShape(w, e.at);
      case Prepare(_) => RecoveryShape(w, e.at);
      case Send(_) => ExchangePlace(w, e);
      case Receive(_, _) => ExchangePlace(w, e);
      case RecordCreate(_) => ExchangePlace(w, e);
      case StartPolls(_) => PollsQuiet(cfg, w, e);
      case PollOnce(_, _, _, _) => PollsQuiet(cfg, w, e);
      case CloseCycle(_) => ClosingPlace(cfg, w, e);
      case MarkEvidence(_) => ClosingPlace(cfg, w, e);
      case StoreReport(_, _) => ClosingPlace(cfg, w, e);
      case FailReport(_) =>
      case Commit(_, _, _) => ClosingPlace(cfg, w, e);
      case _ => LoopQuiet(cfg, w, e);
    }
  }

  lemma {:induction false} RunOrdered(cfg: Config, now: int, ws: seq<World>, es: seq<Event>, i: nat)
    requires Execution(cfg, now, ws, es) && i <= |es|
    ensures Ordered(ws[i].log)
  {
    hide Inv, Step, InPlace, Enabled;
    if i > 0 {
      RunOrdered(cfg, now, ws, es, i - 1);
      RunInv(cfg, now, ws, es, i - 1);
      assert Moves(cfg, ws, es, i - 1);
      StepPlace(cfg, ws[i - 1], es[i - 1]);
      if ws[i].log != ws[i - 1].log {
        var x :| ws[i].log == ws[i - 1].log + [x] && InPlace(ws[i - 1].log, x);
        OrderedAppend(ws[i - 1].log, x);
      }
    }
  }

  // ----- One report per cycle ---------------------------------------------------------

  /** What the artifacts and counters of a run agree on. */
  ghost predicate BooksBalance(w: World) {
    var n := |StoredReports(w.log)|;
    var done := w.disk.summary.actions;
    && done + Owed(w.disk.pending) == w.disk.driver.cycles
    && Cycles(w.log)
      == UpTo(w.disk.driver.cycles + (if w.disk.pending.Some? && w.disk.pending.value.outcome.None? then 1 else 0))
    && StoredReports(w.log) == UpTo(n) && Commits(w.log) == UpTo(done)
    && done <= n <= done + 1
    && (forall k :: k in w.reports <==> 1 <= k <= n)
    && Slots(w.log) == UpTo(w.disk.driver.cycles + w.disk.driver.skips
                            + (if w.disk.pending.Some? && w.disk.pending.value.outcome.None? then 1 else 0))
  }

  lemma InvBalances(cfg: Config, w: World)
    requires Inv(cfg, w)
    ensures BooksBalance(w)
  {
    hide ClientOk, ValidClient, PostsOk, RateOk, SummaryMatches;
  }

  /** Over every run: cycles, stored reports and commits are numbered 1, 2, 3 ...
      without gap or repetition, each stage waits for the one before it, and
      every schedule slot is consumed by exactly one cycle or one skip. */
  lemma OneReportPerCycle(cfg: Config, now: int, ws: seq<World>, es: seq<Event>, i: nat)
    requires Execution(cfg, now, ws, es) && i <= |es|
    ensures Ordered(ws[i].log) && BooksBalance(ws[i])
  {
    hide Inv, Start, Ordered, BooksBalance;
    RunOrdered(cfg, now, ws, es, i);
    RunInv(cfg, now, ws, es, i);
    InvBalances(cfg, ws[i]);
  }

  /** The persisted totals, histograms, tails and gate are those of the committed
      reports, read off the report store. */
  ghost predicate ReadsHistory(cfg: Config, w: World) {
    && (forall k :: 1 <= k <= w.disk.summary.actions ==> k in w.reports)
    && w.disk.summary.(observed := UNSEEN)
       == SummaryFrom(cfg, History(w.reports, w.disk.summary.actions)).(observed := UNSEEN)
  }

  lemma InvReads(cfg: Config, w: World)
    requires Inv(cfg, w)
    ensures ReadsHistory(cfg, w)
  {
    hide SummaryOf, Core, PostsOk;
  }

  lemma SummaryIsHistory(cfg: Config, now: int, ws: seq<World>, es: seq<Event>, i: nat)
    requires Execution(cfg, now, ws, es) && i <= |es|
    ensures ReadsHistory(cfg, ws[i])
  {
    hide Inv, Start, ReadsHistory;
    RunInv(cfg, now, ws, es, i);
    InvReads(cfg, ws[i]);
  }

  // ----- The rate limit ------------------------------------------------------------------

  lemma {:induction false} CommitsGrow(log: seq<Effect>, i: nat)
    requires i <= |log|
    ensures |Commits(log[..i])| <= |Commits(log)|
  {
    if i < |log| {
      assert log[..|log| - 1][..i] == log[..i];
      CommitsGrow(log[..|log| - 1], i);
    } else {
      assert log[..i] == log;
    }
  }

  lemma CommitFirst(log: seq<Effect>, i: nat, j: nat)
    requires Ordered(log) && i < |log| && j < |log|
    requires log[i].Committed? && log[j].Reserved? && log[j].cycle == log[i].seqNo + 1
    ensures i < j
  {
    assert InPlace(log[..i], log[i]) && InPlace(log[..j], log[j]);
    if j < i {
      assert log[..i][..j] == log[..j];
      CommitsGrow(log[..i], j);
    }
  }

  lemma InvRate(cfg: Config, w: World)
    requires Inv(cfg, w)
    ensures RateOk(cfg, w)
  {
  }

  /** Under any crashes, a cycle is reserved no sooner than the search interval
      after the commit of the cycle before it. */
  lemma RateLimit(cfg: Config, now: int, ws: seq<World>, es: seq<Event>, k: nat, i: nat, j: nat)
    requires Execution(cfg, now, ws, es) && k <= |es| && i < |ws[k].log| && j < |ws[k].log|
    requires ws[k].log[i].Committed? && ws[k].log[j].Reserved? && ws[k].log[j].cycle == ws[k].log[i].seqNo + 1
    ensures i < j && ws[k].log[j].at >= ws[k].log[i].at + cfg.interval
  {
    hide Inv, Start, Ordered;
    RunOrdered(cfg, now, ws, es, k);
    RunInv(cfg, now, ws, es, k);
    InvRate(cfg, ws[k]);
    CommitFirst(ws[k].log, i, j);
  }
}
