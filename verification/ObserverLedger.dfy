/** Slots, cycles, reports and commits along a run, and the rate limit. */
module ObserverLedger {
  import opened Wrappers
  import opened ObserverSummary
  import opened ObserverState
  import opened ObserverSchedule
  import opened ObserverRun
  import opened ObserverSafety

  // ----- What the log says ----------------------------------------------------------

  /** Schedule slots in the order they were consumed, by a cycle or by a skip. */
  function Slots(log: seq<Effect>): seq<nat> {
    if |log| == 0 then []
    else
      var front := Slots(log[..|log| - 1]);
      match log[|log| - 1]
      case Reserved(slot, _, _, _, _) => front + [slot]
      case SlotSkipped(slot) => front + [slot]
      case _ => front
  }

  function Cycles(log: seq<Effect>): seq<nat> {
    if |log| == 0 then []
    else
      var front := Cycles(log[..|log| - 1]);
      match log[|log| - 1]
      case Reserved(_, cycle, _, _, _) => front + [cycle]
      case _ => front
  }

  function StoredReports(log: seq<Effect>): seq<nat> {
    if |log| == 0 then []
    else
      var front := StoredReports(log[..|log| - 1]);
      match log[|log| - 1]
      case Stored(k) => front + [k]
      case _ => front
  }

  function Commits(log: seq<Effect>): seq<nat> {
    if |log| == 0 then []
    else
      var front := Commits(log[..|log| - 1]);
      match log[|log| - 1]
      case Committed(k, _) => front + [k]
      case _ => front
  }

  function UpTo(n: nat): seq<nat> {
    seq(n, i requires 0 <= i < n => i + 1)
  }

  lemma UpToNext(n: nat)
    ensures UpTo(n + 1) == UpTo(n) + [n + 1]
  {
  }

  function History(reports: map<nat, Report>, n: nat): seq<Report>
    requires forall k :: 1 <= k <= n ==> k in reports
  {
    seq(n, i requires 0 <= i < n => reports[i + 1])
  }

  const UNSEEN := Observed(None, None)

  function SummaryFrom(cfg: Config, rs: seq<Report>): Summary {
    SummaryOf(cfg.campaign, cfg.actionLimit, cfg.anomalyLimit, cfg.target, rs)
  }

  // ----- The ledger invariant ---------------------------------------------------------

  ghost predicate ReportsOk(cfg: Config, w: World) {
    var n := |StoredReports(w.log)|;
    var done := w.disk.summary.actions;
    && StoredReports(w.log) == UpTo(n)
    && Commits(w.log) == UpTo(done)
    && done <= n <= done + 1
    && |w.reports| == n
    && (forall k :: k in w.reports <==> 1 <= k <= n)
    && (n == done + 1 ==>
          w.disk.pending.Some? && ReportFor(cfg.campaign, w.disk.pending.value, w.reports[n]))
  }

  ghost predicate SlotsOk(w: World) {
    && w.disk.scheduler.nextSlot > 0 && w.disk.scheduler.nextCycle > 0
    && Slots(w.log) == UpTo(w.disk.scheduler.nextSlot - 1)
    && Cycles(w.log) == UpTo(w.disk.scheduler.nextCycle - 1)
  }

  /** The persisted summary is the one read off the committed reports; only the
      observed interval also follows the checkpoints. */
  ghost predicate SummaryMatches(cfg: Config, w: World)
    requires ReportsOk(cfg, w)
  {
    w.disk.summary.(observed := UNSEEN)
    == SummaryFrom(cfg, History(w.reports, w.disk.summary.actions)).(observed := UNSEEN)
  }

  ghost predicate RateOk(cfg: Config, w: World) {
    && (forall i :: 0 <= i < |w.log| && w.log[i].Committed? ==> w.log[i].at <= w.now)
    && (forall i, j :: 0 <= i < j < |w.log| && w.log[i].Committed? && w.log[j].Reserved? ==>
          w.log[j].at >= w.log[i].at + cfg.interval)
    && (w.disk.pending.None? && w.disk.scheduler.nextActionAt.Some? ==>
          forall i :: 0 <= i < |w.log| && w.log[i].Committed? ==>
            w.disk.scheduler.nextActionAt.value >= w.log[i].at + cfg.interval)
    && (w.disk.summary.actions == 0 ==> forall i :: 0 <= i < |w.log| ==> !w.log[i].Committed?)
  }

  ghost predicate Ledger(cfg: Config, w: World) {
    && ReportsOk(cfg, w)
    && SlotsOk(w)
    && SummaryMatches(cfg, w)
    && RateOk(cfg, w)
  }

  // ----- Moves that leave the ledger alone ----------------------------------------------

  ghost predicate SameBooks(w: World, v: World) {
    && w.log <= v.log && |v.log| <= |w.log| + 1
    && (|v.log| > |w.log| ==> v.log[|w.log|].Post? || v.log[|w.log|].PostFailed?)
    && v.reports == w.reports
    && v.disk.summary == w.disk.summary.(observed := v.disk.summary.observed)
    && v.disk.scheduler.nextSlot == w.disk.scheduler.nextSlot
    && v.disk.scheduler.nextCycle == w.disk.scheduler.nextCycle
    && (w.disk.pending.Some? && w.disk.pending.value.evidence.Some? ==> v.disk.pending == w.disk.pending)
    && w.now <= v.now
  }

  lemma BooksUnchanged(cfg: Config, w: World, v: World)
    requires SameBooks(w, v) && ReportsOk(cfg, w) && SlotsOk(w) && SummaryMatches(cfg, w)
    ensures ReportsOk(cfg, v) && SlotsOk(v) && SummaryMatches(cfg, v)
  {
    hide SummaryOf, ValidCore, Valid;
    if |v.log| > |w.log| {
      assert v.log == w.log + [v.log[|w.log|]];
      assert v.log[..|v.log| - 1] == w.log;
    } else {
      assert v.log == w.log;
    }
  }

  lemma RateUnchanged(cfg: Config, w: World, v: World)
    requires SameBooks(w, v) && RateOk(cfg, w)
    requires v.disk.pending.None? && v.disk.scheduler.nextActionAt.Some? ==>
      (v.disk.scheduler.nextActionAt == w.disk.scheduler.nextActionAt && w.disk.pending.None?)
      || v.disk.scheduler.nextActionAt.value >= w.now + cfg.interval
      || v.disk.summary.actions == 0
    ensures RateOk(cfg, v)
  {
    assert forall i :: 0 <= i < |w.log| ==> v.log[i] == w.log[i];
  }

  // ----- Each group of events ----------------------------------------------------------

  lemma LoopLedger(cfg: Config, w: World, e: Event)
    requires ValidConfig(cfg) && Core(cfg, w) && Ledger(cfg, w) && Enabled(cfg, w, e) && ApplyLoop(cfg, w, e).Success?
    ensures Ledger(cfg, ApplyLoop(cfg, w, e).value.(now := EndOf(e)))
  {
    hide SummaryOf, ValidCore;
    var v := ApplyLoop(cfg, w, e).value.(now := EndOf(e));
    LoopQuiet(cfg, w, e);
    BooksUnchanged(cfg, w, v);
    hide ReportsOk, SlotsOk, SummaryMatches, RateOk;
    RateUnchanged(cfg, w, v);
  }

  lemma RecoveryShape(w: World, at: int)
    requires ApplyRecovery(w, at).Success?
    ensures
      var v := ApplyRecovery(w, at).value;
      && v == w.(disk := v.disk, pc := v.pc) && v.disk == w.disk.(pending := v.disk.pending)
      && w.disk.pending.Some? && v.disk.pending.Some?
      && (PhaseOf(w.disk.pending).Recovering? || PhaseOf(w.disk.pending).SkippingPeer?
          || PhaseOf(w.disk.pending) == Preparing)
  {
    hide Valid;
  }

  lemma RecoveryLedger(cfg: Config, w: World, e: Event)
    requires Core(cfg, w) && Ledger(cfg, w) && Enabled(cfg, w, e) && (e.CloseAmbiguous? || e.SkipPeer? || e.Prepare?)
    requires ApplyRecovery(w, e.at).Success?
    ensures Ledger(cfg, ApplyRecovery(w, e.at).value.(now := EndOf(e)))
  {
    hide SummaryOf, ValidCore, Valid;
    var v := ApplyRecovery(w, e.at).value.(now := EndOf(e));
    RecoveryShape(w, e.at);
    assert w.disk.pending.value.evidence.None?;
    BooksUnchanged(cfg, w, v);
    RateUnchanged(cfg, w, v);
  }

  lemma ExchangeShape(w: World, e: Event)
    requires ApplyExchange(w, e).Success?
    ensures
      var v := ApplyExchange(w, e).value;
      && w.log <= v.log && |v.log| <= |w.log| + 1
      && (|v.log| > |w.log| ==> v.log[|w.log|].Post? || v.log[|w.log|].PostFailed?)
      && v == w.(disk := v.disk, pc := v.pc, log := v.log) && v.disk == w.disk.(pending := v.disk.pending)
      && w.disk.pending.Some? && v.disk.pending.Some?
  {
    hide Valid;
  }

  lemma ExchangeLedger(cfg: Config, w: World, e: Event)
    requires Core(cfg, w) && Ledger(cfg, w) && Enabled(cfg, w, e) && (e.Send? || e.Receive? || e.RecordCreate?)
    requires ApplyExchange(w, e).Success?
    ensures Ledger(cfg, ApplyExchange(w, e).value.(now := EndOf(e)))
  {
    hide SummaryOf, ValidCore, Valid;
    var v := ApplyExchange(w, e).value.(now := EndOf(e));
    ExchangeShape(w, e);
    assert w.disk.pending.value.evidence.None?;
    BooksUnchanged(cfg, w, v);
    RateUnchanged(cfg, w, v);
  }

  lemma PollsLedger(cfg: Config, w: World, e: Event)
    requires Core(cfg, w) && Ledger(cfg, w) && Enabled(cfg, w, e) && (e.StartPolls? || e.PollOnce?)
    requires ApplyPolls(cfg, w, e).Success?
    ensures Ledger(cfg, ApplyPolls(cfg, w, e).value.(now := EndOf(e)))
  {
    hide SummaryOf, ValidCore, Valid;
    var v := ApplyPolls(cfg, w, e).value.(now := EndOf(e));
    PollsQuiet(cfg, w, e);
    assert w.disk.pending.value.evidence.None?;
    BooksUnchanged(cfg, w, v);
    RateUnchanged(cfg, w, v);
  }

  lemma CycleLedger(cfg: Config, w: World, e: Event)
    requires Core(cfg, w) && Ledger(cfg, w) && Enabled(cfg, w, e) && (e.CloseCycle? || e.MarkEvidence?)
    requires ApplyClosing(w, e).Success?
    ensures Ledger(cfg, ApplyClosing(w, e).value.(now := EndOf(e)))
  {
    hide SummaryOf, ValidCore, Valid;
    var v := ApplyClosing(w, e).value.(now := EndOf(e));
    assert w.disk.pending.value.evidence.None?;
    assert SameBooks(w, v) && v.disk.pending.Some? by {
      hide Valid;
    }
    BooksUnchanged(cfg, w, v);
    RateUnchanged(cfg, w, v);
  }

  lemma ProbeShape(cfg: Config, w: World, at: int, probe: ProbeResult)
    requires ApplyProbe(cfg, w, at, probe).Success?
    ensures
      var v := ApplyProbe(cfg, w, at, probe).value;
      && v.reports == w.reports && v.disk.summary == w.disk.summary && w.disk.pending.None?
      && v.disk.scheduler.nextSlot == w.disk.scheduler.nextSlot + 1
      && (Checked(probe).NotReady? ==>
            && v.disk.pending.None? && v.log == w.log + [SlotSkipped(w.disk.scheduler.nextSlot)]
            && v.disk.scheduler == w.disk.scheduler.(nextSlot := w.disk.scheduler.nextSlot + 1))
      && (Checked(probe).Ready? ==>
            && v.disk.pending.Some? && v.disk.scheduler.nextActionAt.None?
            && v.disk.scheduler.nextCycle == w.disk.scheduler.nextCycle + 1
            && ScheduledAction(cfg.terms, w.disk.scheduler.nextSlot, w.disk.summary.gate).Success?
            && v.log == w.log + [ReservedAs(cfg, w, at)])
      && !Checked(probe).ProbeEscapes?
  {
  }

  /** The reservation a ready probe leads to: what the schedule asks of the next slot. */
  function ReservedAs(cfg: Config, w: World, at: int): Effect
    requires ScheduledAction(cfg.terms, w.disk.scheduler.nextSlot, w.disk.summary.gate).Success?
  {
    var action := ScheduledAction(cfg.terms, w.disk.scheduler.nextSlot, w.disk.summary.gate).value;
    Reserved(w.disk.scheduler.nextSlot, w.disk.scheduler.nextCycle, at, action.0, MethodFor(action.1))
  }

  lemma ProbeLedger(cfg: Config, w: World, e: Event)
    requires ValidConfig(cfg) && Core(cfg, w) && Ledger(cfg, w) && Enabled(cfg, w, e) && e.Probe?
    requires ApplyProbe(cfg, w, e.at, e.probe).Success?
    ensures Ledger(cfg, ApplyProbe(cfg, w, e.at, e.probe).value.(now := EndOf(e)))
  {
    hide SummaryOf, ValidCore, Valid, StateOk, ApplyProbe, ScheduledAction;
    var v := ApplyProbe(cfg, w, e.at, e.probe).value.(now := EndOf(e));
    ProbeShape(cfg, w, e.at, e.probe);
    ProbeDue(cfg, w, e);
    assert v.log[..|v.log| - 1] == w.log;
    UpToNext(w.disk.scheduler.nextSlot - 1);
    UpToNext(w.disk.scheduler.nextCycle - 1);
    assert ReportsOk(cfg, v) && SlotsOk(v);
    hide ReportsOk, SlotsOk, Slots, Cycles, StoredReports, Commits;
    assert forall i :: 0 <= i < |w.log| ==> v.log[i] == w.log[i];
  }

  /** A probe happens only once the deadline has passed. */
  lemma ProbeDue(cfg: Config, w: World, e: Event)
    requires Core(cfg, w) && Enabled(cfg, w, e) && e.Probe?
    ensures w.disk.pending.None? && w.disk.scheduler.nextActionAt.Some? && w.disk.scheduler.nextActionAt.value <= e.at
  {
    hide StateOk, Valid;
  }

  lemma PendingNumbers(cfg: Config, w: World)
    requires Core(cfg, w) && w.disk.pending.Some?
    ensures w.disk.pending.value.reportSeq == w.disk.summary.nextSeq == w.disk.summary.actions + 1
    ensures w.disk.scheduler.nextActionAt.None?
  {
  }

  lemma StoreLedger(cfg: Config, w: World, e: Event)
    requires Core(cfg, w) && Ledger(cfg, w) && Enabled(cfg, w, e) && e.StoreReport? && ApplyClosing(w, e).Success?
    ensures Ledger(cfg, ApplyClosing(w, e).value.(now := EndOf(e)))
  {
    hide SummaryOf, ValidCore, Valid;
    var v := ApplyClosing(w, e).value.(now := EndOf(e));
    var n := |StoredReports(w.log)|;
    PendingNumbers(cfg, w);
    assert n == w.disk.summary.actions;
    assert v.log[..|v.log| - 1] == w.log;
    UpToNext(n);
    assert ReportsOk(cfg, v) && SlotsOk(v);
    assert History(v.reports, w.disk.summary.actions) == History(w.reports, w.disk.summary.actions);
    assert forall i :: 0 <= i < |w.log| ==> v.log[i] == w.log[i];
  }

  lemma CommitShape(w: World, e: Event)
    requires e.Commit? && w.disk.pending.Some? && w.disk.pending.value.reportSeq in w.reports
    requires ApplyClosing(w, e).Success?
    ensures
      var v := ApplyClosing(w, e).value;
      var r := w.reports[w.disk.pending.value.reportSeq];
      var one := CommitActionReport(w.disk, r).value;
      && FoldReport(w.disk.summary, r).Success?
      && CommitActionReport(w.disk, r).Success? && Valid(one)
      && one == w.disk.(summary := FoldReport(w.disk.summary, r).value, pending := None)
      && v.disk == one.(actionRetention := v.disk.actionRetention)
      && RecordStreamRetention(one, Actions, e.retained, e.bytes) == Success(v.disk)
      && v == w.(disk := v.disk, pc := Driven, log := w.log + [Committed(w.disk.pending.value.reportSeq, e.at)])
  {
    hide FoldReport, Valid;
  }

  lemma FoldKeepsFrame(s: Summary, r: Report)
    requires FoldReport(s, r).Success?
    ensures
      var t := FoldReport(s, r).value;
      && t.campaign == s.campaign && t.gate.targets == s.gate.targets
      && t.actions == s.actions + 1 && t.nextSeq == s.nextSeq + 1
  {
  }

  lemma CommitStaysValid(cfg: Config, w: World, e: Event)
    requires Core(cfg, w) && ReportsOk(cfg, w) && e.Commit? && Enabled(cfg, w, e)
    requires ApplyClosing(w, e).Success?
    ensures Valid(ApplyClosing(w, e).value.disk)
  {
    CommitShape(w, e);
    hide ApplyClosing, FoldReport, CommitActionReport, Valid;
    var one := CommitActionReport(w.disk, w.reports[w.disk.pending.value.reportSeq]).value;
    RetentionExact(one, Actions, e.retained, e.bytes);
    FoldKeepsFrame(w.disk.summary, w.reports[w.disk.pending.value.reportSeq]);
  }

  lemma CommitCore(cfg: Config, w: World, e: Event)
    requires ValidConfig(cfg) && Core(cfg, w) && ReportsOk(cfg, w) && Enabled(cfg, w, e) && e.Commit?
    requires ApplyClosing(w, e).Success?
    ensures Core(cfg, ApplyClosing(w, e).value.(now := EndOf(e)))
  {
    hide ValidSummary, ValidPending, ValidRetention, ClientOk, FoldReport, CommitActionReport;
    CommitStaysValid(cfg, w, e);
    CommitShape(w, e);
    hide ApplyClosing;
    FoldKeepsFrame(w.disk.summary, w.reports[w.disk.pending.value.reportSeq]);
  }

  lemma FoldIgnoresObserved(s: Summary, r: Report)
    requires FoldReport(s, r).Success?
    ensures FoldReport(s.(observed := UNSEEN), r).Success?
    ensures FoldReport(s.(observed := UNSEEN), r).value.(observed := UNSEEN)
      == FoldReport(s, r).value.(observed := UNSEEN)
  {
  }

  lemma CommitLedger(cfg: Config, w: World, e: Event)
    requires ValidConfig(cfg) && Core(cfg, w) && Ledger(cfg, w) && Enabled(cfg, w, e) && e.Commit?
    requires ApplyClosing(w, e).Success?
    ensures Ledger(cfg, ApplyClosing(w, e).value.(now := EndOf(e)))
  {
    hide FoldReport, SummaryOf, ValidCore, Valid;
    var v := ApplyClosing(w, e).value.(now := EndOf(e));
    var done := w.disk.summary.actions;
    var r := w.reports[w.disk.pending.value.reportSeq];
    CommitShape(w, e);
    hide ApplyClosing;
    FoldKeepsFrame(w.disk.summary, r);
    PendingNumbers(cfg, w);
    assert v.log[..|v.log| - 1] == w.log;
    UpToNext(done);
    assert ReportsOk(cfg, v) && SlotsOk(v);
    assert forall i :: 0 <= i < |w.log| ==> v.log[i] == w.log[i];
    assert RateOk(cfg, v);
    CommitSummary(cfg, w, r);
    assert History(v.reports, done + 1) == History(w.reports, done) + [r];
  }

  lemma CommitSummary(cfg: Config, w: World, r: Report)
    requires ValidConfig(cfg) && ReportsOk(cfg, w) && SummaryMatches(cfg, w) && FoldReport(w.disk.summary, r).Success?
    requires w.disk.summary.campaign == cfg.campaign && w.disk.summary.nextSeq == w.disk.summary.actions + 1
    ensures
      FoldReport(w.disk.summary, r).value.(observed := UNSEEN)
      == SummaryFrom(cfg, History(w.reports, w.disk.summary.actions) + [r]).(observed := UNSEEN)
  {
    var rs := History(w.reports, w.disk.summary.actions);
    var ideal := SummaryFrom(cfg, rs);
    FoldAccepts(w.disk.summary, r);
    FoldIgnoresObserved(w.disk.summary, r);
    FoldStep(cfg.campaign, cfg.actionLimit, cfg.anomalyLimit, cfg.target, rs, r);
    hide FoldReport, SummaryOf;
    FoldIgnoresObserved(ideal, r);
  }
}
