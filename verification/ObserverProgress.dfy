/** When the observer can raise, and why every pending action comes to an end. */
module ObserverProgress {
  import opened Wrappers
  import opened Blanks
  import opened ObserverSummary
  import opened ObserverState
  import opened ObserverSchedule
  import opened ObserverRun
  import opened ObserverSafety
  import opened ObserverLedger
  import opened ObserverTheorems

  // ----- Exactly which events raise --------------------------------------------------

  /** The served client's deadline has not passed, so that its page is requested. */
  predicate Fetches(p: Option<PendingAction>, at: int, second: int) {
    p.Some? && Served(p.value, at, second).Some?
    && var served := Served(p.value, at, second).value;
       served.1 < p.value.Get(served.0).poll.value.deadline
  }

  /** What keeps an event of a run from raising: the loop must meet a valid durable
      state, an answer from outside must be one the drive handles (a readable page,
      an identifier that is not white space), the report must come about, and not
      too many checkpoints may have failed in a row. */
  predicate Accepts(cfg: Config, w: World, e: Event) {
    match e
    case Boot(_) => Valid(w.disk)
    case Wake(_) => Valid(w.disk)
    case FailCheckpoint(_) => w.failures + 1 < cfg.failureThreshold
    case LoseCheckpoint(_) => w.failures + 1 < cfg.failureThreshold
    case Probe(_, probe) => !probe.ProbeEscapes?
    case Receive(_, reply) => !reply.Escapes?
    case RecordCreate(_) => w.pc.Holding? && w.pc.outcome.Created? ==> !BlankId(w.pc.outcome.searchId)
    case PollOnce(at, second, _, answer) => Fetches(w.disk.pending, at, second) ==> Readable(answer)
    case FailReport(_) => false
    case _ => true
  }

  lemma LoopRaises(cfg: Config, w: World, e: Event)
    requires Core(cfg, w) && Enabled(cfg, w, e)
    requires e.Boot? || e.Rearm? || e.Wake? || e.StoreCheckpoint? || e.SummarizeCheckpoint? || e.FailCheckpoint?
      || e.LoseCheckpoint?
    ensures ApplyLoop(cfg, w, e).Success? <==> Accepts(cfg, w, e)
  {
    hide ValidCore, ValidRetention, ValidSummary;
    match e
    case Boot(at) =>
      DeadlineExact(w.disk, None);
      DeadlineExact(w.disk, Some(at + cfg.interval));
      DeadlineExact(w.disk, Some(at + cfg.startDelay));
    case Rearm(at) => DeadlineExact(w.disk, None); DeadlineExact(w.disk, Some(at + cfg.interval));
    case SummarizeCheckpoint(_, stamp, _) =>
      RecordCheckpointValid(w.disk, Utc(stamp));
    case _ =>
  }

  lemma ProbeRaises(cfg: Config, w: World, e: Event)
    requires ValidConfig(cfg) && Core(cfg, w) && Enabled(cfg, w, e) && e.Probe?
    ensures ApplyProbe(cfg, w, e.at, e.probe).Success? <==> Accepts(cfg, w, e)
  {
    hide Valid, ValidCore, ClientOk;
    var slot := w.disk.scheduler.nextSlot;
    assert Valid(w.disk) && w.disk.pending.None? && slot > 0 by {
      SlotPositive(cfg, w);
    }
    match Checked(e.probe)
    case ProbeEscapes =>
    case NotReady(phase) => SkipExact(w.disk, e.at, phase);
    case Ready(rustRun, mfcRun) =>
      var action := ScheduledAction(cfg.terms, slot, w.disk.summary.gate).value;
      assert !BlankId(action.0);
      ReserveExact(w.disk, action.0, MethodFor(action.1), e.at, rustRun, mfcRun);
  }

  lemma SlotPositive(cfg: Config, w: World)
    requires Core(cfg, w)
    ensures w.disk.scheduler.nextSlot > 0
    ensures w.disk.pending.Some? ==> w.disk.pending.value.cycle > 0
    ensures w.disk.pending.Some? && w.disk.pending.value.outcome.None? ==>
      w.disk.pending.value.cycle == w.disk.driver.cycles + 1
  {
  }

  lemma RecoveryAccepts(cfg: Config, w: World, e: Event)
    requires Core(cfg, w) && Enabled(cfg, w, e) && (e.CloseAmbiguous? || e.SkipPeer? || e.Prepare?)
    ensures ApplyRecovery(w, e.at).Success?
  {
    hide Valid, ValidCore, ClientOk;
    assert Valid(w.disk);
    match PhaseOf(w.disk.pending)
    case Recovering(c) => CompleteExact(w.disk, c, e.at, CreateError(Ambiguous(c)));
    case SkippingPeer(c) => SkipCreateExact(w.disk, c, e.at, PeerStarted(c));
    case Preparing =>
      PrepareExact(w.disk, Rust, e.at);
      PrepareExact(PrepareSearchCreate(w.disk, Rust, e.at).value, Mfc, e.at);
    case _ =>
  }

  lemma ExchangeRaises(cfg: Config, w: World, e: Event)
    requires Core(cfg, w) && Enabled(cfg, w, e) && (e.Send? || e.Receive? || e.RecordCreate?)
    ensures ApplyExchange(w, e).Success? <==> Accepts(cfg, w, e)
  {
    hide Valid, ValidCore, ClientOk;
    if e.RecordCreate? {
      CompleteExact(w.disk, w.pc.client, e.at, w.pc.outcome);
    }
  }

  lemma StartOneAccepts(cfg: Config, s: State, c: Client)
    requires ValidConfig(cfg) && Valid(s) && s.pending.Some?
    ensures StartOne(cfg, s, c).Success? && Valid(StartOne(cfg, s, c).value) && StartOne(cfg, s, c).value.pending.Some?
  {
    hide Valid;
    if AwaitsPoll(s.pending.value.Get(c)) {
      var started := s.pending.value.Get(c).create.value.completedAt;
      StartPollExact(s, c, started, started + cfg.timeout);
    }
  }

  lemma PollValid(s: State, c: Client)
    requires Valid(s) && s.pending.Some?
    ensures ValidClient(s.pending.value.Get(c))
  {
    hide ValidClient, ValidSummary;
  }

  lemma ServeRaises(s: State, c: Client, at: int, read: int, answer: GetAnswer)
    requires Valid(s) && s.pending.Some? && s.pending.value.Get(c).poll.Some?
    requires s.pending.value.Get(c).poll.value.nextAttempt <= at <= read
    ensures ServePoll(s, c, at, read, answer).Success? <==>
      (at < s.pending.value.Get(c).poll.value.deadline ==> Readable(answer))
  {
    hide Valid, Revalidated, WithClient;
    PollValid(s, c);
    var p := s.pending.value.Get(c).poll.value;
    if at >= p.deadline {
      ExpireExact(s, c, at, None);
      ExpireExact(s, c, at, Some(DeadlineElapsed(c)));
    } else if Readable(answer) {
      var page := answer.page;
      var completed := page.PageRead? && page.completed && read < p.deadline;
      var later := read + POLL_INTERVAL;
      AttemptExact(s, c, read, None, completed, page);
      AttemptExact(s, c, read, Some(if later <= p.deadline then later else p.deadline), completed, page);
    }
  }

  lemma PollsRaise(cfg: Config, w: World, e: Event)
    requires ValidConfig(cfg) && Core(cfg, w) && Enabled(cfg, w, e) && (e.StartPolls? || e.PollOnce?)
    ensures ApplyPolls(cfg, w, e).Success? <==> Accepts(cfg, w, e)
  {
    hide StateOk, Valid, StartOne, ServePoll, Readable;
    assert Valid(w.disk) && w.disk.pending.Some?;
    if e.StartPolls? {
      StartOneAccepts(cfg, w.disk, Rust);
      StartOneAccepts(cfg, StartOne(cfg, w.disk, Rust).value, Mfc);
    } else {
      var served := Served(w.disk.pending.value, e.at, e.second);
      if served.Some? {
        ServeRaises(w.disk, served.value.0, served.value.1, e.read, e.answer);
      }
    }
  }

  lemma CommitAccepts(cfg: Config, w: World, e: Event)
    requires Inv(cfg, w) && Enabled(cfg, w, e) && e.Commit?
    ensures ApplyClosing(w, e).Success?
  {
    hide Valid, ValidCore, ClientOk, PostsOk, SlotsOk, SummaryMatches, RateOk, CommitActionReport;
    hide RecordStreamRetention;
    assert Valid(w.disk);
    var r := w.reports[w.disk.pending.value.reportSeq];
    SlotPositive(cfg, w);
    PendingNumbers(cfg, w);
    CommitExact(w.disk, r);
    CommitStaysValid(w.disk, r);
    RetentionAccepts(CommitActionReport(w.disk, r).value, e.retained, e.bytes);
  }

  lemma RetentionAccepts(s: State, retained: nat, bytes: nat)
    requires Valid(s)
    ensures RecordStreamRetention(s, Actions, retained, bytes).Success?
  {
    hide Valid;
  }

  lemma ClosingAccepts(cfg: Config, w: World, e: Event)
    requires ValidConfig(cfg) && Inv(cfg, w) && Enabled(cfg, w, e)
    requires e.CloseCycle? || e.MarkEvidence? || e.StoreReport? || e.Commit?
    ensures ApplyClosing(w, e).Success?
  {
    hide Valid, ValidCore, ClientOk, PostsOk, Ledger, CommitActionReport, RecordStreamRetention;
    assert Valid(w.disk);
    var p := w.disk.pending.value;
    match e
    case CloseCycle(at) =>
      SlotPositive(cfg, w);
      CycleExact(w.disk, CyclePayload(p, at));
    case MarkEvidence(_) => EvidenceExact(w.disk, p.outcome.value.completedAt);
    case StoreReport(_, _) =>
    case Commit(_, _, _) => CommitAccepts(cfg, w, e);
  }

  lemma CommitStaysValid(s: State, r: Report)
    requires CommitActionReport(s, r).Success?
    ensures Valid(CommitActionReport(s, r).value)
  {
    hide Valid, FoldReport;
  }

  /** In every reachable world an event raises if and only if `Accepts` refuses it:
      no guard or validation of any transition ever fires otherwise. */
  lemma RaisesExactly(cfg: Config, w: World, e: Event)
    requires ValidConfig(cfg) && Inv(cfg, w) && Enabled(cfg, w, e)
    ensures Apply(cfg, w, e).Success? <==> Accepts(cfg, w, e)
  {
    hide ApplyLoop, ApplyProbe, ApplyRecovery, ApplyExchange, ApplyPolls, ApplyClosing, Enabled, Core, PostsOk, Ledger;
    hide Valid, Fetches, Readable;
    match e
    case Crash(_) =>
    case Probe(_, _) => ProbeRaises(cfg, w, e);
    case CloseAmbiguous(_) => RecoveryAccepts(cfg, w, e);
    case SkipPeer(_) => RecoveryAccepts(cfg, w, e);
    case Prepare(_) => RecoveryAccepts(cfg, w, e);
    case Send(_) => ExchangeRaises(cfg, w, e);
    case Receive(_, _) => ExchangeRaises(cfg, w, e);
    case RecordCreate(_) => ExchangeRaises(cfg, w, e);
    case StartPolls(_) => PollsRaise(cfg, w, e);
    case PollOnce(_, _, _, _) => PollsRaise(cfg, w, e);
    case CloseCycle(_) => ClosingAccepts(cfg, w, e);
    case MarkEvidence(_) => ClosingAccepts(cfg, w, e);
    case StoreReport(_, _) => ClosingAccepts(cfg, w, e);
    case FailReport(_) => ReportFails(w, e.at);
    case Commit(_, _, _) => ClosingAccepts(cfg, w, e);
    case _ => LoopRaises(cfg, w, e);
  }

  /** The event is an exception that ends the process. */
  predicate Raises(cfg: Config, w: World, e: Event) {
    Apply(cfg, w, e).Failure?
  }

  /** The same said of runs: an event raises in no other way. */
  lemma RunRaisesExactly(cfg: Config, now: int, ws: seq<World>, es: seq<Event>, i: nat, e: Event)
    requires Execution(cfg, now, ws, es) && i <= |es| && Enabled(cfg, ws[i], e)
    ensures Raises(cfg, ws[i], e) <==> !Accepts(cfg, ws[i], e)
  {
    hide Inv, Start, Accepts, Apply, Enabled;
    RunInv(cfg, now, ws, es, i);
    RaisesExactly(cfg, ws[i], e);
  }

  lemma InvArmed(cfg: Config, w: World)
    requires Inv(cfg, w)
    ensures w.pc == Idle || w.pc == Checkpointing ==> Armed(cfg, w.disk)
    ensures w.disk.pending.Some? ==> w.disk.scheduler.nextActionAt.None?
  {
    hide Ledger, PostsOk, ClientOk, Valid;
  }

  /** Whenever the loop is between turns, an enabled observer has a deadline
      exactly while nothing is pending; a pending action never has one. */
  lemma DeadlineReconciled(cfg: Config, now: int, ws: seq<World>, es: seq<Event>, i: nat)
    requires Execution(cfg, now, ws, es) && i <= |es|
    ensures ws[i].pc == Idle || ws[i].pc == Checkpointing ==> Armed(cfg, ws[i].disk)
    ensures ws[i].disk.pending.Some? ==> ws[i].disk.scheduler.nextActionAt.None?
  {
    hide Inv, Start;
    RunInv(cfg, now, ws, es, i);
    InvArmed(cfg, ws[i]);
  }
}
