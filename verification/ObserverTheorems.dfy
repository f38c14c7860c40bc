/** What holds in every run of the observer protocol, crashes included. */
module ObserverTheorems {
  import opened Wrappers
  import opened ObserverSummary
  import opened ObserverState
  import opened ObserverRun
  import opened ObserverSafety
  import opened ObserverLedger

  ghost predicate Inv(cfg: Config, w: World) {
    Core(cfg, w) && PostsOk(w) && Ledger(cfg, w)
  }

  lemma InvCore(cfg: Config, w: World)
    requires Inv(cfg, w)
    ensures Core(cfg, w) && ReportsOk(cfg, w)
  {
    hide Core, ReportsOk;
  }

  // ----- The invariant is inductive ------------------------------------------------

  lemma StartState(cfg: Config, now: int)
    requires ValidConfig(cfg)
    ensures Valid(Start(cfg, now).disk) && StateOk(cfg, Start(cfg, now).disk, now)
  {
    hide NewSummary, ValidCore, ValidRetention;
    NewStateValid(cfg.campaign, cfg.actionLimit, cfg.anomalyLimit, cfg.target);
    NewSummaryZero(cfg.campaign, cfg.actionLimit, cfg.anomalyLimit, cfg.target);
  }

  lemma StartCore(cfg: Config, now: int)
    requires ValidConfig(cfg)
    ensures Core(cfg, Start(cfg, now)) && PostsOk(Start(cfg, now))
  {
    hide NewState, NewSummary, ValidSummary, StateOk, ValidCore, Valid;
    StartState(cfg, now);
  }

  lemma StartLedger(cfg: Config, now: int)
    requires ValidConfig(cfg)
    ensures Ledger(cfg, Start(cfg, now))
  {
    hide NewSummary, SummaryOf;
    var w := Start(cfg, now);
    NewSummaryZero(cfg.campaign, cfg.actionLimit, cfg.anomalyLimit, cfg.target);
    EmptyHistory(cfg.campaign, cfg.actionLimit, cfg.anomalyLimit, cfg.target);
    assert UpTo(0) == [];
    assert ReportsOk(cfg, w) && SlotsOk(w);
    assert History(w.reports, 0) == [];
  }

  lemma StartInv(cfg: Config, now: int)
    requires ValidConfig(cfg)
    ensures Inv(cfg, Start(cfg, now))
  {
    hide Start, Core, PostsOk, Ledger;
    StartCore(cfg, now);
    StartLedger(cfg, now);
  }

  /** A killed process leaves the durable half of the world as it was. */
  lemma DownInv(cfg: Config, w: World, now: int)
    requires Inv(cfg, w) && w.now <= now
    ensures Inv(cfg, w.(pc := Down, now := now))
  {
    hide SummaryOf;
    var v := w.(pc := Down, now := now);
    LaterState(cfg, w.disk, w.now, now);
    hide ValidCore;
    QuietPosts(w, v);
    BooksUnchanged(cfg, w, v);
    RateUnchanged(cfg, w, v);
  }

  lemma LoopInv(cfg: Config, w: World, e: Event)
    requires ValidConfig(cfg) && Inv(cfg, w) && Enabled(cfg, w, e) && ApplyLoop(cfg, w, e).Success?
    ensures Inv(cfg, ApplyLoop(cfg, w, e).value.(now := EndOf(e)))
  {
    LoopCore(cfg, w, e);
    LoopQuiet(cfg, w, e);
    LoopLedger(cfg, w, e);
    hide ApplyLoop, Core, Ledger;
    QuietPosts(w, ApplyLoop(cfg, w, e).value.(now := EndOf(e)));
  }

  lemma ProbeInv(cfg: Config, w: World, e: Event)
    requires ValidConfig(cfg) && Inv(cfg, w) && Enabled(cfg, w, e) && e.Probe?
    requires ApplyProbe(cfg, w, e.at, e.probe).Success?
    ensures Inv(cfg, ApplyProbe(cfg, w, e.at, e.probe).value.(now := EndOf(e)))
  {
    hide ApplyProbe, Core, PostsOk, Ledger;
    ProbeCore(cfg, w, e);
    ProbeQuiet(cfg, w, e);
    ProbeLedger(cfg, w, e);
    QuietPosts(w, ApplyProbe(cfg, w, e.at, e.probe).value.(now := EndOf(e)));
  }

  lemma RecoveryInv(cfg: Config, w: World, e: Event)
    requires ValidConfig(cfg) && Inv(cfg, w) && Enabled(cfg, w, e) && (e.CloseAmbiguous? || e.SkipPeer? || e.Prepare?)
    requires ApplyRecovery(w, e.at).Success?
    ensures Inv(cfg, ApplyRecovery(w, e.at).value.(now := EndOf(e)))
  {
    RecoveryCore(cfg, w, e);
    RecoveryPosts(w, e);
    RecoveryLedger(cfg, w, e);
  }

  lemma ExchangeInv(cfg: Config, w: World, e: Event)
    requires ValidConfig(cfg) && Inv(cfg, w) && Enabled(cfg, w, e) && (e.Send? || e.Receive? || e.RecordCreate?)
    requires ApplyExchange(w, e).Success?
    ensures Inv(cfg, ApplyExchange(w, e).value.(now := EndOf(e)))
  {
    ExchangeLedger(cfg, w, e);
    hide ApplyExchange, Ledger;
    if e.RecordCreate? {
      RecordCreateCore(cfg, w, e);
      RecordCreatePosts(cfg, w, e);
    } else {
      SendCore(cfg, w, e);
      if e.Send? {
        SendPosts(cfg, w, e);
      } else {
        ReceivePosts(cfg, w, e);
      }
    }
    hide Core, PostsOk;
  }

  lemma PollsInv(cfg: Config, w: World, e: Event)
    requires ValidConfig(cfg) && Inv(cfg, w) && Enabled(cfg, w, e) && (e.StartPolls? || e.PollOnce?)
    requires ApplyPolls(cfg, w, e).Success?
    ensures Inv(cfg, ApplyPolls(cfg, w, e).value.(now := EndOf(e)))
  {
    PollsQuiet(cfg, w, e);
    PollsLedger(cfg, w, e);
    hide ApplyPolls, Ledger;
    if e.StartPolls? {
      StartPollsCore(cfg, w, e);
    } else {
      PollOnceCore(cfg, w, e);
    }
    assert w.pc == Driving;
    hide Core;
    QuietPosts(w, ApplyPolls(cfg, w, e).value.(now := EndOf(e)));
  }

  lemma ClosingBooks(cfg: Config, w: World, e: Event)
    requires ValidConfig(cfg) && Inv(cfg, w) && Enabled(cfg, w, e)
    requires e.CloseCycle? || e.MarkEvidence? || e.StoreReport? || e.Commit?
    requires ApplyClosing(w, e).Success?
    ensures
      var v := ApplyClosing(w, e).value.(now := EndOf(e));
      Core(cfg, v) && Ledger(cfg, v)
  {
    hide ApplyClosing, Core, PostsOk, ReportsOk, SlotsOk, SummaryMatches, RateOk, Enabled;
    match e
    case Commit(_, _, _) =>
      CommitCore(cfg, w, e);
      CommitLedger(cfg, w, e);
    case StoreReport(_, _) =>
      ClosingCore(cfg, w, e);
      StoreLedger(cfg, w, e);
    case _ =>
      ClosingCore(cfg, w, e);
      CycleLedger(cfg, w, e);
  }

  lemma ClosingInv(cfg: Config, w: World, e: Event)
    requires ValidConfig(cfg) && Inv(cfg, w) && Enabled(cfg, w, e)
    requires e.CloseCycle? || e.MarkEvidence? || e.StoreReport? || e.Commit?
    requires ApplyClosing(w, e).Success?
    ensures Inv(cfg, ApplyClosing(w, e).value.(now := EndOf(e)))
  {
    hide ApplyClosing, Core, PostsOk, Ledger;
    assert w.pc == Driving;
    ClosingBooks(cfg, w, e);
    ClosingQuiet(w, e);
    QuietPosts(w, ApplyClosing(w, e).value.(now := EndOf(e)));
  }

  /** Every event, raising or not, keeps the invariant. */
  lemma StepInv(cfg: Config, w: World, e: Event)
    requires ValidConfig(cfg) && Inv(cfg, w) && Enabled(cfg, w, e)
    ensures Inv(cfg, Step(cfg, w, e))
  {
    hide ApplyLoop, ApplyProbe, ApplyRecovery, ApplyExchange, ApplyPolls, ApplyClosing, Inv;
    if e.FailReport? {
      ReportFails(w, e.at);
    }
    if Apply(cfg, w, e).Failure? || e.Crash? {
      DownInv(cfg, w, EndOf(e));
    } else {
      match e
      case Crash(_) =>
      case Probe(_, _) => ProbeInv(cfg, w, e);
      case CloseAmbiguous(_) => RecoveryInv(cfg, w, e);
      case SkipPeer(_) => RecoveryInv(cfg, w, e);
      case Prepare(_) => RecoveryInv(cfg, w, e);
      case Send(_) => ExchangeInv(cfg, w, e);
      case Receive(_, _) => ExchangeInv(cfg, w, e);
      case RecordCreate(_) => ExchangeInv(cfg, w, e);
      case StartPolls(_) => PollsInv(cfg, w, e);
      case PollOnce(_, _, _, _) => PollsInv(cfg, w, e);
      case CloseCycle(_) => ClosingInv(cfg, w, e);
      case MarkEvidence(_) => ClosingInv(cfg, w, e);
      case StoreReport(_, _) => ClosingInv(cfg, w, e);
      case FailReport(_) =>
      case Commit(_, _, _) => ClosingInv(cfg, w, e);
      case _ => LoopInv(cfg, w, e);
    }
  }

  /** The invariant holds in every world of every run. */
  lemma {:induction false} RunInv(cfg: Config, now: int, ws: seq<World>, es: seq<Event>, i: nat)
    requires Execution(cfg, now, ws, es) && i <= |es|
    ensures Inv(cfg, ws[i])
  {
    hide Inv, Start, Step, Enabled;
    if i == 0 {
      StartInv(cfg, now);
    } else {
      RunInv(cfg, now, ws, es, i - 1);
      assert Moves(cfg, ws, es, i - 1);
      StepInv(cfg, ws[i - 1], es[i - 1]);
    }
  }

  lemma Extend(cfg: Config, now: int, ws: seq<World>, es: seq<Event>, e: Event)
    requires Execution(cfg, now, ws, es) && Enabled(cfg, ws[|es|], e)
    ensures Execution(cfg, now, ws + [Step(cfg, ws[|es|], e)], es + [e])
  {
    hide Step, Enabled, Start;
    var vs, fs := ws + [Step(cfg, ws[|es|], e)], es + [e];
    forall i | 0 <= i < |fs|
      ensures Moves(cfg, vs, fs, i)
    {
      if i < |es| {
        assert Moves(cfg, ws, es, i);
      }
    }
  }

  // ----- At most one create request, and no replay ----------------------------------

  ghost predicate PostsOnce(log: seq<Effect>) {
    && (forall i, j :: 0 <= i < j < |log| && log[i].Post? ==> log[i] != log[j])
    && (forall i :: 0 <= i < |log| && log[i].Post? && log[i].attempt != 0 ==>
          log[i].attempt == 1 && PostFailed(log[i].cycle, log[i].client) in log[..i])
  }

  lemma InvInStep(cfg: Config, w: World)
    requires Inv(cfg, w)
    ensures PostsOnce(w.log)
    ensures w.disk.pending.Some? ==> CreatesInStep(w.disk.pending.value)
  {
    hide ValidCore, Valid, Ledger, ClientOk;
  }

  /** Over every run each create request is sent at most once, restarts included, a
      second attempt only after the first got no answer (`SecondRequestExactly` says
      when), and the creates of the two clients are never out of step. */
  lemma AtMostOneCreate(cfg: Config, now: int, ws: seq<World>, es: seq<Event>, i: nat)
    requires Execution(cfg, now, ws, es) && i <= |es|
    ensures PostsOnce(ws[i].log)
    ensures ws[i].disk.pending.Some? ==> CreatesInStep(ws[i].disk.pending.value)
    ensures !PhaseOf(ws[i].disk.pending).SkippingPeer?
  {
    hide Inv, PostsOnce, Start;
    RunInv(cfg, now, ws, es, i);
    InvInStep(cfg, ws[i]);
  }

  /** Nothing more will be sent for this cycle: it is over, or its creates were
      begun and the process is not in the middle of sending them. */
  predicate CreatesOver(w: World, cycle: nat) {
    && cycle < w.disk.scheduler.nextCycle
    && (w.disk.pending.Some? && w.disk.pending.value.cycle == cycle ==>
          w.disk.pending.value.rust.create.Some? && !w.pc.Sending? && !w.pc.Awaiting? && !w.pc.Holding?)
  }

  predicate SentNothing(w: World, v: World, cycle: nat) {
    && w.log <= v.log
    && forall i :: |w.log| <= i < |v.log| && v.log[i].Post? ==> v.log[i].cycle != cycle
  }

  lemma CreatesStayOver(cfg: Config, w: World, e: Event, cycle: nat)
    requires ValidConfig(cfg) && Inv(cfg, w) && Enabled(cfg, w, e) && CreatesOver(w, cycle)
    ensures CreatesOver(Step(cfg, w, e), cycle) && SentNothing(w, Step(cfg, w, e), cycle)
  {
    hide ApplyLoop, ApplyProbe, ApplyRecovery, ApplyExchange, ApplyPolls, ApplyClosing, Core, Ledger, PostsOk;
    if e.FailReport? {
      ReportFails(w, e.at);
    }
    if Apply(cfg, w, e).Success? && !e.Crash? {
      match e
      case Crash(_) =>
      case Probe(_, _) => ProbeQuiet(cfg, w, e);
      case CloseAmbiguous(_) => RecoveryShape(w, e.at); RecoveryMoves(w, e.at);
      case SkipPeer(_) => RecoveryShape(w, e.at); RecoveryMoves(w, e.at);
      case Prepare(_) => RecoveryShape(w, e.at); RecoveryMoves(w, e.at);
      case Send(_) => ExchangeShape(w, e); ExchangeMoves(w, e);
      case Receive(_, _) => ExchangeShape(w, e); ExchangeMoves(w, e);
      case RecordCreate(_) => ExchangeShape(w, e); ExchangeMoves(w, e);
      case StartPolls(_) => PollsQuiet(cfg, w, e);
      case PollOnce(_, _, _, _) => PollsQuiet(cfg, w, e);
      case CloseCycle(_) => ClosingQuiet(w, e);
      case MarkEvidence(_) => ClosingQuiet(w, e);
      case StoreReport(_, _) => ClosingQuiet(w, e);
      case FailReport(_) =>
      case Commit(_, _, _) => ClosingQuiet(w, e);
      case _ => LoopQuiet(cfg, w, e);
    }
  }

  lemma RecoveryMoves(w: World, at: int)
    requires ApplyRecovery(w, at).Success?
    ensures
      var v := ApplyRecovery(w, at).value;
      && v.disk.pending.value.cycle == w.disk.pending.value.cycle
      && (w.disk.pending.value.rust.create.Some? ==> v.disk.pending.value.rust.create.Some? && v.pc == w.pc)
  {
    hide Valid;
  }

  lemma ExchangeMoves(w: World, e: Event)
    requires ApplyExchange(w, e).Success?
    ensures
      var v := ApplyExchange(w, e).value;
      && v.disk.pending.value.cycle == w.disk.pending.value.cycle
      && (|v.log| > |w.log| && v.log[|w.log|].Post? ==> v.log[|w.log|].cycle == w.disk.pending.value.cycle)
      && (w.pc.Sending? || w.pc.Awaiting? || w.pc.Holding?)
  {
    hide Valid;
  }

  /** Once a cycle's creates are over, because it ended or because a process died
      after they were prepared, nothing later in the run sends anything more for it. */
  lemma {:induction false} NeverReplayed(
      cfg: Config, now: int, ws: seq<World>, es: seq<Event>, i: nat, j: nat, cycle: nat)
    requires Execution(cfg, now, ws, es) && i <= j <= |es| && CreatesOver(ws[i], cycle)
    ensures CreatesOver(ws[j], cycle) && SentNothing(ws[i], ws[j], cycle)
    decreases j
  {
    hide Inv, Step, CreatesOver, Enabled, Start;
    if i < j {
      NeverReplayed(cfg, now, ws, es, i, j - 1, cycle);
      RunInv(cfg, now, ws, es, j - 1);
      assert Moves(cfg, ws, es, j - 1);
      CreatesStayOver(cfg, ws[j - 1], es[j - 1], cycle);
    }
  }

  function FirstPrepared(p: PendingAction): Client {
    if IsPrepared(p.rust) then Rust else Mfc
  }

  predicate SomePrepared(p: Option<PendingAction>) {
    p.Some? && (IsPrepared(p.value.rust) || IsPrepared(p.value.mfc))
  }

  lemma PreparedPhase(cfg: Config, w: World)
    requires Inv(cfg, w) && w.pc == Driving && SomePrepared(w.disk.pending)
    ensures Valid(w.disk) && PhaseOf(w.disk.pending) == Recovering(FirstPrepared(w.disk.pending.value))
  {
    hide Valid, ValidCore, Ledger, PostsOk, ClientOk;
  }

  function ClosedAsAmbiguous(p: PendingAction, c: Client, at: int): PendingAction
    requires IsPrepared(p.Get(c))
  {
    p.Set(c, p.Get(c).(create := Some(Refused(p.Get(c).create.value.preparedAt, at, Ambiguous(c)))))
  }

  /** The world after the first prepared create was closed: nothing else changes. */
  function AfterClosing(w: World, at: int): World
    requires SomePrepared(w.disk.pending)
  {
    var p := w.disk.pending.value;
    w.(now := at, disk := w.disk.(pending := Some(ClosedAsAmbiguous(p, FirstPrepared(p), at))))
  }

  lemma CloseResult(w: World, at: int)
    requires Valid(w.disk) && SomePrepared(w.disk.pending)
    requires PhaseOf(w.disk.pending) == Recovering(FirstPrepared(w.disk.pending.value))
    ensures ApplyRecovery(w, at).Success? && ApplyRecovery(w, at).value.(now := at) == AfterClosing(w, at)
  {
    hide Valid;
    var c := FirstPrepared(w.disk.pending.value);
    CompleteExact(w.disk, c, at, CreateError(Ambiguous(c)));
  }

  lemma OnlyClosing(cfg: Config, w: World, e: Event)
    requires Enabled(cfg, w, e) && w.pc == Driving && !e.Crash? && PhaseOf(w.disk.pending).Recovering?
    ensures e == CloseAmbiguous(e.at)
  {
    hide PhaseOf, ReportFor;
  }

  lemma CloseStep(cfg: Config, w: World, at: int)
    requires ApplyRecovery(w, at).Success?
    ensures Step(cfg, w, CloseAmbiguous(at)) == ApplyRecovery(w, at).value.(now := at)
  {
    hide ApplyRecovery;
  }

  lemma PreparedCloses(cfg: Config, w: World, e: Event)
    requires ValidConfig(cfg) && Inv(cfg, w) && Enabled(cfg, w, e) && w.pc == Driving && !e.Crash?
    requires SomePrepared(w.disk.pending)
    ensures e == CloseAmbiguous(e.at) && Step(cfg, w, e) == AfterClosing(w, e.at)
  {
    hide Inv, Valid, Step, Enabled, ApplyRecovery, PhaseOf, AfterClosing, SomePrepared, FirstPrepared;
    PreparedPhase(cfg, w);
    OnlyClosing(cfg, w, e);
    CloseResult(w, e.at);
    CloseStep(cfg, w, e.at);
  }

  /** A create found prepared is closed as ambiguous, and nothing else can be
      done with it: of the drive's own steps only that one is possible. */
  lemma PreparedIsClosed(cfg: Config, now: int, ws: seq<World>, es: seq<Event>, i: nat)
    requires Execution(cfg, now, ws, es) && i < |es|
    requires ws[i].pc == Driving && SomePrepared(ws[i].disk.pending) && !es[i].Crash?
    ensures es[i] == CloseAmbiguous(es[i].at) && ws[i + 1] == AfterClosing(ws[i], es[i].at)
  {
    hide Inv, Step, Enabled, SomePrepared, AfterClosing, Start;
    RunInv(cfg, now, ws, es, i);
    assert Moves(cfg, ws, es, i);
    PreparedCloses(cfg, ws[i], es[i]);
  }

  // ----- When the second request of a phase is sent ---------------------------------

  /** The first request for this cycle and client failed and the second is about to go out. */
  predicate Retrying(w: World, cycle: nat, c: Client) {
    w.pc == Sending(c, 1) && w.disk.pending.Some? && w.disk.pending.value.cycle == cycle
  }

  /** The process was killed between the failed first request and the second. */
  ghost predicate KilledRetrying(ws: seq<World>, es: seq<Event>, n: nat, cycle: nat, c: Client)
    requires n <= |es| && |ws| == |es| + 1
  {
    exists k :: 0 <= k < n && es[k].Crash? && Retrying(ws[k], cycle, c)
  }

  lemma RetrySends(cfg: Config, w: World, e: Event)
    requires Inv(cfg, w) && Enabled(cfg, w, e) && w.pc.Sending? && !e.Crash?
    ensures e.Send? && w.disk.pending.Some?
    ensures Step(cfg, w, e)
            == w.(pc := Awaiting(w.pc.client, w.pc.attempt), now := e.at,
                  log := w.log + [Post(w.disk.pending.value.cycle, w.pc.client, w.pc.attempt)])
  {
    hide StateOk, Ledger, PostsOk, Valid;
  }

  /** After a failed first request every event but a crash sends the second. */
  lemma RetryIsSent(cfg: Config, now: int, ws: seq<World>, es: seq<Event>, i: nat, cycle: nat, c: Client)
    requires Execution(cfg, now, ws, es) && i < |es| && Retrying(ws[i], cycle, c) && !es[i].Crash?
    ensures ws[i + 1].log == ws[i].log + [Post(cycle, c, 1)]
  {
    hide Inv, Step, Enabled, Start;
    RunInv(cfg, now, ws, es, i);
    assert Moves(cfg, ws, es, i);
    RetrySends(cfg, ws[i], es[i]);
  }

  lemma ClosingLog(w: World, e: Event)
    requires ApplyClosing(w, e).Success?
    ensures
      var v := ApplyClosing(w, e).value;
      && w.log <= v.log && |v.log| <= |w.log| + 1
      && (|v.log| > |w.log| ==> v.log[|w.log|].Stored? || v.log[|w.log|].Committed?)
  {
    hide Valid, CommitActionReport;
  }

  lemma ReceiveLog(w: World, e: Event)
    requires e.Receive? && ApplyExchange(w, e).Success?
    ensures
      var v := ApplyExchange(w, e).value;
      if w.pc.attempt == 0 && e.reply.NoAnswer? then
        && v.log == w.log + [PostFailed(w.disk.pending.value.cycle, w.pc.client)]
        && v.pc == Sending(w.pc.client, 1) && v.disk == w.disk
      else v.log == w.log && !v.pc.Sending?
    ensures w.pc.Awaiting? && w.disk.pending.Some?
  {
  }

  lemma RecordLog(w: World, e: Event)
    requires e.RecordCreate? && ApplyExchange(w, e).Success?
    ensures ApplyExchange(w, e).value.log == w.log
    ensures ApplyExchange(w, e).value.pc.Sending? ==> ApplyExchange(w, e).value.pc.attempt == 0
  {
    hide CompleteSearchCreate;
  }

  /** Neither a create request nor a failed one was added, and no retry begun. */
  predicate NoExchange(w: World, v: World) {
    && w.log <= v.log && |v.log| <= |w.log| + 1
    && (|v.log| > |w.log| ==> !v.log[|w.log|].Post? && !v.log[|w.log|].PostFailed?)
    && (v.pc.Sending? ==> v.pc.attempt == 0)
  }

  lemma OthersExchangeNothing(cfg: Config, w: World, e: Event)
    requires ValidConfig(cfg) && Inv(cfg, w) && Enabled(cfg, w, e) && !e.Send? && !e.Receive?
    ensures NoExchange(w, Step(cfg, w, e))
  {
    hide ApplyLoop, ApplyProbe, ApplyRecovery, ApplyExchange, ApplyPolls, ApplyClosing, Core, Ledger, PostsOk;
    if e.FailReport? {
      ReportFails(w, e.at);
    }
    if Apply(cfg, w, e).Success? && !e.Crash? {
      match e
      case Crash(_) =>
      case Probe(_, _) => ProbeShape(cfg, w, e.at, e.probe); ProbeQuiet(cfg, w, e);
      case CloseAmbiguous(_) => RecoveryShape(w, e.at); RecoveryStarts(w, e.at);
      case SkipPeer(_) => RecoveryShape(w, e.at); RecoveryStarts(w, e.at);
      case Prepare(_) => RecoveryShape(w, e.at); RecoveryStarts(w, e.at);
      case RecordCreate(_) => RecordLog(w, e);
      case StartPolls(_) => PollsQuiet(cfg, w, e);
      case PollOnce(_, _, _, _) => PollsQuiet(cfg, w, e);
      case CloseCycle(_) => ClosingQuiet(w, e); ClosingLog(w, e);
      case MarkEvidence(_) => ClosingQuiet(w, e); ClosingLog(w, e);
      case StoreReport(_, _) => ClosingQuiet(w, e); ClosingLog(w, e);
      case FailReport(_) =>
      case Commit(_, _, _) => ClosingQuiet(w, e); ClosingLog(w, e);
      case _ => LoopQuiet(cfg, w, e);
    }
  }

  lemma RecoveryStarts(w: World, at: int)
    requires ApplyRecovery(w, at).Success? && w.pc == Driving
    ensures var v := ApplyRecovery(w, at).value; v.pc == Driving || v.pc == Sending(Rust, 0)
  {
    hide Valid;
  }

  /** What the log, the process and its deaths say about one second request: once the
      first request failed, exactly one of the three is so. */
  ghost predicate RetryFate(w: World, killed: bool, cycle: nat, c: Client) {
    var sent, retrying := Post(cycle, c, 1) in w.log, Retrying(w, cycle, c);
    && (PostFailed(cycle, c) in w.log <==> sent || retrying || killed)
    && !(sent && retrying) && !(sent && killed) && !(retrying && killed)
    && (killed ==> CreatesOver(w, cycle))
  }

  /** A crash in the middle of a retry ends the creates of its cycle. */
  lemma DeathEndsCreates(cfg: Config, w: World, cycle: nat, c: Client, at: int)
    requires Inv(cfg, w) && Retrying(w, cycle, c)
    ensures CreatesOver(w.(pc := Down, now := at), cycle)
  {
    hide Ledger, PostsOk, ClientOk, ValidClient;
  }

  lemma RetryAlone(cfg: Config, w: World, cycle: nat, c: Client)
    requires Inv(cfg, w)
    ensures Retrying(w, cycle, c) ==> Post(cycle, c, 1) !in w.log
    ensures w.pc == Awaiting(c, 0) && w.disk.pending.Some? && w.disk.pending.value.cycle == cycle ==>
      Post(cycle, c, 1) !in w.log
  {
    hide Core, Ledger;
  }

  lemma FateStep(cfg: Config, w: World, e: Event, killed: bool, cycle: nat, c: Client)
    requires ValidConfig(cfg) && Inv(cfg, w) && Enabled(cfg, w, e) && RetryFate(w, killed, cycle, c)
    requires Inv(cfg, Step(cfg, w, e))
    ensures RetryFate(Step(cfg, w, e), killed || (e.Crash? && Retrying(w, cycle, c)), cycle, c)
  {
    hide Inv, Apply, Enabled, CreatesOver;
    var v := Step(cfg, w, e);
    RetryAlone(cfg, w, cycle, c);
    RetryAlone(cfg, v, cycle, c);
    if killed {
      CreatesStayOver(cfg, w, e, cycle);
    }
    if e.Crash? {
      CrashStep(cfg, w, e);
      if Retrying(w, cycle, c) {
        DeathEndsCreates(cfg, w, cycle, c, e.at);
      }
    } else if e.Send? {
      SendPc(cfg, w, e);
      RetrySends(cfg, w, e);
    } else if e.Receive? {
      ReceiveFate(cfg, w, e, killed, cycle, c);
    } else {
      OthersExchangeNothing(cfg, w, e);
      NotSending(cfg, w, e);
    }
  }

  lemma CrashStep(cfg: Config, w: World, e: Event)
    requires e.Crash?
    ensures Step(cfg, w, e) == w.(pc := Down, now := e.at)
  {
  }

  lemma SendPc(cfg: Config, w: World, e: Event)
    requires Enabled(cfg, w, e) && e.Send?
    ensures w.pc.Sending?
  {
  }

  lemma NotSending(cfg: Config, w: World, e: Event)
    requires Enabled(cfg, w, e) && !e.Crash? && !e.Send?
    ensures !w.pc.Sending?
  {
    hide PhaseOf, ReportFor, Valid;
  }

  lemma ReceiveFate(cfg: Config, w: World, e: Event, killed: bool, cycle: nat, c: Client)
    requires Inv(cfg, w) && Enabled(cfg, w, e) && e.Receive? && RetryFate(w, killed, cycle, c)
    requires killed ==> CreatesOver(Step(cfg, w, e), cycle)
    requires Retrying(Step(cfg, w, e), cycle, c) ==> Post(cycle, c, 1) !in Step(cfg, w, e).log
    ensures RetryFate(Step(cfg, w, e), killed, cycle, c)
  {
    hide Inv, ApplyExchange;
    NotSending(cfg, w, e);
    RetryAlone(cfg, w, cycle, c);
    if ApplyExchange(w, e).Success? {
      ReceiveLog(w, e);
    }
  }

  lemma {:induction false} FateOfRetry(
      cfg: Config, now: int, ws: seq<World>, es: seq<Event>, i: nat, cycle: nat, c: Client)
    requires Execution(cfg, now, ws, es) && i <= |es|
    ensures RetryFate(ws[i], KilledRetrying(ws, es, i, cycle, c), cycle, c)
  {
    hide Inv, Step, Enabled, RetryFate, Retrying;
    if i == 0 {
      FreshFate(cfg, now, cycle, c);
    } else {
      FateOfRetry(cfg, now, ws, es, i - 1, cycle, c);
      RunInv(cfg, now, ws, es, i - 1);
      RunInv(cfg, now, ws, es, i);
      assert Moves(cfg, ws, es, i - 1);
      FateStep(cfg, ws[i - 1], es[i - 1], KilledRetrying(ws, es, i - 1, cycle, c), cycle, c);
    }
  }

  lemma FreshFate(cfg: Config, now: int, cycle: nat, c: Client)
    ensures RetryFate(Start(cfg, now), false, cycle, c)
  {
    hide NewState;
  }

  /** Over every run the second request of a create phase was sent if and only if
      the first one failed, the retry is not just about to go out, and the process
      was not killed before sending it. */
  lemma SecondRequestExactly(cfg: Config, now: int, ws: seq<World>, es: seq<Event>, i: nat, cycle: nat, c: Client)
    requires Execution(cfg, now, ws, es) && i <= |es|
    ensures Post(cycle, c, 1) in ws[i].log <==>
      && PostFailed(cycle, c) in ws[i].log
      && !Retrying(ws[i], cycle, c)
      && !KilledRetrying(ws, es, i, cycle, c)
  {
    hide Execution, Retrying, KilledRetrying, CreatesOver;
    FateOfRetry(cfg, now, ws, es, i, cycle, c);
  }
}
