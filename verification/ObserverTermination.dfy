/** A bound on the work of a pending action, over any crashes and restarts. */
module ObserverTermination {
  import opened Wrappers
  import opened JsonFields
  import opened ObserverSummary
  import opened ObserverState
  import opened ObserverRun
  import opened ObserverSafety
  import opened ObserverLedger
  import opened ObserverTheorems
  import opened ObserverProgress
  import opened ObserverCheckpoints

  // ----- The poll budget -----------------------------------------------------------------

  /** The search timeout in poll intervals, rounded up. */
  function Budget(cfg: Config): (b: nat)
    requires cfg.timeout > 0
    ensures forall n: nat :: WithinBudget(cfg, n) <==> n <= b
  {
    (cfg.timeout + POLL_INTERVAL - 1) / POLL_INTERVAL
  }

  predicate PollsWithin(c: ClientState, bound: nat) {
    && (c.poll.Some? ==> c.poll.value.attempts <= bound)
    && (c.results.Some? ==> c.results.value.poll.attempts <= bound)
  }

  predicate WithinPolls(p: Option<PendingAction>, bound: nat) {
    p.Some? ==> PollsWithin(p.value.rust, bound) && PollsWithin(p.value.mfc, bound)
  }

  lemma InvPolls(cfg: Config, w: World)
    requires ValidConfig(cfg) && Inv(cfg, w)
    ensures WithinPolls(w.disk.pending, Budget(cfg))
  {
    hide Ledger, PostsOk, ValidCore, PcOk;
  }

  /** Over every run each client of the pending action has recorded at most as
      many poll attempts as the search timeout holds poll intervals, rounded up. */
  lemma PollBudget(cfg: Config, now: int, ws: seq<World>, es: seq<Event>, i: nat)
    requires Execution(cfg, now, ws, es) && i <= |es|
    ensures WithinPolls(ws[i].disk.pending, Budget(cfg))
  {
    hide Inv, Start, Budget;
    RunInv(cfg, now, ws, es, i);
    InvPolls(cfg, ws[i]);
  }

  // ----- The measure -----------------------------------------------------------------------

  function CreateWork(b: nat, c: ClientState): nat {
    if c.create.None? then b + 12
    else match c.create.value
      case Prepared(_) => b + 8
      case Refused(_, _, _) => 0
      case Skipped(_, _) => 0
      case Succeeded(_, _, _) =>
        if c.results.Some? then 0
        else if c.poll.None? then b + 2
        else 1 + (if c.poll.value.attempts <= b then b - c.poll.value.attempts else 0)
  }

  /** What is left of the exchange the process is in the middle of. */
  function ExchangeWork(pc: Pc): nat {
    match pc
    case Sending(_, n) => if n == 0 then 5 else 3
    case Awaiting(_, n) => if n == 0 then 4 else 2
    case Holding(_, _) => 1
    case _ => 0
  }

  /** Drive steps the pending action still needs, at most. */
  function Work(cfg: Config, w: World): nat
    requires cfg.timeout > 0
  {
    if w.disk.pending.None? then 0
    else
      var p := w.disk.pending.value;
      if p.outcome.Some? then
        (if p.evidence.None? then 3 else if p.reportSeq !in w.reports then 2 else 1)
      else 4 + CreateWork(Budget(cfg), p.rust) + CreateWork(Budget(cfg), p.mfc) + ExchangeWork(w.pc)
  }

  /** A step of a drive: anything the process does inside one, but being killed. */
  predicate Drives(w: World, e: Event) {
    !e.Crash? && !LoopEvent(e)
  }

  /** The drive dies of a page it cannot read or of its report: nothing was persisted,
      and after a restart the same is tried again. */
  predicate Stalls(w: World, e: Event) {
    || (e.PollOnce? && Fetches(w.disk.pending, e.at, e.second) && !Readable(e.answer))
    || e.FailReport?
  }

  lemma RecoveryWorks(cfg: Config, w: World, e: Event)
    requires ValidConfig(cfg) && Core(cfg, w) && Enabled(cfg, w, e) && (e.CloseAmbiguous? || e.SkipPeer? || e.Prepare?)
    requires ApplyRecovery(w, e.at).Success? && w.disk.pending.Some?
    ensures Work(cfg, ApplyRecovery(w, e.at).value) < Work(cfg, w)
  {
    hide Valid, ValidCore, ClientOk, Budget;
  }

  lemma ExchangeWorks(cfg: Config, w: World, e: Event)
    requires ValidConfig(cfg) && Core(cfg, w) && Enabled(cfg, w, e) && (e.Send? || e.Receive? || e.RecordCreate?)
    requires ApplyExchange(w, e).Success?
    ensures Work(cfg, ApplyExchange(w, e).value) < Work(cfg, w)
  {
    hide Valid, ValidCore, ClientOk, Budget;
  }

  lemma StartOneWorks(cfg: Config, s: State, c: Client, b: nat)
    requires StartOne(cfg, s, c).Success?
    ensures
      var t := StartOne(cfg, s, c).value;
      && CreateWork(b, t.pending.value.Get(c)) <= CreateWork(b, s.pending.value.Get(c))
      && (AwaitsPoll(s.pending.value.Get(c)) ==>
            CreateWork(b, t.pending.value.Get(c)) < CreateWork(b, s.pending.value.Get(c)))
  {
    hide Valid;
  }

  lemma ServeWorks(cfg: Config, s: State, c: Client, at: int, read: int, answer: GetAnswer)
    requires ValidConfig(cfg) && ServePoll(s, c, at, read, answer).Success?
    requires s.pending.value.Get(c).create.Some? && s.pending.value.Get(c).create.value.Succeeded?
    requires s.pending.value.Get(c).results.None?
    requires PollsWithin(ServePoll(s, c, at, read, answer).value.pending.value.Get(c), Budget(cfg))
    ensures
      var t := ServePoll(s, c, at, read, answer).value;
      CreateWork(Budget(cfg), t.pending.value.Get(c)) < CreateWork(Budget(cfg), s.pending.value.Get(c))
  {
    hide Valid, Budget;
  }

  lemma OkPolls(cfg: Config, s: State, c: Client, now: int)
    requires ValidConfig(cfg) && StateOk(cfg, s, now) && s.pending.Some?
    ensures PollsWithin(s.pending.value.Get(c), Budget(cfg))
    ensures s.pending.value.Get(c).poll.Some? ==>
      && s.pending.value.Get(c).create.Some? && s.pending.value.Get(c).create.value.Succeeded?
      && s.pending.value.Get(c).results.None?
  {
    hide ValidCore;
  }

  lemma PollsWork(cfg: Config, w: World, e: Event)
    requires ValidConfig(cfg) && Core(cfg, w) && Enabled(cfg, w, e) && (e.StartPolls? || e.PollOnce?)
    requires ApplyPolls(cfg, w, e).Success? && Core(cfg, ApplyPolls(cfg, w, e).value.(now := EndOf(e)))
    ensures Work(cfg, ApplyPolls(cfg, w, e).value) < Work(cfg, w)
  {
    hide StateOk, Budget, StartOne, ServePoll, Valid;
    PollsQuiet(cfg, w, e);
    var s, b := w.disk, Budget(cfg);
    var v := ApplyPolls(cfg, w, e).value;
    if e.StartPolls? {
      StartOneShape(cfg, s, Rust);
      StartOneWorks(cfg, s, Rust, b);
      var one := StartOne(cfg, s, Rust).value;
      StartOneShape(cfg, one, Mfc);
      StartOneWorks(cfg, one, Mfc, b);
    } else {
      var served := Served(s.pending.value, e.at, e.second).value;
      var c := served.0;
      OkPolls(cfg, s, c, w.now);
      ServePollShape(s, c, served.1, e.read, e.answer);
      OkPolls(cfg, v.disk, c, EndOf(e));
      ServeWorks(cfg, s, c, served.1, e.read, e.answer);
    }
  }

  lemma ClosingWorks(cfg: Config, w: World, e: Event)
    requires ValidConfig(cfg) && Core(cfg, w) && Enabled(cfg, w, e)
    requires e.CloseCycle? || e.MarkEvidence? || e.StoreReport? || e.Commit?
    requires ApplyClosing(w, e).Success?
    ensures Work(cfg, ApplyClosing(w, e).value) < Work(cfg, w)
  {
    hide Valid, ValidCore, ClientOk, Budget, FoldReport;
  }

  /** A drive step of a pending action strictly decreases its work, even one that
      raises, unless it stalls; no other step, a crash and restart included, ever
      increases it. */
  lemma StepWorks(cfg: Config, w: World, e: Event)
    requires ValidConfig(cfg) && Inv(cfg, w) && Enabled(cfg, w, e) && w.disk.pending.Some?
    ensures Work(cfg, Step(cfg, w, e)) <= Work(cfg, w)
    ensures Drives(w, e) ==> (Work(cfg, Step(cfg, w, e)) < Work(cfg, w) <==> !Stalls(w, e))
  {
    hide ApplyLoop, ApplyProbe, ApplyRecovery, ApplyExchange, ApplyPolls, ApplyClosing, Core, Ledger, PostsOk, Budget;
    hide Fetches, Readable, CreateWork;
    RaisesExactly(cfg, w, e);
    if Apply(cfg, w, e).Success? {
      match e
      case Crash(_) =>
      case Probe(_, _) =>
      case CloseAmbiguous(_) => RecoveryWorks(cfg, w, e);
      case SkipPeer(_) => RecoveryWorks(cfg, w, e);
      case Prepare(_) => RecoveryWorks(cfg, w, e);
      case Send(_) => ExchangeWorks(cfg, w, e);
      case Receive(_, _) => ExchangeWorks(cfg, w, e);
      case RecordCreate(_) => ExchangeWorks(cfg, w, e);
      case StartPolls(_) => PollsInv(cfg, w, e); PollsWork(cfg, w, e);
      case PollOnce(_, _, _, _) => PollsInv(cfg, w, e); PollsWork(cfg, w, e);
      case CloseCycle(_) => ClosingWorks(cfg, w, e);
      case MarkEvidence(_) => ClosingWorks(cfg, w, e);
      case StoreReport(_, _) => ClosingWorks(cfg, w, e);
      case FailReport(_) =>
      case Commit(_, _, _) => ClosingWorks(cfg, w, e);
      case _ => LoopWorks(cfg, w, e);
    } else if e.RecordCreate? || e.Receive? {
      ExchangeIssues(cfg, w);
    }
  }

  /** Loop steps and restarts leave the pending action, and so its work, alone. */
  lemma LoopWorks(cfg: Config, w: World, e: Event)
    requires ValidConfig(cfg) && Enabled(cfg, w, e) && LoopEvent(e) && ApplyLoop(cfg, w, e).Success?
    ensures Work(cfg, ApplyLoop(cfg, w, e).value) <= Work(cfg, w)
  {
    hide ApplyLoop, Budget;
    LoopQuiet(cfg, w, e);
  }

  lemma ExchangeIssues(cfg: Config, w: World)
    requires Core(cfg, w) && (w.pc.Holding? || w.pc.Awaiting?)
    ensures w.disk.pending.Some? && w.disk.pending.value.outcome.None?
  {
    hide StateOk;
  }

  // ----- Whole runs ------------------------------------------------------------------------

  /** Drive steps that do not stall, among the events from `i` up to `j`. */
  function DriveSteps(ws: seq<World>, es: seq<Event>, i: nat, j: nat): nat
    requires i <= j <= |es| && |ws| == |es| + 1
  {
    if i == j then 0
    else
      DriveSteps(ws, es, i, j - 1)
      + (if Drives(ws[j - 1], es[j - 1]) && !Stalls(ws[j - 1], es[j - 1]) then 1 else 0)
  }

  /** Over every run a drive step of a pending action decreases its work exactly when
      it does not stall, and no other event increases it. */
  lemma RunWorks(cfg: Config, now: int, ws: seq<World>, es: seq<Event>, i: nat)
    requires Execution(cfg, now, ws, es) && i < |es| && ws[i].disk.pending.Some?
    ensures Work(cfg, ws[i + 1]) <= Work(cfg, ws[i])
    ensures Drives(ws[i], es[i]) ==> (Work(cfg, ws[i + 1]) < Work(cfg, ws[i]) <==> !Stalls(ws[i], es[i]))
  {
    hide Inv, Step, Enabled, Work, Drives, Stalls, Start;
    RunInv(cfg, now, ws, es, i);
    assert Moves(cfg, ws, es, i);
    StepWorks(cfg, ws[i], es[i]);
  }

  /** Whatever crashes and restarts interrupt it, a pending action takes no more
      drive steps than the work it had, not counting those that stall. */
  lemma {:induction false} DriveStepsBounded(cfg: Config, now: int, ws: seq<World>, es: seq<Event>, i: nat, j: nat)
    requires Execution(cfg, now, ws, es) && i <= j <= |es|
    requires forall k :: i <= k < j ==> ws[k].disk.pending.Some?
    ensures DriveSteps(ws, es, i, j) + Work(cfg, ws[j]) <= Work(cfg, ws[i])
    decreases j
  {
    hide Inv, Step, Enabled, Work, Drives, Stalls, Start;
    if i < j {
      DriveStepsBounded(cfg, now, ws, es, i, j - 1);
      RunWorks(cfg, now, ws, es, j - 1);
    }
  }

  /** The client has an open poll whose deadline, the search timeout after its
      create, lies after the instant. */
  predicate PollsPast(cfg: Config, c: ClientState, at: int) {
    && c.poll.Some? && c.create.Some? && c.create.value.Succeeded?
    && c.poll.value.deadline == c.create.value.completedAt + cfg.timeout
    && at < c.poll.value.deadline
  }

  lemma FetchedPolls(cfg: Config, w: World, at: int, second: int)
    requires Core(cfg, w) && at <= second && Fetches(w.disk.pending, at, second)
    ensures PollsPast(cfg, w.disk.pending.value.rust, at) || PollsPast(cfg, w.disk.pending.value.mfc, at)
  {
    hide ValidCore, PcOk;
  }

  /** A page stalls a drive only before the search timeout of a client with an open
      poll has run out; from then on polls close without a request. */
  lemma PageStallsOnlyBeforeDeadline(cfg: Config, now: int, ws: seq<World>, es: seq<Event>, i: nat)
    requires Execution(cfg, now, ws, es) && i < |es| && es[i].PollOnce? && Stalls(ws[i], es[i])
    ensures ws[i].disk.pending.Some?
    ensures
      var p := ws[i].disk.pending.value;
      PollsPast(cfg, p.rust, es[i].at) || PollsPast(cfg, p.mfc, es[i].at)
  {
    hide Inv, Step, Fetches, PollsPast, Start;
    RunInv(cfg, now, ws, es, i);
    assert Moves(cfg, ws, es, i);
    InvCore(cfg, ws[i]);
    LooksInOrder(cfg, ws[i], es[i]);
    FetchedPolls(cfg, ws[i], es[i].at, es[i].second);
  }

  lemma LooksInOrder(cfg: Config, w: World, e: Event)
    requires Enabled(cfg, w, e) && e.PollOnce?
    ensures e.at <= e.second && w.disk.pending.Some?
  {
  }

  /** The work of any pending action, in particular of one just reserved. */
  lemma WorkBounded(cfg: Config, w: World)
    requires ValidConfig(cfg)
    ensures Work(cfg, w) <= 2 * Budget(cfg) + 33
  {
    hide Budget;
  }

  // ----- A pending action can always be finished ---------------------------------------------

  function SampleFor(campaign: string, p: PendingAction): Report
    requires p.evidence.Some?
  {
    Report(campaign, Num(p.reportSeq), Named(p.actionId), Num(p.cycle), Some(Utc(p.evidence.value)),
           Verbatim(SearchKind), ViaOf(p.via), None, None, Verbatim(NoTraffic), None, None, None, GateRetryable, "")
  }

  function Later(a: int, b: int): int {
    if a <= b then b else a
  }

  /** One step the process can take next. */
  function NextStep(cfg: Config, w: World): Event
    requires w.disk.pending.Some?
  {
    var p, t := w.disk.pending.value, w.now;
    match w.pc
    case Down => Boot(t)
    case Idle => Wake(match Earliest(p) case None => t case Some(at) => Later(t, at))
    case Checkpointing => LoseCheckpoint(t)
    case Driven => Rearm(t)
    case Sending(_, _) => Send(t)
    case Awaiting(_, _) => Receive(t, Answered("1"))
    case Holding(_, _) => RecordCreate(t)
    case Driving =>
      match PhaseOf(w.disk.pending)
      case Reserving => Probe(t, NotReady(""))
      case Recovering(_) => CloseAmbiguous(t)
      case SkippingPeer(_) => SkipPeer(t)
      case Preparing => Prepare(t)
      case Starting => StartPolls(t)
      case Polling => PollOnce(t, t, t, Got(PageRead(0, 0, true)))
      case Closing => CloseCycle(t)
      case Marking => MarkEvidence(t)
      case Finalizing => if p.reportSeq !in w.reports then StoreReport(t, SampleFor(cfg.campaign, p))
        else Commit(t, 0, 0)
  }

  lemma NextStepEnabled(cfg: Config, w: World)
    requires w.disk.pending.Some?
    ensures Enabled(cfg, w, NextStep(cfg, w)) && !NextStep(cfg, w).Crash? && !NextStep(cfg, w).SummarizeCheckpoint?
  {
  }

  /** Loop turns still needed before the next drive step. */
  function Turns(pc: Pc): nat {
    match pc
    case Checkpointing => 3
    case Down => 2
    case Driven => 2
    case Idle => 1
    case _ => 0
  }

  lemma LoopTurns(cfg: Config, w: World)
    requires ValidConfig(cfg) && Core(cfg, w) && Valid(w.disk) && cfg.enabled && w.disk.pending.Some?
    requires LoopEvent(NextStep(cfg, w))
    ensures Turns(Step(cfg, w, NextStep(cfg, w)).pc) < Turns(w.pc)
  {
    hide Valid, ValidCore, ClientOk;
    NextStepEnabled(cfg, w);
    LoopRaises(cfg, w, NextStep(cfg, w));
  }

  lemma NextNeverStalls(cfg: Config, w: World)
    requires w.disk.pending.Some?
    ensures !Stalls(w, NextStep(cfg, w))
  {
  }

  lemma NextStepProgress(cfg: Config, w: World)
    requires ValidConfig(cfg) && Inv(cfg, w) && Valid(w.disk) && cfg.enabled && w.disk.pending.Some?
    ensures
      var v := Step(cfg, w, NextStep(cfg, w));
      && Inv(cfg, v) && Valid(v.disk)
      && (Work(cfg, v) < Work(cfg, w) || (Work(cfg, v) <= Work(cfg, w) && Turns(v.pc) < Turns(w.pc)))
  {
    hide Inv, Valid, Enabled, Work, NextStep, Stalls, Step, ApplyLoop, ApplyProbe, ApplyRecovery, ApplyExchange;
    hide ApplyPolls, ApplyClosing, Turns;
    var e := NextStep(cfg, w);
    NextStepEnabled(cfg, w);
    StepInv(cfg, w, e);
    StepWorks(cfg, w, e);
    NextNeverStalls(cfg, w);
    KeepsValid(cfg, w, e);
    if LoopEvent(e) {
      InvCore(cfg, w);
      LoopTurns(cfg, w);
    }
  }

  lemma KeepsValid(cfg: Config, w: World, e: Event)
    requires ValidConfig(cfg) && Inv(cfg, w) && Enabled(cfg, w, e) && Valid(w.disk) && !e.SummarizeCheckpoint?
    ensures Valid(Step(cfg, w, e).disk)
  {
    hide ApplyLoop, ApplyProbe, ApplyRecovery, ApplyExchange, ApplyPolls, ApplyClosing, Core, Ledger, PostsOk, Valid;
    if LoopEvent(e) && Apply(cfg, w, e).Success? {
      LoopKeepsValid(cfg, w, e);
    } else if Apply(cfg, w, e).Success? {
      DriveKeeps(cfg, w, e);
      hide Apply, Enabled;
      StepInv(cfg, w, e);
      CoreValid(cfg, Step(cfg, w, e));
    }
  }

  lemma LoopKeepsValid(cfg: Config, w: World, e: Event)
    requires Valid(w.disk) && !e.SummarizeCheckpoint? && ApplyLoop(cfg, w, e).Success?
    ensures Valid(ApplyLoop(cfg, w, e).value.disk)
  {
    hide Valid;
  }

  predicate Uninterrupted(es: seq<Event>) {
    forall i :: 0 <= i < |es| ==> !es[i].Crash?
  }

  /** From every world of a run with a valid durable state, a pending action can
      be carried through to its commit without any further crash. */
  lemma {:induction false} ActionCanFinish(cfg: Config, now: int, ws: seq<World>, es: seq<Event>)
    returns (vs: seq<World>, fs: seq<Event>)
    requires Execution(cfg, now, ws, es) && Valid(ws[|es|].disk) && cfg.enabled
    ensures Execution(cfg, now, ws + vs, es + fs) && Uninterrupted(fs)
    ensures (ws + vs)[|es + fs|].disk.pending.None?
    decreases Work(cfg, ws[|es|]), Turns(ws[|es|].pc)
  {
    hide Inv, Valid, Step, Enabled, Work, Turns, NextStep, Start, Moves;
    var w := ws[|es|];
    if w.disk.pending.None? {
      vs, fs := [], [];
      assert ws + vs == ws && es + fs == es;
    } else {
      var e := NextStep(cfg, w);
      RunInv(cfg, now, ws, es, |es|);
      NextStepProgress(cfg, w);
      NextStepEnabled(cfg, w);
      Extend(cfg, now, ws, es, e);
      var v := Step(cfg, w, e);
      vs, fs := ActionCanFinish(cfg, now, ws + [v], es + [e]);
      assert ws + [v] + vs == ws + ([v] + vs) && es + [e] + fs == es + ([e] + fs);
      vs, fs := [v] + vs, [e] + fs;
    }
  }
}
