/**
 The protocol in plain terms: what each event leaves behind, field by field, with
 none of the copying, guarding and validating of the durable transitions. Every
 step of every run is the plain one.
 */
module ObserverProtocol {
  import opened Wrappers
  import opened Blanks
  import opened Division
  import opened ObserverSummary
  import opened ObserverState
  import opened ObserverSchedule
  import opened ObserverRun
  import opened ObserverSafety
  import opened ObserverLedger
  import opened ObserverTheorems
  import opened ObserverProgress
  import opened ObserverCheckpoints

  // ----- The loop ------------------------------------------------------------------------

  predicate PollDue(c: ClientState, at: int) {
    c.poll.Some? && c.poll.value.nextAttempt <= at
  }

  /** An enabled observer drives when the deadline has passed, or when a pending
      action has a poll that is due, or has no open poll at all. */
  predicate DriveDue(cfg: Config, s: State, at: int) {
    && cfg.enabled
    && match s.pending
       case None => s.scheduler.nextActionAt.Some? && s.scheduler.nextActionAt.value <= at
       case Some(p) => (p.rust.poll.None? && p.mfc.poll.None?) || PollDue(p.rust, at) || PollDue(p.mfc, at)
  }

  /** The deadline of an observer that has just started, or has just driven. */
  function Deadline(cfg: Config, s: State, at: int, started: bool): Option<int> {
    if !cfg.enabled || s.pending.Some? then None
    else if started && s.scheduler.nextActionAt.Some? then s.scheduler.nextActionAt
    else Some(at + (if started && s.driver.cycles == 0 then cfg.startDelay else cfg.interval))
  }

  function WithDeadline(s: State, at: Option<int>): State {
    s.(scheduler := Scheduler(s.scheduler.nextCycle, s.scheduler.nextSlot, at))
  }

  /** One more checkpoint counted, with its time in both places that keep it. */
  function WithCheckpoint(s: State, stamp: int, files: nat, bytes: nat): State {
    var n, now := s.checkpoints.count + 1, Some(Utc(stamp));
    var first, seen := s.checkpoints.first, s.summary.observed.first;
    s.(
      checkpoints := Checkpoints(n, if first.Some? then first else now, now),
      summary := s.summary.(observed := Observed(if seen.Some? then seen else now, now)),
      checkpointRetention := Retention(n, files, if files <= n then n - files else 0, bytes))
  }

  // ----- Reserving -----------------------------------------------------------------------

  /** The term and the method of a slot: both methods in turn, each with every term,
      unless a pending gate lacks exactly one of them. */
  function Asked(terms: seq<string>, slot: nat, g: Gate): (string, SearchMethod)
    requires terms != [] && slot > 0
  {
    var server, kad := g.successful.server < g.targets.server, g.successful.kad < g.targets.kad;
    if g.status == Pending && server != kad then
      (terms[(slot - 1) % |terms|], if server then OnServer else OnKad)
    else (terms[(slot - 1) / 2 % |terms|], if (slot - 1) % 2 == 0 then OnServer else OnKad)
  }

  predicate Usable(r: Run) {
    r.processId > 0 && exists i :: 0 <= i < |r.runId| && !IsSpace(r.runId[i])
  }

  const UNTOUCHED := ClientState(None, None, None)

  function Probed(cfg: Config, w: World, at: int, probe: ProbeResult): World
    requires cfg.terms != [] && w.disk.scheduler.nextSlot > 0 && !probe.ProbeEscapes?
  {
    var s, slot, cycle := w.disk, w.disk.scheduler.nextSlot, w.disk.scheduler.nextCycle;
    if probe.Ready? && Usable(probe.rustRun) && Usable(probe.mfcRun) then
      var (query, via) := Asked(cfg.terms, slot, s.summary.gate);
      var action := PendingAction(
        ActionId(cfg.campaign, cycle), cycle, cycle, slot - 1, query, via, at, probe.rustRun, probe.mfcRun,
        UNTOUCHED, UNTOUCHED, None, None);
      w.(disk := s.(pending := Some(action), scheduler := Scheduler(cycle + 1, slot + 1, None)),
         log := w.log + [Reserved(slot, cycle, at, query, via)])
    else
      var phase := if probe.Ready? then "diagnostic_run_identity" else probe.phase;
      w.(disk := s.(scheduler := Scheduler(cycle, slot + 1, s.scheduler.nextActionAt),
                    driver := Driver(s.driver.cycles, s.driver.cycleErrors, s.driver.downloads, s.driver.skips + 1,
                                     s.driver.latestCycle, Some(Skip(at, phase, slot)))),
         log := w.log + [SlotSkipped(slot)], pc := Driven)
  }

  // ----- Creating ------------------------------------------------------------------------

  /** The pending action with one client's create outcome recorded. */
  function Recorded(p: PendingAction, c: Client, create: Create): PendingAction {
    match c
    case Rust => p.(rust := ClientState(Some(create), p.rust.poll, p.rust.results))
    case Mfc => p.(mfc := ClientState(Some(create), p.mfc.poll, p.mfc.results))
  }

  function PreparedAt(p: PendingAction, c: Client): int {
    var create := if c == Rust then p.rust.create else p.mfc.create;
    if create.Some? && create.value.Prepared? then create.value.preparedAt else 0
  }

  function WithPending(w: World, p: PendingAction): World {
    w.(disk := w.disk.(pending := Some(p)))
  }

  /** A first request without an answer is sent again; anything else is an outcome,
      an empty identifier or a second failure being an error. */
  function AfterAnswer(w: World, p: PendingAction, reply: Reply): World
    requires w.pc.Awaiting?
  {
    var c := w.pc.client;
    if reply.NoAnswer? && w.pc.attempt == 0 then
      w.(pc := Sending(c, 1), log := w.log + [PostFailed(p.cycle, c)])
    else if reply.Answered? && reply.id != "" then w.(pc := Holding(c, Created(reply.id)))
    else w.(pc := Holding(c, CreateError(Error(c, "search-create", "RuntimeError"))))
  }

  function AfterCreate(w: World, p: PendingAction, at: int): World
    requires w.pc.Holding?
  {
    var c := w.pc.client;
    var create := match w.pc.outcome
      case Created(id) => Succeeded(PreparedAt(p, c), at, id)
      case CreateError(e) => Refused(PreparedAt(p, c), at, e);
    WithPending(w, Recorded(p, c, create)).(pc := if c == Rust then Sending(Mfc, 0) else Driving)
  }

  // ----- Polling -------------------------------------------------------------------------

  /** A client with a search identifier gets a poll that is due at once. */
  function Opened(cfg: Config, c: ClientState): ClientState {
    if c.create.Some? && c.create.value.Succeeded? && c.poll.None? && c.results.None? then
      var t := c.create.value.completedAt;
      ClientState(c.create, Some(Poll(t, t + cfg.timeout, t, 0, 0, None, None, None, None, None)), None)
    else c
  }

  /** The client after one answer: a page leaves its own two counts, an error leaves
      the counts there were. The poll ends with a complete page or at its deadline,
      else it is due again in two seconds, at the deadline at the latest. */
  function AfterPage(c: ClientState, read: int, page: Page): ClientState
    requires c.poll.Some?
  {
    var p, failed := c.poll.value, page.PageError?;
    var returned := if failed then p.lastReturned else Some(page.returned);
    var total := if failed then p.lastTotal else Some(page.total);
    var failure := if failed then Some(page.error) else None;
    var errors := if failed then p.errors + 1 else p.errors;
    var latest := if failed then failure else p.latestError;
    if read >= p.deadline || (!failed && page.completed) then
      var how := if read < p.deadline then ByCompletion else ByDeadline;
      var closed := ClosedPoll(p.startedAt, p.deadline, p.attempts + 1, errors, Some(read), latest, how);
      ClientState(c.create, None, Some(Results(read, read < p.deadline, returned, total, failure, closed)))
    else
      var next := if read + 2_000_000 <= p.deadline then read + 2_000_000 else p.deadline;
      ClientState(c.create, Some(Poll(p.startedAt, p.deadline, next, p.attempts + 1, errors, Some(read),
                                      returned, total, failure, latest)), c.results)
  }

  /** The client whose poll ran out: the counts and the errors are those of the pages
      read before, and a poll that never read one reports the elapsed deadline. */
  function Expired(c: ClientState, client: Client, at: int): ClientState
    requires c.poll.Some?
  {
    var p := c.poll.value;
    var failure := if p.lastTotal.None? && p.lastAttemptError.None?
      then Some(Error(client, "search-results", "SearchResultsDeadlineElapsed")) else p.lastAttemptError;
    var closed := ClosedPoll(p.startedAt, p.deadline, p.attempts, p.errors, p.latestAttempt, p.latestError, ByExpiry);
    ClientState(c.create, None, Some(Results(at, false, p.lastReturned, p.lastTotal, failure, closed)))
  }

  /** The client whose poll one turn serves, looking at the first client first. */
  predicate Serves(p: PendingAction, c: Client, e: Event)
    requires e.PollOnce?
  {
    match c
    case Rust => PollDue(p.rust, e.at)
    case Mfc => !PollDue(p.rust, e.at) && PollDue(p.mfc, e.second)
  }

  /** When it looked. */
  function LookedAt(c: Client, e: Event): int
    requires e.PollOnce?
  {
    if c == Rust then e.at else e.second
  }

  /** The turn requests a page for this client and gets one, or a handled error. */
  predicate ReadsPage(p: PendingAction, c: Client, e: Event) {
    && e.PollOnce? && Serves(p, c, e) && e.answer.Got?
    && LookedAt(c, e) < (if c == Rust then p.rust.poll.value.deadline else p.mfc.poll.value.deadline)
  }

  function ServedClient(p: PendingAction, c: Client, e: Event): ClientState
    requires e.PollOnce? && Serves(p, c, e)
  {
    var client := if c == Rust then p.rust else p.mfc;
    if ReadsPage(p, c, e) then AfterPage(client, e.read, e.answer.page) else Expired(client, c, LookedAt(c, e))
  }

  function AfterPoll(p: PendingAction, e: Event): PendingAction
    requires e.PollOnce?
  {
    if Serves(p, Rust, e) then p.(rust := ServedClient(p, Rust, e))
    else if Serves(p, Mfc, e) then p.(mfc := ServedClient(p, Mfc, e))
    else p
  }

  // ----- Closing -------------------------------------------------------------------------

  /** Nothing more happens to this client: its create failed, or its results are in. */
  predicate Over(c: ClientState) {
    c.create.Some? && !c.create.value.Prepared? && (c.create.value.Succeeded? ==> c.results.Some?)
  }

  predicate Fine(c: ClientState) {
    c.create.Some? && c.create.value.Succeeded? && c.results.Some? && c.results.value.error.None?
  }

  /** The one error of a client that is not fine: of its create, or of its results. */
  function Reported(c: ClientState): seq<Error> {
    if c.create.Some? && (c.create.value.Refused? || c.create.value.Skipped?) then [c.create.value.error]
    else if c.results.Some? && c.results.value.error.Some? then [c.results.value.error.value]
    else []
  }

  /** The driver cycle of a pending action both of whose clients are over. */
  function CycleOf(p: PendingAction, at: int): Cycle {
    Cycle(p.cycle, p.actionId, Fine(p.rust) && Fine(p.mfc), Reported(p.rust) + Reported(p.mfc), false, at)
  }

  function AfterClose(w: World, p: PendingAction, at: int): World {
    var d, cycle := w.disk.driver, CycleOf(p, at);
    var driver := Driver(d.cycles + 1, if cycle.ok then d.cycleErrors else d.cycleErrors + 1, d.downloads, d.skips,
      Some(cycle), d.latestSkip);
    w.(disk := w.disk.(pending := Some(p.(outcome := Some(cycle))), driver := driver))
  }

  function AfterCommit(w: World, seqNo: nat, r: Report, at: int, retained: nat, bytes: nat): World
    requires r.observed.Some?
  {
    var n := w.disk.summary.actions + 1;
    var entry := Retention(n, retained, if retained <= n then n - retained else 0, bytes);
    w.(disk := w.disk.(summary := Folded(w.disk.summary, r), pending := None, actionRetention := entry), pc := Driven,
       log := w.log + [Committed(seqNo, at)])
  }

  // ----- One event -----------------------------------------------------------------------

  /** What an event of the loop leaves. */
  function PlainLoop(cfg: Config, w: World, e: Event): World {
    match e
    case Crash(_) => w.(pc := Down)
    case Boot(at) => w.(disk := WithDeadline(w.disk, Deadline(cfg, w.disk, at, true)), pc := Idle, failures := 0)
    case Rearm(at) => w.(disk := WithDeadline(w.disk, Deadline(cfg, w.disk, at, false)), pc := Idle)
    case Wake(at) => w.(pc := if DriveDue(cfg, w.disk, at) then Driving else Idle)
    case StoreCheckpoint(_) => w.(files := Least(w.files + 1, cfg.checkpointFiles), pc := Checkpointing)
    case SummarizeCheckpoint(_, stamp, bytes) =>
      w.(disk := WithCheckpoint(w.disk, stamp, w.files, bytes), pc := Idle, failures := 0)
    case FailCheckpoint(_) => w.(pc := Idle, failures := w.failures + 1)
    case LoseCheckpoint(_) => w.(pc := Idle, failures := w.failures + 1)
    case _ => w
  }

  /** What an event of the drive of a pending action leaves. */
  function PlainDrive(cfg: Config, w: World, p: PendingAction, e: Event): World {
    match e
    case CloseAmbiguous(at) =>
      var c := if p.rust.create.Some? && p.rust.create.value.Prepared? then Rust else Mfc;
      WithPending(w, Recorded(p, c, Refused(PreparedAt(p, c), at, Error(c, "search-create", "AmbiguousSearchCreate"))))
    case Prepare(at) =>
      WithPending(w, Recorded(Recorded(p, Rust, Prepared(at)), Mfc, Prepared(at))).(pc := Sending(Rust, 0))
    case Send(_) =>
      if !w.pc.Sending? then w
      else w.(pc := Awaiting(w.pc.client, w.pc.attempt), log := w.log + [Post(p.cycle, w.pc.client, w.pc.attempt)])
    case Receive(_, reply) => if w.pc.Awaiting? then AfterAnswer(w, p, reply) else w
    case RecordCreate(at) => if w.pc.Holding? then AfterCreate(w, p, at) else w
    case StartPolls(_) => WithPending(w, p.(rust := Opened(cfg, p.rust), mfc := Opened(cfg, p.mfc)))
    case PollOnce(_, _, _, _) =>
      var q := AfterPoll(p, e);
      WithPending(w, q).(pc := if Over(q.rust) && Over(q.mfc) then Driving else Driven)
    case CloseCycle(at) => AfterClose(w, p, at)
    case MarkEvidence(_) =>
      if p.outcome.None? then w else WithPending(w, p.(evidence := Some(p.outcome.value.completedAt)))
    case StoreReport(_, r) =>
      w.(reports := w.reports[p.reportSeq := r], log := w.log + [Stored(p.reportSeq)])
    case Commit(at, retained, bytes) =>
      if p.reportSeq in w.reports && w.reports[p.reportSeq].observed.Some?
      then AfterCommit(w, p.reportSeq, w.reports[p.reportSeq], at, retained, bytes) else w
    case _ => w
  }

  /** What an event leaves that does not raise. */
  function Plain(cfg: Config, w: World, e: Event): World {
    if e.Crash? || LoopEvent(e) then PlainLoop(cfg, w, e)
    else if e.Probe? then
      if cfg.terms != [] && w.disk.scheduler.nextSlot > 0 && !e.probe.ProbeEscapes? then Probed(cfg, w, e.at, e.probe)
      else w
    else if w.disk.pending.Some? then PlainDrive(cfg, w, w.disk.pending.value, e)
    else w
  }

  /** The plain step: an exception ends the process and leaves everything else. */
  function PlainStep(cfg: Config, w: World, e: Event): World {
    (if Accepts(cfg, w, e) then Plain(cfg, w, e) else w.(pc := Down)).(now := if e.PollOnce? then e.read else e.at)
  }

  // ----- Every step is the plain one -----------------------------------------------------

  lemma LoopPlain(cfg: Config, w: World, e: Event)
    requires ValidConfig(cfg) && Core(cfg, w) && Enabled(cfg, w, e) && LoopEvent(e) && ApplyLoop(cfg, w, e).Success?
    ensures ApplyLoop(cfg, w, e).value == PlainLoop(cfg, w, e)
  {
    hide Valid, ValidCore;
  }

  lemma UsableExactly(r: Run)
    ensures Usable(r) <==> ValidRun(r)
  {
  }

  lemma AskedIsScheduled(terms: seq<string>, slot: nat, g: Gate)
    requires terms != [] && slot > 0
    ensures
      var action := ScheduledAction(terms, slot, g).value;
      Asked(terms, slot, g) == (action.0, MethodFor(action.1))
  {
  }

  lemma ProbePlain(cfg: Config, w: World, e: Event)
    requires ValidConfig(cfg) && Core(cfg, w) && Enabled(cfg, w, e) && e.Probe?
    requires ApplyProbe(cfg, w, e.at, e.probe).Success?
    ensures cfg.terms != [] && w.disk.scheduler.nextSlot > 0 && !e.probe.ProbeEscapes?
    ensures ApplyProbe(cfg, w, e.at, e.probe).value == Probed(cfg, w, e.at, e.probe)
  {
    hide Valid, Asked, ScheduledAction, MethodFor, Usable, ValidRun;
    var slot := w.disk.scheduler.nextSlot;
    SlotPositive(cfg, w);
    ProbeNumbers(cfg, w, e);
    AskedIsScheduled(cfg.terms, slot, w.disk.summary.gate);
    if e.probe.Ready? {
      UsableExactly(e.probe.rustRun);
      UsableExactly(e.probe.mfcRun);
    }
  }

  lemma ProbeNumbers(cfg: Config, w: World, e: Event)
    requires ValidConfig(cfg) && Core(cfg, w) && Enabled(cfg, w, e) && e.Probe?
    ensures cfg.terms != [] && w.disk.pending.None? && w.disk.summary.campaign == cfg.campaign
    ensures w.disk.summary.nextSeq == w.disk.scheduler.nextCycle
  {
    hide ValidPending;
  }

  lemma RecoveryPlain(cfg: Config, w: World, e: Event)
    requires Enabled(cfg, w, e) && (e.CloseAmbiguous? || e.Prepare?)
    requires ApplyRecovery(w, e.at).Success? && w.disk.pending.Some?
    ensures ApplyRecovery(w, e.at).value == PlainDrive(cfg, w, w.disk.pending.value, e)
  {
    hide Valid;
  }

  lemma ExchangePlain(cfg: Config, w: World, e: Event)
    requires Enabled(cfg, w, e) && (e.Send? || e.Receive? || e.RecordCreate?) && ApplyExchange(w, e).Success?
    ensures w.disk.pending.Some? && ApplyExchange(w, e).value == PlainDrive(cfg, w, w.disk.pending.value, e)
  {
    hide Valid;
  }

  lemma OpenedIsStarted(cfg: Config, s: State, c: Client)
    requires StartOne(cfg, s, c).Success?
    ensures s.pending.Some? && StartOne(cfg, s, c).value == WithClient(s, c, Opened(cfg, s.pending.value.Get(c)))
  {
    hide Valid;
  }

  lemma StartPlain(cfg: Config, w: World, e: Event)
    requires Enabled(cfg, w, e) && e.StartPolls? && ApplyPolls(cfg, w, e).Success?
    ensures w.disk.pending.Some? && ApplyPolls(cfg, w, e).value == PlainDrive(cfg, w, w.disk.pending.value, e)
  {
    hide StartOne, Opened;
    OpenedIsStarted(cfg, w.disk, Rust);
    OpenedIsStarted(cfg, StartOne(cfg, w.disk, Rust).value, Mfc);
  }

  /** Serving one client, in plain terms. */
  lemma ServePlain(s: State, c: Client, at: int, read: int, answer: GetAnswer)
    requires ServePoll(s, c, at, read, answer).Success?
    ensures s.pending.Some? && s.pending.value.Get(c).poll.Some?
    ensures at < s.pending.value.Get(c).poll.value.deadline ==> answer.Got?
    ensures
      var v := s.pending.value.Get(c);
      ServePoll(s, c, at, read, answer).value
      == WithClient(s, c, if at < v.poll.value.deadline then AfterPage(v, read, answer.page) else Expired(v, c, at))
  {
    hide Valid;
  }

  lemma PollPlain(cfg: Config, w: World, e: Event)
    requires Core(cfg, w) && Enabled(cfg, w, e) && e.PollOnce? && ApplyPolls(cfg, w, e).Success?
    ensures w.disk.pending.Some? && ApplyPolls(cfg, w, e).value == PlainDrive(cfg, w, w.disk.pending.value, e)
  {
    hide Valid, ValidCore, ServePoll, AfterPage, Expired;
    var p := w.disk.pending.value;
    var served := ObserverRun.Served(p, e.at, e.second);
    if served.Some? {
      ServePlain(w.disk, served.value.0, served.value.1, e.read, e.answer);
    }
  }

  lemma ErrorsAreReported(c: ClientState)
    requires Terminal(c)
    ensures ClientErrors(c) == Reported(c) && (Reported(c) == [] <==> Fine(c))
  {
  }

  lemma CycleIsPlain(p: PendingAction, at: int)
    requires AllTerminal(p)
    ensures CyclePayload(p, at) == CycleOf(p, at) && (CycleOf(p, at).ok <==> CycleOf(p, at).errors == [])
  {
    hide ClientErrors, Reported, Fine;
    ErrorsAreReported(p.rust);
    ErrorsAreReported(p.mfc);
  }

  lemma ClosePlain(w: World, p: PendingAction, at: int)
    requires w.disk.pending == Some(p) && AllTerminal(p) && ApplyClosing(w, CloseCycle(at)).Success?
    ensures ApplyClosing(w, CloseCycle(at)).value == AfterClose(w, p, at)
  {
    hide Valid, CyclePayload, Fine, Reported;
    CycleIsPlain(p, at);
  }

  lemma CloseDrive(cfg: Config, w: World, e: Event)
    requires Core(cfg, w) && Enabled(cfg, w, e) && e.CloseCycle? && ApplyClosing(w, e).Success?
    ensures w.disk.pending.Some? && ApplyClosing(w, e).value == PlainDrive(cfg, w, w.disk.pending.value, e)
  {
    hide Core, AfterClose, ApplyClosing;
    var p := w.disk.pending.value;
    assert e == CloseCycle(e.at);
    ClosePlain(w, p, e.at);
    assert PlainDrive(cfg, w, p, e) == AfterClose(w, p, e.at);
  }

  lemma MarkPlain(cfg: Config, w: World, e: Event)
    requires Enabled(cfg, w, e) && (e.MarkEvidence? || e.StoreReport?) && ApplyClosing(w, e).Success?
    ensures w.disk.pending.Some? && ApplyClosing(w, e).value == PlainDrive(cfg, w, w.disk.pending.value, e)
  {
    hide Valid;
  }

  lemma CommitPlain(cfg: Config, w: World, e: Event)
    requires Core(cfg, w) && Enabled(cfg, w, e) && e.Commit? && ApplyClosing(w, e).Success?
    ensures w.disk.pending.Some? && ApplyClosing(w, e).value == PlainDrive(cfg, w, w.disk.pending.value, e)
  {
    var r := w.reports[w.disk.pending.value.reportSeq];
    CommitShape(w, e);
    FoldKeepsFrame(w.disk.summary, r);
    hide Core, Valid, Folded, ApplyClosing, CommitActionReport;
  }

  lemma NothingSkipped(cfg: Config, w: World, e: Event)
    requires Core(cfg, w) && Enabled(cfg, w, e)
    ensures !e.SkipPeer?
  {
    hide ValidCore, Valid, ClientOk;
  }

  lemma StepIsPlain(cfg: Config, w: World, e: Event)
    requires ValidConfig(cfg) && Inv(cfg, w) && Enabled(cfg, w, e)
    ensures Step(cfg, w, e) == PlainStep(cfg, w, e)
  {
    hide ApplyLoop, ApplyProbe, ApplyRecovery, ApplyExchange, ApplyPolls, ApplyClosing, Core, Ledger, PostsOk;
    hide PlainLoop, PlainDrive, Probed, Accepts, Enabled;
    RaisesExactly(cfg, w, e);
    NothingSkipped(cfg, w, e);
    if Apply(cfg, w, e).Success? {
      match e
      case Crash(_) => CrashPlain(cfg, w, e);
      case Probe(_, _) => ProbePlain(cfg, w, e);
      case CloseAmbiguous(_) => RecoveryShape(w, e.at); RecoveryPlain(cfg, w, e);
      case SkipPeer(_) =>
      case Prepare(_) => RecoveryShape(w, e.at); RecoveryPlain(cfg, w, e);
      case Send(_) => ExchangePlain(cfg, w, e);
      case Receive(_, _) => ExchangePlain(cfg, w, e);
      case RecordCreate(_) => ExchangePlain(cfg, w, e);
      case StartPolls(_) => StartPlain(cfg, w, e);
      case PollOnce(_, _, _, _) => PollPlain(cfg, w, e);
      case CloseCycle(_) => CloseDrive(cfg, w, e);
      case MarkEvidence(_) => MarkPlain(cfg, w, e);
      case StoreReport(_, _) => MarkPlain(cfg, w, e);
      case FailReport(_) => ReportFails(w, e.at);
      case Commit(_, _, _) => CommitPlain(cfg, w, e);
      case _ => LoopPlain(cfg, w, e);
    }
  }

  lemma CrashPlain(cfg: Config, w: World, e: Event)
    requires e.Crash?
    ensures PlainLoop(cfg, w, e) == w.(pc := Down)
  {
  }

  /** Every step of every run is the plain one: the validations, guards and copies of
      the durable transitions add nothing to it and take nothing away. */
  lemma RunIsPlain(cfg: Config, now: int, ws: seq<World>, es: seq<Event>, i: nat)
    requires Execution(cfg, now, ws, es) && i < |es|
    ensures ws[i + 1] == PlainStep(cfg, ws[i], es[i])
  {
    hide Inv, Step, PlainStep, Enabled, Start;
    RunInv(cfg, now, ws, es, i);
    assert Moves(cfg, ws, es, i);
    StepIsPlain(cfg, ws[i], es[i]);
  }
}
