/**
 The crash-safe observer protocol as a state machine: the durable state, the
 stored artifacts, a log of external effects, a clock, and the point the one
 observer process has reached. Between two events the process may be killed;
 it then restarts from the durable state alone.
 */
module ObserverRun {
  import opened Wrappers
  import opened Blanks
  import opened JsonFields
  import opened ObserverSummary
  import opened ObserverState
  import opened ObserverSchedule

  // ----- Configuration -------------------------------------------------------

  /** Durations and instants are whole microseconds. */
  datatype Config = Config(
    campaign: string, enabled: bool, terms: seq<string>, target: nat,
    startDelay: int, interval: int, timeout: int,
    actionLimit: nat, anomalyLimit: nat, checkpointFiles: nat, failureThreshold: nat)

  const SECOND := 1_000_000
  const POLL_INTERVAL := 2 * SECOND
  const MIN_ACTION_INTERVAL := 300 * SECOND

  predicate ValidConfig(cfg: Config) {
    && cfg.target > 0 && cfg.actionLimit > 0 && cfg.anomalyLimit > 0 && cfg.checkpointFiles > 0
      && cfg.failureThreshold > 0
    && cfg.startDelay >= 0 && cfg.interval >= MIN_ACTION_INTERVAL && cfg.timeout > 0
    && (cfg.enabled ==> cfg.terms != [])
    && (forall i :: 0 <= i < |cfg.terms| ==> !BlankId(cfg.terms[i]))
  }

  // ----- Worlds --------------------------------------------------------------

  /** What left the process, in order. */
  datatype Effect =
    | Reserved(slot: nat, cycle: nat, at: int, query: string, via: SearchMethod)
    | SlotSkipped(slot: nat)
    | Post(cycle: nat, client: Client, attempt: nat)
    | PostFailed(cycle: nat, client: Client)
    | Stored(seqNo: nat)
    | Committed(seqNo: nat, at: int)

  /** Where the process is: not running, between two turns of its loop, storing
      a checkpoint, inside one drive of the action, sending or awaiting one
      create request, holding its outcome, or just back from a drive. */
  datatype Pc =
    | Down
    | Idle
    | Checkpointing
    | Driving
    | Sending(client: Client, attempt: nat)
    | Awaiting(client: Client, attempt: nat)
    | Holding(client: Client, outcome: CreateOutcome)
    | Driven

  /** `failures` is the process's own count of checkpoints that failed in a row. */
  datatype World = World(
    disk: State, files: nat, reports: map<nat, Report>, log: seq<Effect>, now: int, pc: Pc, failures: nat)

  function Start(cfg: Config, now: int): World {
    World(NewState(cfg.campaign, cfg.actionLimit, cfg.anomalyLimit, cfg.target), 0, map[], [], now, Down, 0)
  }

  // ----- Events --------------------------------------------------------------

  /** The readiness probe, with repair and run identities. `ProbeEscapes` is an
      exception of a kind the drive does not handle, such as a body that is no JSON. */
  datatype ProbeResult = NotReady(phase: string) | Ready(rustRun: Run, mfcRun: Run) | ProbeEscapes

  /** One HTTP exchange of a create request. `NoAnswer` is one that failed in a way
      the REST layer repeats or reports, `Escapes` one whose exception nothing handles. */
  datatype Reply = Answered(id: string) | NoAnswer | Escapes

  /** One GET of a result page: the page or its handled error, or an exception
      that nothing handles. */
  datatype GetAnswer = Got(page: Page) | GetEscapes

  /** A page whose total does not cover its rows raises when it is built. */
  predicate Readable(answer: GetAnswer) {
    answer.Got? && (answer.page.PageRead? ==> answer.page.returned <= answer.page.total)
  }

  /** The steps of the process. `FailCheckpoint` is a checkpoint that fails before its
      artifact is stored, `LoseCheckpoint` one that fails after; the loop goes on with
      the state it had until too many fail in a row. `FailReport` is an exception
      while the report is captured, built, checked or stored. */
  datatype Event =
    | Crash(at: int)
    | Boot(at: int)
    | Wake(at: int)
    | StoreCheckpoint(at: int)
    | SummarizeCheckpoint(at: int, stamp: int, bytes: nat)
    | FailCheckpoint(at: int)
    | LoseCheckpoint(at: int)
    | Probe(at: int, probe: ProbeResult)
    | CloseAmbiguous(at: int)
    | SkipPeer(at: int)
    | Prepare(at: int)
    | Send(at: int)
    | Receive(at: int, reply: Reply)
    | RecordCreate(at: int)
    | StartPolls(at: int)
    | PollOnce(at: int, second: int, read: int, answer: GetAnswer)
    | CloseCycle(at: int)
    | MarkEvidence(at: int)
    | StoreReport(at: int, report: Report)
    | FailReport(at: int)
    | Commit(at: int, retained: nat, bytes: nat)
    | Rearm(at: int)

  /** What one drive does next, read off the pending action alone. */
  datatype Phase =
    | Reserving | Recovering(client: Client) | SkippingPeer(client: Client) | Preparing
    | Starting | Polling | Closing | Marking | Finalizing

  predicate IsPrepared(c: ClientState) {
    c.create.Some? && c.create.value.Prepared?
  }

  function PhaseOf(pending: Option<PendingAction>): Phase {
    if pending.None? then Reserving
    else
      var p := pending.value;
      if p.outcome.Some? then (if p.evidence.None? then Marking else Finalizing)
      else if IsPrepared(p.rust) then Recovering(Rust)
      else if IsPrepared(p.mfc) then Recovering(Mfc)
      else if p.rust.create.None? && p.mfc.create.None? then Preparing
      else if p.rust.create.None? then SkippingPeer(Rust)
      else if p.mfc.create.None? then SkippingPeer(Mfc)
      else if AwaitsPoll(p.rust) || AwaitsPoll(p.mfc) then Starting
      else if AllTerminal(p) then Closing
      else Polling
  }

  // ----- Pieces of one drive ---------------------------------------------------

  function Earliest(p: PendingAction): Option<int> {
    match (p.rust.poll, p.mfc.poll)
    case (None, None) => None
    case (Some(r), None) => Some(r.nextAttempt)
    case (None, Some(m)) => Some(m.nextAttempt)
    case (Some(r), Some(m)) => Some(if r.nextAttempt <= m.nextAttempt then r.nextAttempt else m.nextAttempt)
  }

  /** Whether the loop drives the action now; `Failure` is a missing deadline. */
  function Due(cfg: Config, s: State, now: int): Result<bool> {
    if !Valid(s) then Failure("validate_state")
    else if !cfg.enabled then Success(false)
    else if s.pending.Some? then
      var next := Earliest(s.pending.value);
      Success(next.None? || next.value <= now)
    else if s.scheduler.nextActionAt.None? then Failure("action deadline is not reconciled")
    else Success(s.scheduler.nextActionAt.value <= now)
  }

  function Reconcile(cfg: Config, s: State, now: int, afterAction: bool): Result<State> {
    if !Valid(s) then Failure("validate_state")
    else
      var current := s.scheduler.nextActionAt;
      if !(cfg.enabled && s.pending.None?) then
        if current.None? then Success(s) else SetNextActionDeadline(s, None)
      else if current.Some? && !afterAction then Success(s)
      else
        var delay := if afterAction || s.driver.cycles > 0 then cfg.interval else cfg.startDelay;
        SetNextActionDeadline(s, Some(now + delay))
  }

  function MethodFor(m: Parity): SearchMethod {
    match m case Server => OnServer case Kad => OnKad
  }

  function Ambiguous(c: Client): Error {
    Error(c, "search-create", "AmbiguousSearchCreate")
  }

  function PeerStarted(c: Client): Error {
    Error(c, "search-create", "SearchCreateSkipped")
  }

  function DeadlineElapsed(c: Client): Error {
    Error(c, "search-results", "SearchResultsDeadlineElapsed")
  }

  function CreateFailed(c: Client): Error {
    Error(c, "search-create", "RuntimeError")
  }

  function StartOne(cfg: Config, s: State, c: Client): Result<State> {
    if s.pending.None? then Failure("pending action disappeared")
    else if !AwaitsPoll(s.pending.value.Get(c)) then Success(s)
    else
      var started := s.pending.value.Get(c).create.value.completedAt;
      StartSearchResultsPoll(s, c, started, started + cfg.timeout)
  }

  /** The client the poll loop serves, and when it looked: the clock is read once
      for each client with an open poll, the first client first. */
  function Served(p: PendingAction, at: int, second: int): Option<(Client, int)> {
    if p.rust.poll.Some? && p.rust.poll.value.nextAttempt <= at then Some((Rust, at))
    else if p.mfc.poll.Some? && p.mfc.poll.value.nextAttempt <= second then Some((Mfc, second))
    else None
  }

  /** Serves one due poll: it expires at its deadline, without a request; before
      that one page is read. */
  function ServePoll(s: State, c: Client, at: int, read: int, answer: GetAnswer): Result<State> {
    if s.pending.None? || s.pending.value.Get(c).poll.None? then Failure("poll is not active")
    else
      var p := s.pending.value.Get(c).poll.value;
      if at >= p.deadline then
        var error := if p.lastTotal.None? && p.lastAttemptError.None? then Some(DeadlineElapsed(c)) else None;
        ExpirePoll(s, c, at, error)
      else if !Readable(answer) then Failure("result page")
      else
        var page := answer.page;
        var completed := page.PageRead? && page.completed && read < p.deadline;
        var terminal := completed || read >= p.deadline;
        var later := read + POLL_INTERVAL;
        var next := if terminal then None else Some(if later <= p.deadline then later else p.deadline);
        RecordPollAttempt(s, c, read, next, completed, page)
  }

  function ClientErrors(c: ClientState): seq<Error> {
    if c.create.None? then []
    else match c.create.value
      case Prepared(_) => []
      case Refused(_, _, e) => [e]
      case Skipped(_, e) => [e]
      case Succeeded(_, _, _) =>
        if c.results.Some? && c.results.value.error.Some? then [c.results.value.error.value] else []
  }

  /** The terminal driver cycle rebuilt from the durable phase outcomes. */
  function CyclePayload(p: PendingAction, at: int): Cycle {
    var errors := ClientErrors(p.rust) + ClientErrors(p.mfc);
    Cycle(p.cycle, p.actionId, errors == [], errors, false, at)
  }

  function ViaOf(m: SearchMethod): Labelled<Method> {
    match m
    case OnServer => Verbatim(ServerMethod)
    case OnGlobal => Verbatim(GlobalMethod)
    case OnKad => Verbatim(KadMethod)
  }

  /** What report building and its validation promise about a pending action's report. */
  predicate ReportFor(campaign: string, p: PendingAction, r: Report) {
    && r.campaign == campaign && r.seqNo == Num(p.reportSeq) && r.cycle == Num(p.cycle)
    && r.actionId == Named(p.actionId)
    && p.evidence.Some? && r.observed == Some(Utc(p.evidence.value))
    && r.via == ViaOf(p.via) && r.kind == Verbatim(SearchKind)
  }

  // ----- One event -------------------------------------------------------------

  predicate Enabled(cfg: Config, w: World, e: Event) {
    && w.now <= e.at
    && (e.PollOnce? ==> e.at <= e.second <= e.read)
    && match e
       case Crash(_) => w.pc != Down
       case Boot(_) => w.pc == Down
       case Wake(_) => w.pc == Idle
       case StoreCheckpoint(_) => w.pc == Idle && Valid(w.disk)
       case FailCheckpoint(_) => w.pc == Idle
       case SummarizeCheckpoint(_, _, _) => w.pc == Checkpointing
       case LoseCheckpoint(_) => w.pc == Checkpointing
       case Probe(_, _) => w.pc == Driving && PhaseOf(w.disk.pending) == Reserving
       case CloseAmbiguous(_) => w.pc == Driving && PhaseOf(w.disk.pending).Recovering?
       case SkipPeer(_) => w.pc == Driving && PhaseOf(w.disk.pending).SkippingPeer?
       case Prepare(_) => w.pc == Driving && PhaseOf(w.disk.pending) == Preparing
       case Send(_) => w.pc.Sending?
       case Receive(_, _) => w.pc.Awaiting?
       case RecordCreate(_) => w.pc.Holding?
       case StartPolls(_) => w.pc == Driving && PhaseOf(w.disk.pending) == Starting
       case PollOnce(_, _, _, _) => w.pc == Driving && PhaseOf(w.disk.pending) == Polling
       case CloseCycle(_) => w.pc == Driving && PhaseOf(w.disk.pending) == Closing
       case MarkEvidence(_) => w.pc == Driving && PhaseOf(w.disk.pending) == Marking
       case StoreReport(_, r) =>
         && w.pc == Driving && PhaseOf(w.disk.pending) == Finalizing
         && w.disk.pending.value.reportSeq !in w.reports
         && ReportFor(cfg.campaign, w.disk.pending.value, r)
       case FailReport(_) => w.pc == Driving && PhaseOf(w.disk.pending) == Finalizing
       case Commit(_, retained, _) =>
         && w.pc == Driving && PhaseOf(w.disk.pending) == Finalizing
         && w.disk.pending.value.reportSeq in w.reports
         && retained <= |w.reports|
       case Rearm(_) => w.pc == Driven
  }

  /** A client whose diagnostic run identity is not usable counts as not ready. */
  function Checked(probe: ProbeResult): ProbeResult {
    if probe.Ready? && !(ValidRun(probe.rustRun) && ValidRun(probe.mfcRun)) then NotReady("diagnostic_run_identity")
    else probe
  }

  function ApplyProbe(cfg: Config, w: World, at: int, probe: ProbeResult): Result<World> {
    var slot := w.disk.scheduler.nextSlot;
    match Checked(probe)
    case ProbeEscapes => Failure("readiness probe")
    case NotReady(phase) =>
      var s :- RecordConnectivitySkip(w.disk, at, phase);
      Success(w.(disk := s, pc := Driven, log := w.log + [SlotSkipped(slot)]))
    case Ready(rustRun, mfcRun) =>
      var action :- ScheduledAction(cfg.terms, slot, w.disk.summary.gate);
      var s :- ReserveDriverCycle(w.disk, action.0, MethodFor(action.1), at, rustRun, mfcRun);
      var reserved := Reserved(slot, w.disk.scheduler.nextCycle, at, action.0, MethodFor(action.1));
      Success(w.(disk := s, log := w.log + [reserved]))
  }

  function ApplyRecovery(w: World, at: int): Result<World> {
    match PhaseOf(w.disk.pending)
    case Recovering(c) =>
      var s :- CompleteSearchCreate(w.disk, c, at, CreateError(Ambiguous(c)));
      Success(w.(disk := s))
    case SkippingPeer(c) =>
      var s :- SkipSearchCreate(w.disk, c, at, PeerStarted(c));
      Success(w.(disk := s))
    case Preparing =>
      var one :- PrepareSearchCreate(w.disk, Rust, at);
      var two :- PrepareSearchCreate(one, Mfc, at);
      Success(w.(disk := two, pc := Sending(Rust, 0)))
    case _ => Failure("no create to recover")
  }

  /** A create request is repeated once by the REST layer when the first one failed. */
  function ApplyExchange(w: World, e: Event): Result<World> {
    if w.disk.pending.None? then Failure("pending action disappeared")
    else
      var cycle := w.disk.pending.value.cycle;
      match (w.pc, e)
      case (Sending(c, n), Send(_)) =>
        Success(w.(pc := Awaiting(c, n), log := w.log + [Post(cycle, c, n)]))
      case (Awaiting(c, n), Receive(_, Answered(id))) =>
        Success(w.(pc := Holding(c, if id == "" then CreateError(CreateFailed(c)) else Created(id))))
      case (Awaiting(_, _), Receive(_, Escapes)) => Failure("create answer")
      case (Awaiting(c, n), Receive(_, NoAnswer)) =>
        if n == 0 then Success(w.(pc := Sending(c, 1), log := w.log + [PostFailed(cycle, c)]))
        else Success(w.(pc := Holding(c, CreateError(CreateFailed(c)))))
      case (Holding(c, outcome), RecordCreate(at)) =>
        var s :- CompleteSearchCreate(w.disk, c, at, outcome);
        Success(w.(disk := s, pc := if c == Rust then Sending(Mfc, 0) else Driving))
      case _ => Failure("no create is in flight")
  }

  function ApplyPolls(cfg: Config, w: World, e: Event): Result<World> {
    match e
    case StartPolls(_) =>
      var one :- StartOne(cfg, w.disk, Rust);
      var two :- StartOne(cfg, one, Mfc);
      Success(w.(disk := two))
    case PollOnce(at, second, read, answer) =>
      if w.disk.pending.None? then Failure("pending action disappeared")
      else
        var served := Served(w.disk.pending.value, at, second);
        if served.None? then Success(w.(pc := Driven))
        else
          var s :- ServePoll(w.disk, served.value.0, served.value.1, read, answer);
          Success(w.(disk := s, pc := if s.pending.Some? && AllTerminal(s.pending.value) then Driving else Driven))
    case _ => Failure("not a poll")
  }

  function ApplyClosing(w: World, e: Event): Result<World> {
    if w.disk.pending.None? then Failure("pending action disappeared")
    else
      var p := w.disk.pending.value;
      match e
      case CloseCycle(at) =>
        var s :- RecordDriverCycle(w.disk, CyclePayload(p, at));
        Success(w.(disk := s))
      case MarkEvidence(_) =>
        if p.outcome.None? then Failure("driver outcome is not recorded")
        else
          var s :- MarkEvidencePending(w.disk, p.outcome.value.completedAt);
          Success(w.(disk := s))
      case StoreReport(_, r) =>
        Success(w.(reports := w.reports[p.reportSeq := r], log := w.log + [Stored(p.reportSeq)]))
      case FailReport(_) => Failure("action report")
      case Commit(at, retained, bytes) =>
        if p.reportSeq !in w.reports then Failure("no report candidate")
        else
          var one :- CommitActionReport(w.disk, w.reports[p.reportSeq]);
          var two :- RecordStreamRetention(one, Actions, retained, bytes);
          Success(w.(disk := two, pc := Driven, log := w.log + [Committed(p.reportSeq, at)]))
      case _ => Failure("not a closing step")
  }

  /** A failed checkpoint is put off until the threshold of failures in a row. */
  function GiveUp(cfg: Config, w: World): Result<World> {
    if w.failures + 1 >= cfg.failureThreshold then Failure("checkpoint failed too often")
    else Success(w.(pc := Idle, failures := w.failures + 1))
  }

  function ApplyLoop(cfg: Config, w: World, e: Event): Result<World> {
    match e
    case Boot(at) =>
      var s :- Reconcile(cfg, w.disk, at, false);
      Success(w.(disk := s, pc := Idle, failures := 0))
    case Rearm(at) =>
      var s :- Reconcile(cfg, w.disk, at, true);
      Success(w.(disk := s, pc := Idle))
    case Wake(at) =>
      var due :- Due(cfg, w.disk, at);
      Success(w.(pc := if due then Driving else Idle))
    case StoreCheckpoint(_) =>
      var files := if w.files < cfg.checkpointFiles then w.files + 1 else cfg.checkpointFiles;
      Success(w.(files := files, pc := Checkpointing))
    case SummarizeCheckpoint(_, stamp, bytes) =>
      var one :- RecordCheckpoint(w.disk, Utc(stamp));
      var two :- RecordStreamRetention(one, CheckpointStream, w.files, bytes);
      Success(w.(disk := two, pc := Idle, failures := 0))
    case FailCheckpoint(_) => GiveUp(cfg, w)
    case LoseCheckpoint(_) => GiveUp(cfg, w)
    case _ => Failure("not a loop step")
  }

  /** One event; `Failure` is an exception that escapes the loop. */
  function Apply(cfg: Config, w: World, e: Event): Result<World> {
    match e
    case Crash(_) => Success(w.(pc := Down))
    case Boot(_) => ApplyLoop(cfg, w, e)
    case Wake(_) => ApplyLoop(cfg, w, e)
    case StoreCheckpoint(_) => ApplyLoop(cfg, w, e)
    case SummarizeCheckpoint(_, _, _) => ApplyLoop(cfg, w, e)
    case FailCheckpoint(_) => ApplyLoop(cfg, w, e)
    case LoseCheckpoint(_) => ApplyLoop(cfg, w, e)
    case Rearm(_) => ApplyLoop(cfg, w, e)
    case Probe(at, probe) => ApplyProbe(cfg, w, at, probe)
    case CloseAmbiguous(at) => ApplyRecovery(w, at)
    case SkipPeer(at) => ApplyRecovery(w, at)
    case Prepare(at) => ApplyRecovery(w, at)
    case Send(_) => ApplyExchange(w, e)
    case Receive(_, _) => ApplyExchange(w, e)
    case RecordCreate(_) => ApplyExchange(w, e)
    case StartPolls(_) => ApplyPolls(cfg, w, e)
    case PollOnce(_, _, _, _) => ApplyPolls(cfg, w, e)
    case CloseCycle(_) => ApplyClosing(w, e)
    case MarkEvidence(_) => ApplyClosing(w, e)
    case StoreReport(_, _) => ApplyClosing(w, e)
    case FailReport(_) => ApplyClosing(w, e)
    case Commit(_, _, _) => ApplyClosing(w, e)
  }

  function EndOf(e: Event): int {
    if e.PollOnce? then e.read else e.at
  }

  /** An exception ends the process and leaves the durable state as it was. */
  function Step(cfg: Config, w: World, e: Event): World {
    var next := Apply(cfg, w, e);
    (if next.Success? then next.value else w.(pc := Down)).(now := EndOf(e))
  }

  /** The `i`-th event of a run leads from one world to the next. */
  ghost predicate Moves(cfg: Config, ws: seq<World>, es: seq<Event>, i: int)
    requires 0 <= i < |es| && |ws| == |es| + 1
  {
    Enabled(cfg, ws[i], es[i]) && ws[i + 1] == Step(cfg, ws[i], es[i])
  }

  /** A run: its events, and the worlds before, between and after them. */
  ghost predicate Execution(cfg: Config, now: int, ws: seq<World>, es: seq<Event>) {
    && ValidConfig(cfg) && |ws| == |es| + 1 && ws[0] == Start(cfg, now)
    && forall i :: 0 <= i < |es| ==> Moves(cfg, ws, es, i)
  }
}
