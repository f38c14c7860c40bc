/**
 The durable observer state, its validation, and every transition the driver
 applies to it. Each transition validates its input, checks its own guards,
 updates a copy and validates the copy again; `Failure` is the exception.
 */
module ObserverState {
  import opened Wrappers
  import opened Blanks
  import opened JsonFields
  import opened ObserverSummary

  // ----- Values --------------------------------------------------------------

  datatype Client = Rust | Mfc

  datatype SearchMethod = OnServer | OnGlobal | OnKad

  /** An exact recorded error; its text is not interpreted. */
  datatype Error = Error(client: Client, phase: string, kind: string)

  datatype Create =
    | Prepared(preparedAt: int)
    | Succeeded(preparedAt: int, completedAt: int, searchId: string)
    | Refused(preparedAt: int, completedAt: int, error: Error)
    | Skipped(completedAt: int, error: Error)

  datatype Poll = Poll(
    startedAt: int, deadline: int, nextAttempt: int, attempts: nat, errors: nat,
    latestAttempt: Option<int>, lastReturned: Option<nat>, lastTotal: Option<nat>,
    lastAttemptError: Option<Error>, latestError: Option<Error>)

  datatype Termination = ByCompletion | ByDeadline | ByExpiry

  datatype ClosedPoll = ClosedPoll(
    startedAt: int, deadline: int, attempts: nat, errors: nat,
    latestAttempt: Option<int>, latestError: Option<Error>, termination: Termination)

  datatype Results = Results(
    completedAt: int, completed: bool, returned: Option<nat>, total: Option<nat>,
    error: Option<Error>, poll: ClosedPoll)

  datatype ClientState = ClientState(create: Option<Create>, poll: Option<Poll>, results: Option<Results>)

  datatype Cycle = Cycle(
    number: nat, actionId: ActionId, ok: bool, errors: seq<Error>, downloadScheduled: bool, completedAt: int)

  datatype Run = Run(processId: nat, runId: string)

  datatype PendingAction = PendingAction(
    actionId: ActionId, reportSeq: nat, cycle: nat, queryIndex: int, query: string, via: SearchMethod,
    reservedAt: int, rustRun: Run, mfcRun: Run, rust: ClientState, mfc: ClientState,
    outcome: Option<Cycle>, evidence: Option<int>)
  {
    function Get(c: Client): ClientState {
      match c case Rust => rust case Mfc => mfc
    }

    function Set(c: Client, s: ClientState): PendingAction {
      match c case Rust => this.(rust := s) case Mfc => this.(mfc := s)
    }
  }

  datatype Skip = Skip(attemptedAt: int, phase: string, slot: nat)

  datatype Driver = Driver(
    cycles: nat, cycleErrors: nat, downloads: nat, skips: nat,
    latestCycle: Option<Cycle>, latestSkip: Option<Skip>)

  datatype Scheduler = Scheduler(nextCycle: nat, nextSlot: nat, nextActionAt: Option<int>)

  datatype Checkpoints = Checkpoints(count: nat, first: Option<Stamp>, latest: Option<Stamp>)

  datatype Retention = Retention(seen: nat, retained: nat, omitted: nat, bytes: nat)

  datatype Stream = Actions | CheckpointStream

  datatype State = State(
    summary: Summary, checkpoints: Checkpoints, driver: Driver, scheduler: Scheduler,
    pending: Option<PendingAction>, actionRetention: Retention, checkpointRetention: Retention)

  // ----- Validation ----------------------------------------------------------

  predicate Terminal(c: ClientState) {
    && c.create.Some?
    && (c.create.value.Refused? || c.create.value.Skipped? || (c.create.value.Succeeded? && c.results.Some?))
  }

  predicate CountsAgree(returned: Option<nat>, total: Option<nat>) {
    && (returned.None? <==> total.None?)
    && (total.Some? ==> returned.value <= total.value)
  }

  predicate ValidPoll(p: Poll) {
    && p.startedAt < p.deadline
    && p.startedAt <= p.nextAttempt <= p.deadline
    && p.errors <= p.attempts
    && CountsAgree(p.lastReturned, p.lastTotal)
    && (p.errors == 0 <==> p.latestError.None?)
    && (p.lastAttemptError.Some? ==> p.lastAttemptError == p.latestError)
    && (p.attempts == 0 ==>
          && p.errors == 0 && p.latestAttempt.None? && p.lastTotal.None?
          && p.lastAttemptError.None? && p.latestError.None? && p.nextAttempt == p.startedAt)
    && (p.attempts > 0 ==>
          && (p.attempts == p.errors ==> p.lastTotal.None? && p.lastAttemptError.Some?)
          && p.latestAttempt.Some?
          && p.startedAt <= p.latestAttempt.value < p.nextAttempt
          && p.latestAttempt.value < p.deadline
          && (p.lastTotal.Some? || p.lastAttemptError.Some?))
  }

  predicate ValidClosedPoll(
    p: ClosedPoll, completed: bool, completedAt: int, created: int, total: Option<nat>, error: Option<Error>)
  {
    && p.startedAt < p.deadline && created <= p.startedAt <= completedAt
    && p.errors <= p.attempts
    && (p.errors == 0 <==> p.latestError.None?)
    && (p.attempts == 0 <==> p.latestAttempt.None?)
    && (p.latestAttempt.Some? ==> p.startedAt <= p.latestAttempt.value <= completedAt)
    && (total.Some? ==> p.attempts != p.errors)
    && (completed <==> p.termination == ByCompletion)
    && match p.termination
       case ByCompletion => p.attempts > 0 && p.latestAttempt == Some(completedAt)
       case ByDeadline =>
         && p.attempts > 0 && p.latestAttempt == Some(completedAt) && completedAt >= p.deadline
         && (error.Some? ==> error == p.latestError)
       case ByExpiry =>
         completedAt >= p.deadline && (p.latestAttempt.Some? ==> p.latestAttempt.value < p.deadline)
  }

  predicate ValidClient(c: ClientState) {
    && (c.create.Some? && c.create.value.Succeeded? ==> !BlankId(c.create.value.searchId))
    && (c.poll.Some? ==>
          && c.create.Some? && c.create.value.Succeeded?
          && c.results.None?
          && ValidPoll(c.poll.value)
          && c.create.value.completedAt <= c.poll.value.startedAt)
    && (c.results.Some? ==>
          var r := c.results.value;
          && c.create.Some? && c.create.value.Succeeded?
          && c.create.value.completedAt <= r.completedAt
          && CountsAgree(r.returned, r.total)
          && (r.total.Some? || r.error.Some?)
          && (r.completed ==> r.total.Some? && r.error.None?)
          && ValidClosedPoll(r.poll, r.completed, r.completedAt, c.create.value.completedAt, r.total, r.error))
  }

  predicate ValidRun(r: Run) {
    r.processId > 0 && !BlankId(r.runId)
  }

  predicate ValidPending(p: PendingAction, nextSeq: nat, d: Driver, sch: Scheduler) {
    && p.reportSeq > 0 && p.reportSeq == nextSeq
    && p.cycle > 0
    && p.queryIndex >= 0 && p.queryIndex == sch.nextSlot - 2
    && !BlankId(p.query)
    && ValidRun(p.rustRun) && ValidRun(p.mfcRun)
    && ValidClient(p.rust) && ValidClient(p.mfc)
    && sch.nextCycle == p.cycle + 1
    && (p.outcome.None? ==> p.cycle == d.cycles + 1 && sch.nextSlot == d.cycles + d.skips + 2)
    && (p.outcome.Some? ==>
          && p.outcome.value.number == p.cycle && p.outcome.value.actionId == p.actionId
          && p.cycle == d.cycles && sch.nextSlot == d.cycles + d.skips + 1)
    && (p.evidence.Some? ==> p.outcome.Some? && Terminal(p.rust) && Terminal(p.mfc))
  }

  predicate ValidRetention(r: Retention, seen: nat) {
    r.seen <= seen && r.retained <= r.seen && r.omitted == r.seen - r.retained
  }

  /** Everything `validate_state` checks apart from the checkpoint stream's
      retained-window counters. */
  predicate ValidCore(s: State) {
    && ValidSummary(s.summary)
    && NonBlank(s.checkpoints.first) && NonBlank(s.checkpoints.latest)
    && s.scheduler.nextCycle > 0 && s.scheduler.nextSlot > 0
    && (s.pending.None? ==>
          && s.scheduler.nextCycle == s.driver.cycles + 1
          && s.scheduler.nextSlot == s.driver.cycles + s.driver.skips + 1)
    && (s.pending.Some? ==>
          && s.scheduler.nextActionAt.None?
          && ValidPending(s.pending.value, s.summary.nextSeq, s.driver, s.scheduler))
    && ValidRetention(s.actionRetention, s.summary.actions)
  }

  predicate Valid(s: State) {
    ValidCore(s) && ValidRetention(s.checkpointRetention, s.checkpoints.count)
  }

  const NO_RETENTION := Retention(0, 0, 0, 0)

  function NewState(campaign: string, actionLimit: nat, anomalyLimit: nat, target: nat): State {
    State(
      NewSummary(campaign, actionLimit, anomalyLimit, target), Checkpoints(0, None, None),
      Driver(0, 0, 0, 0, None, None), Scheduler(1, 1, None), None, NO_RETENTION, NO_RETENTION)
  }

  function Revalidated(s: State): Result<State> {
    if Valid(s) then Success(s) else Failure("validate_state")
  }

  // ----- Transitions ---------------------------------------------------------

  function RecordAction(s: State, r: Report): Result<State> {
    if !Valid(s) then Failure("validate_state")
    else if s.pending.Some? then Failure("pending reports require commit_action_report")
    else
      var summary :- FoldReport(s.summary, r);
      Success(s.(summary := summary))
  }

  function RecordCheckpoint(s: State, at: Stamp): Result<State> {
    if !Valid(s) then Failure("validate_state")
    else if at == Blank then Failure("checkpoint.ts_utc")
    else
      Success(s.(
        summary := s.summary.(observed := Update(s.summary.observed, at)),
        checkpoints := Checkpoints(
          s.checkpoints.count + 1, if s.checkpoints.first.None? then Some(at) else s.checkpoints.first, Some(at))))
  }

  function SetNextActionDeadline(s: State, at: Option<int>): Result<State> {
    if !Valid(s) then Failure("validate_state")
    else if at.Some? && s.pending.Some? then Failure("pending action cannot set a scheduler deadline")
    else Revalidated(s.(scheduler := s.scheduler.(nextActionAt := at)))
  }

  const NEW_CLIENT := ClientState(None, None, None)

  function ReserveDriverCycle(
    s: State, query: string, via: SearchMethod, reservedAt: int, rustRun: Run, mfcRun: Run): Result<State>
  {
    if !Valid(s) then Failure("validate_state")
    else if s.pending.Some? then Failure("already has a pending action")
    else if BlankId(query) then Failure("query")
    else if !ValidRun(rustRun) || !ValidRun(mfcRun) then Failure("diagnostic identity")
    else
      var cycle, slot := s.scheduler.nextCycle, s.scheduler.nextSlot;
      var pending := PendingAction(
        ActionId(s.summary.campaign, cycle), s.summary.nextSeq, cycle, slot - 1, query, via,
        reservedAt, rustRun, mfcRun, NEW_CLIENT, NEW_CLIENT, None, None);
      Revalidated(s.(scheduler := Scheduler(cycle + 1, slot + 1, None), pending := Some(pending)))
  }

  function WithClient(s: State, c: Client, v: ClientState): State
    requires s.pending.Some?
  {
    s.(pending := Some(s.pending.value.Set(c, v)))
  }

  function PrepareSearchCreate(s: State, c: Client, at: int): Result<State> {
    if !Valid(s) then Failure("validate_state")
    else if s.pending.None? then Failure("no pending action")
    else
      var client := s.pending.value.Get(c);
      if client.create.Some? then Failure("search create is already prepared")
      else Revalidated(WithClient(s, c, client.(create := Some(Prepared(at)))))
  }

  /** The outcome of one create phase: an identifier or an exact error. */
  datatype CreateOutcome = Created(searchId: string) | CreateError(error: Error)

  function CompleteSearchCreate(s: State, c: Client, at: int, outcome: CreateOutcome): Result<State> {
    if !Valid(s) then Failure("validate_state")
    else if s.pending.None? then Failure("no pending action")
    else
      var client := s.pending.value.Get(c);
      if client.create.None? || !client.create.value.Prepared? then Failure("search create is not prepared")
      else
        var preparedAt := client.create.value.preparedAt;
        match outcome
        case Created(id) =>
          if BlankId(id) then Failure("search_id")
          else Revalidated(WithClient(s, c, client.(create := Some(Succeeded(preparedAt, at, id)))))
        case CreateError(e) =>
          Revalidated(WithClient(s, c, client.(create := Some(Refused(preparedAt, at, e)))))
  }

  function SkipSearchCreate(s: State, c: Client, at: int, error: Error): Result<State> {
    if !Valid(s) then Failure("validate_state")
    else if s.pending.None? then Failure("no pending action")
    else
      var client := s.pending.value.Get(c);
      if client.create.Some? then Failure("search create is already prepared")
      else Revalidated(WithClient(s, c, client.(create := Some(Skipped(at, error)))))
  }

  function StartSearchResultsPoll(s: State, c: Client, startedAt: int, deadline: int): Result<State> {
    if !Valid(s) then Failure("validate_state")
    else if s.pending.None? then Failure("no pending action")
    else
      var client := s.pending.value.Get(c);
      if client.create.None? || !client.create.value.Succeeded? then Failure("poll requires a search ID")
      else if client.poll.Some? then Failure("poll is already active")
      else if client.results.Some? then Failure("results are already recorded")
      else if deadline <= startedAt then Failure("deadline must follow its start")
      else
        var poll := Poll(startedAt, deadline, startedAt, 0, 0, None, None, None, None, None);
        Revalidated(WithClient(s, c, client.(poll := Some(poll))))
  }

  /** One GET outcome: an error, or a page with its counts and completion flag. */
  datatype Page = PageError(error: Error) | PageRead(returned: nat, total: nat, completed: bool)

  function Close(p: Poll, at: int, completed: bool, error: Option<Error>, how: Termination): Results {
    Results(at, completed, p.lastReturned, p.lastTotal, error,
            ClosedPoll(p.startedAt, p.deadline, p.attempts, p.errors, p.latestAttempt, p.latestError, how))
  }

  function Observe(p: Poll, at: int, page: Page): Poll {
    match page
    case PageError(e) =>
      p.(attempts := p.attempts + 1, latestAttempt := Some(at), lastAttemptError := Some(e),
         errors := p.errors + 1, latestError := Some(e))
    case PageRead(returned, total, _) =>
      p.(attempts := p.attempts + 1, latestAttempt := Some(at), lastAttemptError := None,
         lastReturned := Some(returned), lastTotal := Some(total))
  }

  /** The client after one GET: rescheduled at `next`, or closed when there is none. */
  function AfterAttempt(client: ClientState, at: int, next: Option<int>, completed: bool, page: Page): ClientState
    requires client.poll.Some?
  {
    var seen := Observe(client.poll.value, at, page);
    if next.Some? then client.(poll := Some(seen.(nextAttempt := next.value)))
    else
      var how := if completed then ByCompletion else ByDeadline;
      client.(poll := None, results := Some(Close(seen, at, completed, seen.lastAttemptError, how)))
  }

  /** `completed` is the caller's verdict, which may be weaker than the page's own flag. */
  function RecordPollAttempt(
    s: State, c: Client, at: int, next: Option<int>, completed: bool, page: Page): Result<State>
  {
    if !Valid(s) then Failure("validate_state")
    else if s.pending.None? then Failure("no pending action")
    else
      var client := s.pending.value.Get(c);
      if client.poll.None? then Failure("poll is not active")
      else
        var p := client.poll.value;
        if at < p.nextAttempt then Failure("poll attempt is premature")
        else if page.PageRead? && page.total < page.returned then Failure("total smaller than page")
        else if completed && page.PageError? then Failure("completed results are inconsistent")
        else if completed || at >= p.deadline then
          if next.Some? then Failure("terminal poll cannot be rescheduled")
          else Revalidated(WithClient(s, c, AfterAttempt(client, at, None, completed, page)))
        else if next.None? then Failure("incomplete poll requires a next attempt")
        else if next.value <= at || next.value > p.deadline then Failure("next attempt is invalid")
        else Revalidated(WithClient(s, c, AfterAttempt(client, at, next, completed, page)))
  }

  function AfterExpiry(client: ClientState, at: int, error: Option<Error>): ClientState
    requires client.poll.Some?
  {
    var terminal := if error.Some? then error else client.poll.value.lastAttemptError;
    client.(poll := None, results := Some(Close(client.poll.value, at, false, terminal, ByExpiry)))
  }

  function ExpirePoll(s: State, c: Client, at: int, error: Option<Error>): Result<State> {
    if !Valid(s) then Failure("validate_state")
    else if s.pending.None? then Failure("no pending action")
    else
      var client := s.pending.value.Get(c);
      if client.poll.None? then Failure("poll is not active")
      else
        var p := client.poll.value;
        if at < p.deadline then Failure("poll has not expired")
        else if p.lastTotal.None? && error.None? && p.lastAttemptError.None? then
          Failure("expired poll requires counts or an exact error")
        else Revalidated(WithClient(s, c, AfterExpiry(client, at, error)))
  }

  predicate AllTerminal(p: PendingAction) {
    Terminal(p.rust) && Terminal(p.mfc)
  }

  function MarkEvidencePending(s: State, windowEnd: int): Result<State> {
    if !Valid(s) then Failure("validate_state")
    else if s.pending.None? then Failure("no pending action")
    else
      var p := s.pending.value;
      if p.outcome.None? then Failure("driver outcome is not recorded")
      else if p.evidence.Some? then Failure("evidence is already pending")
      else if !AllTerminal(p) then Failure("client outcomes are incomplete")
      else Revalidated(s.(pending := Some(p.(evidence := Some(windowEnd)))))
  }

  function CommitActionReport(s: State, r: Report): Result<State> {
    if !Valid(s) then Failure("validate_state")
    else if s.pending.None? then Failure("no pending action")
    else
      var p := s.pending.value;
      if p.outcome.None? || p.evidence.None? then Failure("pending action is not reportable")
      else if r.actionId != Named(p.actionId) then Failure("report identity")
      else if !EqualsNumber(r.seqNo, p.reportSeq) then Failure("report sequence")
      else if !EqualsNumber(r.cycle, p.cycle) then Failure("report cycle")
      else
        var summary :- FoldReport(s.summary, r);
        Revalidated(s.(summary := summary, pending := None))
  }

  function CountCycle(d: Driver, c: Cycle): Driver {
    d.(cycles := d.cycles + 1,
       cycleErrors := d.cycleErrors + (if !c.ok || c.errors != [] then 1 else 0),
       downloads := d.downloads + (if c.downloadScheduled then 1 else 0),
       latestCycle := Some(c))
  }

  function RecordDriverCycle(s: State, c: Cycle): Result<State> {
    if !Valid(s) then Failure("validate_state")
    else if c.number == 0 || c.number != s.driver.cycles + 1 then Failure("driver cycle is discontinuous")
    else if s.pending.None? then
      if s.scheduler.nextCycle != c.number then Failure("driver cycle is discontinuous")
      else
        Revalidated(s.(
          scheduler := s.scheduler.(nextCycle := c.number + 1, nextSlot := s.scheduler.nextSlot + 1),
          driver := CountCycle(s.driver, c)))
    else
      var p := s.pending.value;
      if p.cycle != c.number then Failure("pending cycle is inconsistent")
      else if c.actionId != p.actionId then Failure("pending action identity")
      else if p.outcome.Some? then Failure("driver cycle is already recorded")
      else if !AllTerminal(p) then Failure("driver cycle is premature")
      else Revalidated(s.(driver := CountCycle(s.driver, c), pending := Some(p.(outcome := Some(c)))))
  }

  function RecordConnectivitySkip(s: State, at: int, phase: string): Result<State> {
    if !Valid(s) then Failure("validate_state")
    else
      var slot := s.scheduler.nextSlot;
      Revalidated(s.(
        driver := s.driver.(skips := s.driver.skips + 1, latestSkip := Some(Skip(at, phase, slot))),
        scheduler := s.scheduler.(nextSlot := slot + 1)))
  }

  function Seen(s: State, stream: Stream): nat {
    match stream case Actions => s.summary.actions case CheckpointStream => s.checkpoints.count
  }

  /** `retained` is what the artifact store reports after a durable write. */
  function RecordStreamRetention(s: State, stream: Stream, retained: nat, bytes: nat): Result<State> {
    if !Valid(s) then Failure("validate_state")
    else
      var seen := Seen(s, stream);
      var entry := Retention(seen, retained, if seen >= retained then seen - retained else 0, bytes);
      Success(match stream
              case Actions => s.(actionRetention := entry)
              case CheckpointStream => s.(checkpointRetention := entry))
  }

  // ----- Exactly when each transition succeeds --------------------------------

  lemma NewStateValid(campaign: string, actionLimit: nat, anomalyLimit: nat, target: nat)
    requires actionLimit > 0 && anomalyLimit > 0 && target > 0
    ensures Valid(NewState(campaign, actionLimit, anomalyLimit, target))
  {
    hide NewSummary, ValidSummary;
    NewSummaryValid(campaign, actionLimit, anomalyLimit, target);
    NewSummaryZero(campaign, actionLimit, anomalyLimit, target);
  }

  /** The one transition besides the retention update that returns without a
      second validation and can leave an invalid state. */
  lemma RecordActionExact(s: State, r: Report)
    requires RecordAction(s, r).Success?
    ensures Valid(RecordAction(s, r).value) <==> Storable(s.summary.gate, r)
  {
    FoldKeepsValid(s.summary, r);
    FoldAccepts(s.summary, r);
  }

  lemma RecordCheckpointValid(s: State, at: Stamp)
    ensures RecordCheckpoint(s, at).Success? <==> Valid(s) && at != Blank
    ensures RecordCheckpoint(s, at).Success? ==> Valid(RecordCheckpoint(s, at).value)
  {
  }

  /** Retention keeps the state valid exactly when the store does not report
      more files than the state has counted. */
  lemma RetentionExact(s: State, stream: Stream, retained: nat, bytes: nat)
    requires Valid(s)
    ensures Valid(RecordStreamRetention(s, stream, retained, bytes).value) <==> retained <= Seen(s, stream)
  {
  }

  lemma DeadlineExact(s: State, at: Option<int>)
    ensures SetNextActionDeadline(s, at).Success? <==> Valid(s) && (at.Some? ==> s.pending.None?)
  {
  }

  /** A cycle can be reserved from every valid state with nothing pending. */
  lemma ReserveExact(s: State, query: string, via: SearchMethod, at: int, rustRun: Run, mfcRun: Run)
    ensures ReserveDriverCycle(s, query, via, at, rustRun, mfcRun).Success? <==>
      Valid(s) && s.pending.None? && !BlankId(query) && ValidRun(rustRun) && ValidRun(mfcRun)
  {
  }

  /** A skip is recorded exactly when no action is pending. */
  lemma SkipExact(s: State, at: int, phase: string)
    ensures RecordConnectivitySkip(s, at, phase).Success? <==> Valid(s) && s.pending.None?
  {
  }

  lemma PrepareExact(s: State, c: Client, at: int)
    ensures PrepareSearchCreate(s, c, at).Success? <==>
      Valid(s) && s.pending.Some? && s.pending.value.Get(c).create.None?
  {
  }

  lemma CompleteExact(s: State, c: Client, at: int, outcome: CreateOutcome)
    ensures CompleteSearchCreate(s, c, at, outcome).Success? <==>
      && Valid(s) && s.pending.Some?
      && s.pending.value.Get(c).create.Some? && s.pending.value.Get(c).create.value.Prepared?
      && (outcome.Created? ==> !BlankId(outcome.searchId))
  {
  }

  lemma SkipCreateExact(s: State, c: Client, at: int, error: Error)
    ensures SkipSearchCreate(s, c, at, error).Success? <==>
      Valid(s) && s.pending.Some? && s.pending.value.Get(c).create.None?
    ensures SkipSearchCreate(s, c, at, error).Success? ==>
      var t := SkipSearchCreate(s, c, at, error).value;
      && t == s.(pending := t.pending) && t.pending.Some? && SkippedIn(s.pending.value, t.pending.value, c, at, error)
  {
  }

  /** Only this client's create changed: it was skipped, with this error. */
  predicate SkippedIn(p: PendingAction, q: PendingAction, c: Client, at: int, error: Error) {
    var now := Some(Skipped(at, error));
    q == match c
         case Rust => p.(rust := ClientState(now, p.rust.poll, p.rust.results))
         case Mfc => p.(mfc := ClientState(now, p.mfc.poll, p.mfc.results))
  }

  predicate AwaitsPoll(c: ClientState) {
    c.create.Some? && c.create.value.Succeeded? && c.poll.None? && c.results.None?
  }

  lemma StartPollExact(s: State, c: Client, startedAt: int, deadline: int)
    ensures StartSearchResultsPoll(s, c, startedAt, deadline).Success? <==>
      && Valid(s) && s.pending.Some? && AwaitsPoll(s.pending.value.Get(c))
      && s.pending.value.Get(c).create.value.completedAt <= startedAt < deadline
  {
  }

  /** What a caller must respect for a GET outcome to be recordable. */
  predicate Recordable(p: Poll, at: int, next: Option<int>, completed: bool, page: Page) {
    && p.nextAttempt <= at
    && (page.PageRead? ==> page.returned <= page.total)
    && (completed ==> page.PageRead?)
    && (if completed || at >= p.deadline then next.None? else next.Some? && at < next.value <= p.deadline)
  }

  lemma ClientSwap(s: State, c: Client, v: ClientState)
    requires Valid(s) && s.pending.Some? && s.pending.value.evidence.None?
    ensures Valid(WithClient(s, c, v)) <==> ValidClient(v)
  {
  }

  lemma AttemptKeepsValid(v: ClientState, at: int, next: Option<int>, completed: bool, page: Page)
    requires ValidClient(v) && v.poll.Some? && Recordable(v.poll.value, at, next, completed, page)
    ensures ValidClient(AfterAttempt(v, at, next, completed, page))
  {
  }

  /** The final validation of a poll attempt never refuses what the guards accept. */
  lemma AttemptExact(s: State, c: Client, at: int, next: Option<int>, completed: bool, page: Page)
    ensures RecordPollAttempt(s, c, at, next, completed, page).Success? <==>
      && Valid(s) && s.pending.Some? && s.pending.value.Get(c).poll.Some?
      && Recordable(s.pending.value.Get(c).poll.value, at, next, completed, page)
  {
    if Valid(s) && s.pending.Some? && s.pending.value.Get(c).poll.Some? {
      var v := s.pending.value.Get(c);
      assert !Terminal(v) && ValidClient(v) && s.pending.value.evidence.None?;
      if Recordable(v.poll.value, at, next, completed, page) {
        AttemptKeepsValid(v, at, next, completed, page);
        ClientSwap(s, c, AfterAttempt(v, at, next, completed, page));
      }
    }
    hide Valid, ValidClient, AfterAttempt;
  }

  lemma ExpireExact(s: State, c: Client, at: int, error: Option<Error>)
    ensures ExpirePoll(s, c, at, error).Success? <==>
      && Valid(s) && s.pending.Some? && s.pending.value.Get(c).poll.Some?
      && s.pending.value.Get(c).poll.value.deadline <= at
      && (error.Some? || s.pending.value.Get(c).poll.value.attempts > 0)
  {
  }

  /** With an action pending only its own cycle is recorded, once both clients are
      terminal; with none pending, the next cycle is. */
  lemma CycleExact(s: State, c: Cycle)
    ensures RecordDriverCycle(s, c).Success? <==>
      && Valid(s) && c.number == s.driver.cycles + 1
      && (s.pending.Some? ==>
            && s.pending.value.outcome.None? && AllTerminal(s.pending.value)
            && c.number == s.pending.value.cycle && c.actionId == s.pending.value.actionId)
    ensures RecordDriverCycle(s, c).Success? ==>
      var t := RecordDriverCycle(s, c).value;
      && (s.pending.Some? ==> t.scheduler == s.scheduler && t.pending == Some(s.pending.value.(outcome := Some(c))))
      && (s.pending.None? ==> t.pending.None? && t.scheduler.nextActionAt == s.scheduler.nextActionAt)
      && CycleCounted(s.driver, t.driver, c)
  {
  }

  /** One more cycle, a failed one if it is not ok or has errors, and it is the latest. */
  predicate CycleCounted(d: Driver, e: Driver, c: Cycle) {
    && e.cycles == d.cycles + 1 && e.latestCycle == Some(c) && e.skips == d.skips && e.latestSkip == d.latestSkip
    && e.cycleErrors == (if c.ok && c.errors == [] then d.cycleErrors else d.cycleErrors + 1)
    && e.downloads == (if c.downloadScheduled then d.downloads + 1 else d.downloads)
  }

  lemma EvidenceExact(s: State, windowEnd: int)
    ensures MarkEvidencePending(s, windowEnd).Success? <==>
      && Valid(s) && s.pending.Some? && s.pending.value.outcome.Some?
      && s.pending.value.evidence.None? && AllTerminal(s.pending.value)
  {
  }

  /** The commit accepts exactly the storable reports that name the pending action. */
  lemma CommitExact(s: State, r: Report)
    ensures CommitActionReport(s, r).Success? <==>
      && Valid(s) && s.pending.Some? && s.pending.value.outcome.Some? && s.pending.value.evidence.Some?
      && r.actionId == Named(s.pending.value.actionId) && EqualsNumber(r.seqNo, s.pending.value.reportSeq)
      && EqualsNumber(r.cycle, s.pending.value.cycle) && r.campaign == s.summary.campaign
      && Storable(s.summary.gate, r)
  {
    FoldAccepts(s.summary, r);
    if Valid(s) && FoldReport(s.summary, r).Success? {
      FoldKeepsValid(s.summary, r);
    }
  }
}
