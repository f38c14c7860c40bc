/** The invariant of every run of the observer protocol. */
module ObserverSafety {
  import opened Wrappers
  import opened ObserverSummary
  import opened ObserverState
  import opened ObserverSchedule
  import opened ObserverRun

  // ----- The durable state ------------------------------------------------------

  /** Attempts a poll may record: one at once, then one every two seconds. */
  predicate WithinBudget(cfg: Config, attempts: nat) {
    attempts == 0 || POLL_INTERVAL * (attempts - 1) < cfg.timeout
  }

  predicate ClientOk(cfg: Config, c: ClientState, now: int) {
    && (c.create.Some? && c.create.value.Succeeded? ==> c.create.value.completedAt <= now)
    && (c.poll.Some? ==>
          && c.create.Some? && c.create.value.Succeeded? && c.results.None?
          && c.poll.value.startedAt == c.create.value.completedAt
          && c.poll.value.deadline == c.poll.value.startedAt + cfg.timeout
          && WithinBudget(cfg, c.poll.value.attempts)
          && (c.poll.value.nextAttempt == c.poll.value.deadline
              || c.poll.value.nextAttempt >= c.poll.value.startedAt + POLL_INTERVAL * c.poll.value.attempts))
    && (c.results.Some? ==> WithinBudget(cfg, c.results.value.poll.attempts))
  }

  /** Either both creates are still empty or both have begun. */
  predicate CreatesInStep(p: PendingAction) {
    p.rust.create.None? <==> p.mfc.create.None?
  }

  predicate PendingOk(cfg: Config, p: PendingAction, now: int) {
    && p.actionId == ActionId(cfg.campaign, p.cycle)
    && p.reportSeq == p.cycle
    && p.reservedAt <= now
    && CreatesInStep(p)
    && (p.rust.create.None? || IsPrepared(p.rust) || IsPrepared(p.mfc) ==> FreshClient(p.rust) && FreshClient(p.mfc))
    && ClientOk(cfg, p.rust, now) && ClientOk(cfg, p.mfc, now)
    && (p.outcome.Some? ==> AllTerminal(p) && p.reservedAt <= p.outcome.value.completedAt <= now)
    && (p.evidence.Some? ==> p.outcome.Some? && p.evidence.value == p.outcome.value.completedAt)
  }

  function Owed(p: Option<PendingAction>): nat {
    if p.Some? && p.value.outcome.Some? then 1 else 0
  }

  predicate StateOk(cfg: Config, s: State, now: int) {
    && ValidCore(s)
    && s.summary.campaign == cfg.campaign
    && s.summary.gate.targets == PerMethod(cfg.target, cfg.target)
    && s.summary.actions + Owed(s.pending) == s.driver.cycles
    && (s.pending.Some? ==> PendingOk(cfg, s.pending.value, now))
  }

  // ----- The process -------------------------------------------------------------

  predicate FreshClient(c: ClientState) {
    c.poll.None? && c.results.None?
  }

  /** Both creates were persisted as prepared by this process, and the first
      `c` of them have recorded outcomes. */
  predicate Issuing(s: State, c: Client) {
    && s.pending.Some? && s.pending.value.outcome.None?
    && IsPrepared(s.pending.value.mfc) && FreshClient(s.pending.value.mfc) && FreshClient(s.pending.value.rust)
    && match c
       case Rust => IsPrepared(s.pending.value.rust)
       case Mfc => s.pending.value.rust.create.Some? && !IsPrepared(s.pending.value.rust)
  }

  predicate SomePollDue(p: PendingAction, now: int) {
    || (p.rust.poll.Some? && p.rust.poll.value.nextAttempt <= now)
    || (p.mfc.poll.Some? && p.mfc.poll.value.nextAttempt <= now)
  }

  predicate Armed(cfg: Config, s: State) {
    s.scheduler.nextActionAt.Some? <==> cfg.enabled && s.pending.None?
  }

  predicate PcOk(cfg: Config, w: World) {
    && (w.pc != Down && w.pc != Idle ==> Valid(w.disk))
    && match w.pc
       case Down => true
       case Idle => Armed(cfg, w.disk)
       case Checkpointing => Armed(cfg, w.disk)
       case Driving =>
         && cfg.enabled
         && (w.disk.pending.None? ==>
               w.disk.scheduler.nextActionAt.Some? && w.disk.scheduler.nextActionAt.value <= w.now)
         && (PhaseOf(w.disk.pending) == Polling ==> SomePollDue(w.disk.pending.value, w.now))
       case Sending(c, n) => cfg.enabled && n <= 1 && Issuing(w.disk, c)
       case Awaiting(c, n) => cfg.enabled && n <= 1 && Issuing(w.disk, c)
       case Holding(c, outcome) =>
         cfg.enabled && Issuing(w.disk, c) && (outcome.Created? ==> outcome.searchId != "")
       case Driven => cfg.enabled
  }

  // ----- Preservation of the durable state -----------------------------------------

  predicate Core(cfg: Config, w: World) {
    StateOk(cfg, w.disk, w.now) && PcOk(cfg, w)
  }

  lemma LaterState(cfg: Config, s: State, now: int, later: int)
    requires StateOk(cfg, s, now) && now <= later
    ensures StateOk(cfg, s, later)
  {
  }

  lemma LoopCore(cfg: Config, w: World, e: Event)
    requires ValidConfig(cfg) && Core(cfg, w) && Enabled(cfg, w, e) && ApplyLoop(cfg, w, e).Success?
    ensures Core(cfg, ApplyLoop(cfg, w, e).value.(now := EndOf(e)))
  {
    LaterState(cfg, w.disk, w.now, EndOf(e));
  }

  lemma ProbeCore(cfg: Config, w: World, e: Event)
    requires ValidConfig(cfg) && Core(cfg, w) && Enabled(cfg, w, e) && e.Probe?
    requires ApplyProbe(cfg, w, e.at, e.probe).Success?
    ensures Core(cfg, ApplyProbe(cfg, w, e.at, e.probe).value.(now := EndOf(e)))
  {
    hide ScheduledAction;
    LaterState(cfg, w.disk, w.now, EndOf(e));
  }

  lemma PrepareCore(cfg: Config, w: World, e: Event)
    requires ValidConfig(cfg) && Core(cfg, w) && Enabled(cfg, w, e) && PhaseOf(w.disk.pending) == Preparing
    requires (e.CloseAmbiguous? || e.SkipPeer? || e.Prepare?) && ApplyRecovery(w, e.at).Success?
    ensures Core(cfg, ApplyRecovery(w, e.at).value.(now := EndOf(e)))
  {
    hide CompleteSearchCreate, SkipSearchCreate;
    LaterState(cfg, w.disk, w.now, EndOf(e));
  }

  lemma RecoveryCore(cfg: Config, w: World, e: Event)
    requires ValidConfig(cfg) && Core(cfg, w) && Enabled(cfg, w, e) && (e.CloseAmbiguous? || e.SkipPeer? || e.Prepare?)
    requires ApplyRecovery(w, e.at).Success?
    ensures Core(cfg, ApplyRecovery(w, e.at).value.(now := EndOf(e)))
  {
    hide PrepareSearchCreate;
    LaterState(cfg, w.disk, w.now, EndOf(e));
    if PhaseOf(w.disk.pending) == Preparing {
      PrepareCore(cfg, w, e);
    }
  }

  lemma SendCore(cfg: Config, w: World, e: Event)
    requires ValidConfig(cfg) && Core(cfg, w) && Enabled(cfg, w, e) && (e.Send? || e.Receive?)
    requires ApplyExchange(w, e).Success?
    ensures Core(cfg, ApplyExchange(w, e).value.(now := EndOf(e)))
  {
    LaterState(cfg, w.disk, w.now, EndOf(e));
  }

  lemma RecordCreateCore(cfg: Config, w: World, e: Event)
    requires ValidConfig(cfg) && Core(cfg, w) && Enabled(cfg, w, e) && e.RecordCreate?
    requires ApplyExchange(w, e).Success?
    ensures Core(cfg, ApplyExchange(w, e).value.(now := EndOf(e)))
  {
    LaterState(cfg, w.disk, w.now, EndOf(e));
    var c, outcome := w.pc.client, w.pc.outcome;
    var s := CompleteSearchCreate(w.disk, c, e.at, outcome).value;
    assert s == WithClient(w.disk, c, s.pending.value.Get(c));
  }

  lemma StartOneOk(cfg: Config, s: State, c: Client, now: int)
    requires ValidConfig(cfg) && StateOk(cfg, s, now) && StartOne(cfg, s, c).Success?
    requires s.pending.Some? && s.pending.value.outcome.None? && s.pending.value.rust.create.Some?
    requires !IsPrepared(s.pending.value.rust) && !IsPrepared(s.pending.value.mfc)
    ensures
      var t := StartOne(cfg, s, c).value;
      && StateOk(cfg, t, now) && (Valid(s) ==> Valid(t))
      && t.pending.Some? && t.pending.value.outcome.None? && t.pending.value.rust.create.Some?
      && !IsPrepared(t.pending.value.rust) && !IsPrepared(t.pending.value.mfc)
      && !AwaitsPoll(t.pending.value.Get(c))
      && (forall d :: d != c ==> t.pending.value.Get(d) == s.pending.value.Get(d))
      && (AwaitsPoll(s.pending.value.Get(c)) ==>
            && t.pending.value.Get(c).poll.Some?
            && t.pending.value.Get(c).poll.value.nextAttempt <= now)
      && (!AwaitsPoll(s.pending.value.Get(c)) ==> t == s)
  {
  }

  lemma StartPollsCore(cfg: Config, w: World, e: Event)
    requires ValidConfig(cfg) && Core(cfg, w) && Enabled(cfg, w, e) && e.StartPolls?
    requires ApplyPolls(cfg, w, e).Success?
    ensures Core(cfg, ApplyPolls(cfg, w, e).value.(now := EndOf(e)))
  {
    LaterState(cfg, w.disk, w.now, e.at);
    StartOneOk(cfg, w.disk, Rust, e.at);
    var one := StartOne(cfg, w.disk, Rust).value;
    StartOneOk(cfg, one, Mfc, e.at);
    var two := StartOne(cfg, one, Mfc).value;
    hide StartOne, ValidCore, Valid;
    assert ApplyPolls(cfg, w, e).value == w.(disk := two);
  }

  lemma SetClientOk(cfg: Config, s: State, c: Client, v: ClientState, now: int)
    requires StateOk(cfg, s, now) && s.pending.Some? && s.pending.value.outcome.None? && s.pending.value.evidence.None?
    requires s.pending.value.Get(c).create.Some? && !IsPrepared(s.pending.value.rust)
    requires !IsPrepared(s.pending.value.mfc)
    requires v.create == s.pending.value.Get(c).create
    requires ClientOk(cfg, v, now) && ValidCore(WithClient(s, c, v))
    ensures StateOk(cfg, WithClient(s, c, v), now)
  {
  }

  lemma AttemptOk(cfg: Config, c: ClientState, at: int, next: Option<int>, completed: bool, page: Page, now: int)
    requires ValidConfig(cfg) && ClientOk(cfg, c, now) && c.poll.Some?
    requires c.poll.value.nextAttempt < c.poll.value.deadline
    requires now <= at
    requires next.Some? ==>
      next.value == c.poll.value.deadline || next.value >= c.poll.value.nextAttempt + POLL_INTERVAL
    ensures ClientOk(cfg, AfterAttempt(c, at, next, completed, page), at)
  {
    var n := c.poll.value.attempts;
    assert POLL_INTERVAL * (n + 1) == POLL_INTERVAL * n + POLL_INTERVAL;
    assert WithinBudget(cfg, n + 1);
  }

  lemma ServedClientOk(cfg: Config, s: State, c: Client, at: int, read: int, answer: GetAnswer, now: int)
    requires ValidConfig(cfg) && StateOk(cfg, s, now) && now <= at <= read && ServePoll(s, c, at, read, answer).Success?
    requires s.pending.value.Get(c).poll.value.nextAttempt <= at
    ensures
      var t := ServePoll(s, c, at, read, answer).value;
      && Valid(t) && t.pending.Some?
      && t == WithClient(s, c, t.pending.value.Get(c))
      && t.pending.value.Get(c).create == s.pending.value.Get(c).create
      && ClientOk(cfg, t.pending.value.Get(c), read)
  {
    hide Valid, ValidCore;
    var v := s.pending.value.Get(c);
    if at < v.poll.value.deadline {
      var page := answer.page;
      var completed := page.PageRead? && page.completed && read < v.poll.value.deadline;
      var later := read + POLL_INTERVAL;
      var next := if later <= v.poll.value.deadline then later else v.poll.value.deadline;
      AttemptOk(cfg, v, read, Some(next), completed, page, now);
      AttemptOk(cfg, v, read, None, completed, page, now);
    }
  }

  lemma ServePollOk(cfg: Config, s: State, c: Client, at: int, read: int, answer: GetAnswer, now: int)
    requires ValidConfig(cfg) && StateOk(cfg, s, now) && now <= at <= read && ServePoll(s, c, at, read, answer).Success?
    requires s.pending.value.Get(c).poll.value.nextAttempt <= at
    requires PhaseOf(s.pending) == Polling
    ensures
      var t := ServePoll(s, c, at, read, answer).value;
      StateOk(cfg, t, read) && Valid(t) && t.pending.Some? && t.pending.value.outcome.None?
  {
    LaterState(cfg, s, now, read);
    ServedClientOk(cfg, s, c, at, read, answer, now);
    hide ServePoll;
    SetClientOk(cfg, s, c, ServePoll(s, c, at, read, answer).value.pending.value.Get(c), read);
  }

  lemma PollOnceCore(cfg: Config, w: World, e: Event)
    requires ValidConfig(cfg) && Core(cfg, w) && Enabled(cfg, w, e) && e.PollOnce?
    requires ApplyPolls(cfg, w, e).Success?
    ensures Core(cfg, ApplyPolls(cfg, w, e).value.(now := EndOf(e)))
  {
    var served := Served(w.disk.pending.value, e.at, e.second);
    if served.Some? {
      LaterState(cfg, w.disk, w.now, served.value.1);
      ServePollOk(cfg, w.disk, served.value.0, served.value.1, e.read, e.answer, served.value.1);
      hide ServePoll, ValidCore, Valid, StateOk;
      assert PcOk(cfg, ApplyPolls(cfg, w, e).value.(now := EndOf(e)));
    }
  }

  lemma ClosingCore(cfg: Config, w: World, e: Event)
    requires ValidConfig(cfg) && Core(cfg, w) && Enabled(cfg, w, e)
    requires (e.CloseCycle? || e.MarkEvidence? || e.StoreReport?)
    requires ApplyClosing(w, e).Success?
    ensures Core(cfg, ApplyClosing(w, e).value.(now := EndOf(e)))
  {
    LaterState(cfg, w.disk, w.now, EndOf(e));
  }

  // ----- Requests on the wire ---------------------------------------------------------

  /** The order in which one process issues requests: client by client, a retry
      after its first try. */
  predicate Before(d: Client, a: nat, c: Client, n: nat) {
    match c
    case Rust => d == Rust && a < n
    case Mfc => d == Rust || a < n
  }

  predicate PostAllowed(p: PendingAction, pc: Pc, d: Client, a: nat) {
    && p.rust.create.Some?
    && match pc
       case Sending(c, n) => Before(d, a, c, n)
       case Awaiting(c, n) => Before(d, a, c, n + 1)
       case Holding(c, _) => Before(d, a, c, 2)
       case _ => true
  }

  predicate PostsOk(w: World) {
    && (forall i, j :: 0 <= i < j < |w.log| && w.log[i].Post? ==> w.log[i] != w.log[j])
    && (forall i :: 0 <= i < |w.log| && w.log[i].Post? ==>
          && w.log[i].attempt <= 1
          && w.log[i].cycle < w.disk.scheduler.nextCycle
          && (w.log[i].attempt == 1 ==> PostFailed(w.log[i].cycle, w.log[i].client) in w.log[..i])
          && (w.disk.pending.Some? && w.log[i].cycle == w.disk.pending.value.cycle ==>
                PostAllowed(w.disk.pending.value, w.pc, w.log[i].client, w.log[i].attempt)))
    && (w.pc.Sending? && w.pc.attempt == 1 && w.disk.pending.Some? ==>
          PostFailed(w.disk.pending.value.cycle, w.pc.client) in w.log)
    && (w.pc.Awaiting? && w.pc.attempt == 1 && w.disk.pending.Some? ==>
          PostFailed(w.disk.pending.value.cycle, w.pc.client) in w.log)
  }

  /** A move of the world that sends no request. */
  predicate QuietMove(w: World, v: World) {
    && w.log <= v.log && |v.log| <= |w.log| + 1
    && (|v.log| > |w.log| ==> !v.log[|w.log|].Post?)
    && w.disk.scheduler.nextCycle <= v.disk.scheduler.nextCycle
    && (v.disk.pending.Some? ==>
          || (w.disk.pending.Some? && v.disk.pending.value.cycle == w.disk.pending.value.cycle
              && (w.disk.pending.value.rust.create.Some? ==> v.disk.pending.value.rust.create.Some?))
          || v.disk.pending.value.cycle == w.disk.scheduler.nextCycle)
  }

  lemma QuietPosts(w: World, v: World)
    requires PostsOk(w) && QuietMove(w, v)
    requires !v.pc.Sending? && !v.pc.Awaiting? && !v.pc.Holding?
    ensures PostsOk(v)
  {
    assert forall i :: 0 <= i < |w.log| ==> v.log[i] == w.log[i] && v.log[..i] == w.log[..i];
  }

  lemma PrepareMoves(w: World, at: int)
    requires PhaseOf(w.disk.pending) == Preparing && ApplyRecovery(w, at).Success?
    ensures
      var v := ApplyRecovery(w, at).value;
      && v == w.(disk := v.disk, pc := Sending(Rust, 0)) && v.disk.scheduler == w.disk.scheduler
      && v.disk.pending.Some? && v.disk.pending.value.cycle == w.disk.pending.value.cycle
      && v.disk.pending.value.rust.create.Some?
  {
  }

  /** Recovering and preparing send nothing; preparing starts from a cycle for
      which nothing was ever sent. */
  lemma RecoveryPosts(w: World, e: Event)
    requires PostsOk(w) && w.pc == Driving && (e.CloseAmbiguous? || e.SkipPeer? || e.Prepare?)
    requires ApplyRecovery(w, e.at).Success?
    ensures PostsOk(ApplyRecovery(w, e.at).value.(now := EndOf(e)))
  {
    var v := ApplyRecovery(w, e.at).value.(now := EndOf(e));
    if PhaseOf(w.disk.pending) == Preparing {
      PrepareMoves(w, e.at);
    } else {
      QuietPosts(w, v);
    }
  }

  lemma SendPosts(cfg: Config, w: World, e: Event)
    requires Core(cfg, w) && PostsOk(w) && Enabled(cfg, w, e) && e.Send? && ApplyExchange(w, e).Success?
    ensures PostsOk(ApplyExchange(w, e).value.(now := EndOf(e)))
  {
    var v := ApplyExchange(w, e).value.(now := EndOf(e));
    assert forall i :: 0 <= i < |w.log| ==> v.log[i] == w.log[i] && v.log[..i] == w.log[..i];
    assert v.log[..|w.log|] == w.log;
  }

  lemma ReceivePosts(cfg: Config, w: World, e: Event)
    requires Core(cfg, w) && PostsOk(w) && Enabled(cfg, w, e) && e.Receive? && ApplyExchange(w, e).Success?
    ensures PostsOk(ApplyExchange(w, e).value.(now := EndOf(e)))
  {
    var v := ApplyExchange(w, e).value.(now := EndOf(e));
    assert forall i :: 0 <= i < |w.log| ==> v.log[i] == w.log[i] && v.log[..i] == w.log[..i];
    if |v.log| > |w.log| {
      assert v.log[|w.log|] == PostFailed(w.disk.pending.value.cycle, w.pc.client);
    }
  }

  lemma RecordCreatePosts(cfg: Config, w: World, e: Event)
    requires Core(cfg, w) && PostsOk(w) && Enabled(cfg, w, e) && e.RecordCreate? && ApplyExchange(w, e).Success?
    ensures PostsOk(ApplyExchange(w, e).value.(now := EndOf(e)))
  {
    hide Valid, ValidCore;
    var v := ApplyExchange(w, e).value.(now := EndOf(e));
    assert v.log == w.log;
  }

  lemma LoopQuiet(cfg: Config, w: World, e: Event)
    requires ApplyLoop(cfg, w, e).Success?
    ensures QuietMove(w, ApplyLoop(cfg, w, e).value)
    ensures var v := ApplyLoop(cfg, w, e).value; v.pc == Idle || v.pc == Checkpointing || v.pc == Driving
    ensures ApplyLoop(cfg, w, e).value.log == w.log && ApplyLoop(cfg, w, e).value.reports == w.reports
    ensures
      var v := ApplyLoop(cfg, w, e).value;
      && v.disk.pending == w.disk.pending && v.disk.driver == w.disk.driver
      && v.disk.scheduler == w.disk.scheduler.(nextActionAt := v.disk.scheduler.nextActionAt)
      && v.disk.summary == w.disk.summary.(observed := v.disk.summary.observed)
  {
  }

  lemma ProbeQuiet(cfg: Config, w: World, e: Event)
    requires e.Probe? && ApplyProbe(cfg, w, e.at, e.probe).Success?
    ensures QuietMove(w, ApplyProbe(cfg, w, e.at, e.probe).value)
    ensures var v := ApplyProbe(cfg, w, e.at, e.probe).value; v.pc == w.pc || v.pc == Driven
  {
  }

  predicate OnlyPolls(s: State, t: State, c: Client) {
    && s.pending.Some? && t.pending.Some?
    && t == WithClient(s, c, t.pending.value.Get(c))
    && t.pending.value.Get(c).create == s.pending.value.Get(c).create
  }

  lemma StartOneShape(cfg: Config, s: State, c: Client)
    requires StartOne(cfg, s, c).Success?
    ensures OnlyPolls(s, StartOne(cfg, s, c).value, c)
  {
    hide Valid;
  }

  lemma ServePollShape(s: State, c: Client, at: int, read: int, answer: GetAnswer)
    requires ServePoll(s, c, at, read, answer).Success?
    ensures OnlyPolls(s, ServePoll(s, c, at, read, answer).value, c)
  {
    hide Valid;
  }

  lemma PollsQuiet(cfg: Config, w: World, e: Event)
    requires ApplyPolls(cfg, w, e).Success?
    ensures QuietMove(w, ApplyPolls(cfg, w, e).value)
    ensures
      var v := ApplyPolls(cfg, w, e).value;
      && (v.pc == w.pc || v.pc == Driven || v.pc == Driving) && v.log == w.log && v.reports == w.reports
      && v.disk == w.disk.(pending := v.disk.pending)
      && w.disk.pending.Some? && v.disk.pending.Some?
      && v.disk.pending.value.evidence == w.disk.pending.value.evidence
      && v.disk.pending.value.outcome == w.disk.pending.value.outcome
  {
    match e
    case StartPolls(_) =>
      StartOneShape(cfg, w.disk, Rust);
      StartOneShape(cfg, StartOne(cfg, w.disk, Rust).value, Mfc);
      hide StartOne;
    case PollOnce(at, second, read, answer) =>
      var served := Served(w.disk.pending.value, at, second);
      if served.Some? {
        ServePollShape(w.disk, served.value.0, served.value.1, read, answer);
      }
      hide ServePoll;
    case _ =>
  }

  lemma ReportFails(w: World, at: int)
    ensures ApplyClosing(w, FailReport(at)).Failure?
  {
  }

  lemma ClosingQuiet(w: World, e: Event)
    requires ApplyClosing(w, e).Success?
    ensures QuietMove(w, ApplyClosing(w, e).value)
    ensures var v := ApplyClosing(w, e).value; v.pc == w.pc || v.pc == Driven
  {
  }
}
