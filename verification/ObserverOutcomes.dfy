/** What the durable records of a run say, and of which events they say it. */
module ObserverOutcomes {
  import opened Wrappers
  import opened ObserverSummary
  import opened ObserverState
  import opened ObserverRun
  import opened ObserverSafety
  import opened ObserverLedger
  import opened ObserverTheorems
  import opened ObserverProgress
  import opened ObserverCheckpoints
  import opened ObserverProtocol

  // ----- What leaves what alone ----------------------------------------------------------------

  lemma LoopFrame(cfg: Config, w: World, e: Event)
    ensures
      var v := PlainLoop(cfg, w, e);
      v.disk.pending == w.disk.pending && v.disk.driver == w.disk.driver && v.log == w.log && v.reports == w.reports
  {
  }

  lemma PollFrame(p: PendingAction, e: Event)
    requires e.PollOnce?
    ensures
      var q := AfterPoll(p, e);
      q == p.(rust := q.rust, mfc := q.mfc)
  {
  }

  /** A drive changes the clients of the pending action, marks its evidence, or ends it. */
  lemma DriveFrame(cfg: Config, w: World, p: PendingAction, e: Event)
    requires w.disk.pending == Some(p) && !e.CloseCycle?
    ensures
      var v := PlainDrive(cfg, w, p, e);
      && v.disk.driver == w.disk.driver
      && (v.disk.pending.None? ==> e.Commit?)
      && (v.disk.pending.Some? ==>
            var q := v.disk.pending.value;
            q == p.(rust := q.rust, mfc := q.mfc, evidence := q.evidence))
      && (e.MarkEvidence? || e.StoreReport? || e.FailReport? || (e.Commit? && v.disk.pending.Some?) ==>
            v.disk.pending.value.rust == p.rust && v.disk.pending.value.mfc == p.mfc)
      && (v.log == w.log || exists x: Effect :: v.log == w.log + [x] && !x.Reserved?)
  {
    hide AfterPoll, Opened, Folded;
    if e.PollOnce? {
      PollFrame(p, e);
    }
    var v := PlainDrive(cfg, w, p, e);
    if v.log != w.log {
      var x := v.log[|w.log|];
      assert v.log == w.log + [x] && !x.Reserved?;
    }
  }

  // ----- Driver cycles -----------------------------------------------------------------------

  /** The outcome of the pending action is that of its two clients, which nothing changes
      any more: all went well or these are the errors, the first client's first. */
  predicate OutcomeReads(p: PendingAction) {
    p.outcome.Some? ==>
      var c := p.outcome.value;
      && c.number == p.cycle && c.actionId == p.actionId && !c.downloadScheduled
      && (c.ok <==> Fine(p.rust) && Fine(p.mfc))
      && c.errors == Reported(p.rust) + Reported(p.mfc)
      && (c.ok <==> c.errors == [])
  }

  predicate CycleReads(s: State) {
    s.pending.Some? ==>
      && OutcomeReads(s.pending.value)
      && (s.pending.value.outcome.Some? ==> s.driver.latestCycle == s.pending.value.outcome)
  }

  /** The event closes a cycle in which a create or a search failed. */
  predicate ClosesFailed(w: World, e: Event) {
    e.CloseCycle? && w.disk.pending.Some? && !(Fine(w.disk.pending.value.rust) && Fine(w.disk.pending.value.mfc))
  }

  function FailedCycles(ws: seq<World>, es: seq<Event>, n: nat): nat
    requires n <= |es| && |ws| == |es| + 1
  {
    if n == 0 then 0 else FailedCycles(ws, es, n - 1) + (if ClosesFailed(ws[n - 1], es[n - 1]) then 1 else 0)
  }

  lemma InvDone(cfg: Config, w: World)
    requires Inv(cfg, w) && w.disk.pending.Some? && w.disk.pending.value.outcome.Some?
    ensures !w.pc.Sending? && !w.pc.Awaiting? && !w.pc.Holding?
    ensures PhaseOf(w.disk.pending) == Marking || PhaseOf(w.disk.pending) == Finalizing
  {
    hide ValidCore, Valid, ClientOk, Ledger, PostsOk;
  }

  lemma CloseFacts(cfg: Config, w: World, e: Event)
    requires Enabled(cfg, w, e) && e.CloseCycle?
    ensures w.disk.pending.Some? && AllTerminal(w.disk.pending.value) && Accepts(cfg, w, e)
    ensures !w.disk.pending.value.outcome.Some?
  {
  }

  lemma ProbeFacts(cfg: Config, w: World, e: Event)
    requires Enabled(cfg, w, e) && e.Probe?
    ensures w.disk.pending.None?
  {
  }

  /** With an outcome recorded only evidence, report and commit are left to do. */
  lemma OnlyClosingSteps(cfg: Config, w: World, e: Event)
    requires Inv(cfg, w) && Enabled(cfg, w, e) && w.disk.pending.Some? && w.disk.pending.value.outcome.Some?
    ensures e.Crash? || LoopEvent(e) || e.MarkEvidence? || e.StoreReport? || e.FailReport? || e.Commit?
  {
    hide Inv, ReportFor, Valid;
    InvDone(cfg, w);
  }

  lemma ProbedDriver(cfg: Config, w: World, at: int, probe: ProbeResult)
    requires cfg.terms != [] && w.disk.scheduler.nextSlot > 0 && !probe.ProbeEscapes?
    ensures
      var v := Probed(cfg, w, at, probe);
      && v.disk.driver.cycleErrors == w.disk.driver.cycleErrors && v.disk.driver.downloads == w.disk.driver.downloads
      && (v.disk.pending.Some? && w.disk.pending.None? ==> v.disk.pending.value.outcome.None?)
  {
    hide Asked, Usable;
  }

  lemma CycleStep(cfg: Config, w: World, e: Event)
    requires Inv(cfg, w) && Enabled(cfg, w, e) && CycleReads(w.disk)
    ensures
      var v := PlainStep(cfg, w, e);
      && CycleReads(v.disk)
      && v.disk.driver.cycleErrors == w.disk.driver.cycleErrors + (if ClosesFailed(w, e) then 1 else 0)
      && v.disk.driver.downloads == w.disk.driver.downloads
  {
    hide Inv, Enabled, Accepts, Fine, Reported, PlainLoop, PlainDrive, Probed;
    LoopFrame(cfg, w, e);
    if e.Probe? {
      ProbeFacts(cfg, w, e);
      if cfg.terms != [] && w.disk.scheduler.nextSlot > 0 && !e.probe.ProbeEscapes? {
        ProbedDriver(cfg, w, e.at, e.probe);
      }
    }
    if w.disk.pending.Some? {
      var p := w.disk.pending.value;
      if e.CloseCycle? {
        CloseFacts(cfg, w, e);
        CycleIsPlain(p, e.at);
        assert PlainDrive(cfg, w, p, e) == AfterClose(w, p, e.at) by { ClosesSo(cfg, w, p, e); }
      } else {
        if p.outcome.Some? {
          OnlyClosingSteps(cfg, w, e);
        }
        DriveFrame(cfg, w, p, e);
      }
    } else if e.CloseCycle? {
      CloseFacts(cfg, w, e);
    }
  }

  lemma ClosesSo(cfg: Config, w: World, p: PendingAction, e: Event)
    requires e.CloseCycle?
    ensures PlainDrive(cfg, w, p, e) == AfterClose(w, p, e.at)
  {
  }

  /** Over every run: a recorded outcome is that of the two clients as they are
      persisted, and the number of failed cycles is that of the cycles closed with a
      create or a search that failed. */
  lemma {:induction false} CyclesAreRead(cfg: Config, now: int, ws: seq<World>, es: seq<Event>, i: nat)
    requires Execution(cfg, now, ws, es) && i <= |es|
    ensures CycleReads(ws[i].disk)
    ensures ws[i].disk.driver.cycleErrors == FailedCycles(ws, es, i) && ws[i].disk.driver.downloads == 0
  {
    hide Inv, PlainStep, Enabled, CycleReads, ClosesFailed, NewSummary;
    if i == 0 {
      assert CycleReads(ws[0].disk) by { FreshReads(cfg, now); }
    } else {
      CyclesAreRead(cfg, now, ws, es, i - 1);
      RunInv(cfg, now, ws, es, i - 1);
      RunIsPlain(cfg, now, ws, es, i - 1);
      assert Moves(cfg, ws, es, i - 1);
      CycleStep(cfg, ws[i - 1], es[i - 1]);
    }
  }

  lemma FreshReads(cfg: Config, now: int)
    ensures CycleReads(Start(cfg, now).disk)
  {
  }

  // ----- Result pages ------------------------------------------------------------------------

  /** What a poll persists of the pages it read, while it is open and once it is closed. */
  datatype Seen = Seen(
    attempts: nat, errors: nat, returned: Option<nat>, total: Option<nat>, latest: Option<int>,
    latestError: Option<Error>)

  const NOTHING_SEEN := Seen(0, 0, None, None, None, None)

  function SeenOf(c: ClientState): Seen {
    if c.poll.Some? then
      var p := c.poll.value;
      Seen(p.attempts, p.errors, p.lastReturned, p.lastTotal, p.latestAttempt, p.latestError)
    else if c.results.Some? then
      var r := c.results.value;
      Seen(r.poll.attempts, r.poll.errors, r.returned, r.total, r.poll.latestAttempt, r.poll.latestError)
    else NOTHING_SEEN
  }

  /** One more answer: a page brings its two counts, an error itself. */
  function SeenNext(s: Seen, read: int, page: Page): Seen {
    match page
    case PageRead(returned, total, _) =>
      Seen(s.attempts + 1, s.errors, Some(returned), Some(total), Some(read), s.latestError)
    case PageError(e) => Seen(s.attempts + 1, s.errors + 1, s.returned, s.total, Some(read), Some(e))
  }

  /** The event gets an answer for the open poll of this client. */
  predicate Answers(w: World, e: Event, c: Client) {
    w.disk.pending.Some? && ReadsPage(w.disk.pending.value, c, e) && Readable(e.answer)
  }

  /** What was seen for this client since the last reservation, read off the events. */
  function SeenBy(ws: seq<World>, es: seq<Event>, n: nat, c: Client): Seen
    requires n <= |es| && |ws| == |es| + 1
  {
    if n == 0 || es[n - 1].Probe? then NOTHING_SEEN
    else if Answers(ws[n - 1], es[n - 1], c) then
      SeenNext(SeenBy(ws, es, n - 1, c), es[n - 1].read, es[n - 1].answer.page)
    else SeenBy(ws, es, n - 1, c)
  }

  lemma PollSeen(p: PendingAction, e: Event, c: Client)
    requires e.PollOnce? && (ReadsPage(p, c, e) ==> Readable(e.answer))
    ensures SeenOf(AfterPoll(p, e).Get(c))
         == if ReadsPage(p, c, e) then SeenNext(SeenOf(p.Get(c)), e.read, e.answer.page) else SeenOf(p.Get(c))
  {
  }

  /** A page that is requested and cannot be read raises. */
  lemma ReadsAreAccepted(cfg: Config, w: World, e: Event, c: Client)
    requires w.disk.pending.Some? && ReadsPage(w.disk.pending.value, c, e)
    ensures Accepts(cfg, w, e) <==> Readable(e.answer)
  {
  }

  /** Apart from a page nothing changes what was seen. */
  lemma DriveSeen(cfg: Config, w: World, p: PendingAction, e: Event, c: Client)
    requires w.disk.pending == Some(p) && !e.PollOnce? && PlainDrive(cfg, w, p, e).disk.pending.Some?
    ensures SeenOf(PlainDrive(cfg, w, p, e).disk.pending.value.Get(c)) == SeenOf(p.Get(c))
  {
    hide Folded, Fine, Reported;
  }

  lemma PollDrive(cfg: Config, w: World, p: PendingAction, e: Event)
    requires w.disk.pending == Some(p) && e.PollOnce?
    ensures PlainDrive(cfg, w, p, e).disk.pending == Some(AfterPoll(p, e))
  {
    hide AfterPoll, Over;
  }

  lemma SeenStep(cfg: Config, w: World, e: Event, c: Client)
    requires Enabled(cfg, w, e) && w.disk.pending.Some? && PlainStep(cfg, w, e).disk.pending.Some?
    ensures !e.Probe?
    ensures
      var s, t := w.disk.pending.value.Get(c), PlainStep(cfg, w, e).disk.pending.value.Get(c);
      SeenOf(t) == if Answers(w, e, c) then SeenNext(SeenOf(s), e.read, e.answer.page) else SeenOf(s)
  {
    hide Enabled, Accepts, Readable, ReadsPage, PlainDrive, PlainLoop, SeenOf, SeenNext;
    var p := w.disk.pending.value;
    LoopFrame(cfg, w, e);
    if e.Probe? {
      ProbeFacts(cfg, w, e);
    } else if e.PollOnce? {
      PollDrive(cfg, w, p, e);
      if ReadsPage(p, c, e) {
        ReadsAreAccepted(cfg, w, e, c);
      }
      if ReadsPage(p, c, e) ==> Readable(e.answer) {
        PollSeen(p, e, c);
      }
    } else {
      OnlyPollsRead(p, e, c);
      if !e.Crash? && !LoopEvent(e) && Accepts(cfg, w, e) {
        DriveSeen(cfg, w, p, e, c);
      }
    }
  }

  lemma OnlyPollsRead(p: PendingAction, e: Event, c: Client)
    requires !e.PollOnce?
    ensures !ReadsPage(p, c, e)
  {
  }

  lemma NewlyPending(cfg: Config, w: World, e: Event)
    requires Enabled(cfg, w, e) && w.disk.pending.None? && PlainStep(cfg, w, e).disk.pending.Some?
    ensures e.Probe?
    ensures forall c: Client :: SeenOf(PlainStep(cfg, w, e).disk.pending.value.Get(c)) == NOTHING_SEEN
  {
    hide Accepts, Asked, Usable, Valid;
  }

  /** What one step adds to what was seen for a client. */
  function SeenAfter(s: Seen, w: World, e: Event, c: Client): Seen {
    if e.Probe? then NOTHING_SEEN
    else if Answers(w, e, c) then SeenNext(s, e.read, e.answer.page)
    else s
  }

  lemma SeenMoves(cfg: Config, w: World, e: Event, c: Client)
    requires Enabled(cfg, w, e) && PlainStep(cfg, w, e).disk.pending.Some?
    ensures
      var t := SeenOf(PlainStep(cfg, w, e).disk.pending.value.Get(c));
      if w.disk.pending.Some? then t == SeenAfter(SeenOf(w.disk.pending.value.Get(c)), w, e, c)
      else e.Probe? && t == NOTHING_SEEN
  {
    hide PlainStep, Enabled, SeenOf, SeenNext, Answers;
    if w.disk.pending.Some? {
      SeenStep(cfg, w, e, c);
    } else {
      NewlyPending(cfg, w, e);
    }
  }

  lemma SeenByNext(ws: seq<World>, es: seq<Event>, n: nat, c: Client)
    requires 0 < n <= |es| && |ws| == |es| + 1
    ensures SeenBy(ws, es, n, c) == SeenAfter(SeenBy(ws, es, n - 1, c), ws[n - 1], es[n - 1], c)
  {
    hide Answers, SeenNext;
  }

  /** Over every run the persisted counts of a client's poll, open or closed, are those
      of the last page read for it, and its attempts and errors are the answers it got. */
  lemma {:induction false} PollsAreRead(cfg: Config, now: int, ws: seq<World>, es: seq<Event>, i: nat, c: Client)
    requires Execution(cfg, now, ws, es) && i <= |es| && ws[i].disk.pending.Some?
    ensures SeenOf(ws[i].disk.pending.value.Get(c)) == SeenBy(ws, es, i, c)
  {
    hide PlainStep, Enabled, SeenOf, SeenBy, Answers, SeenNext, Start;
    if i == 0 {
      FreshPending(cfg, now);
    } else {
      RunIsPlain(cfg, now, ws, es, i - 1);
      assert Moves(cfg, ws, es, i - 1);
      SeenByNext(ws, es, i, c);
      SeenMoves(cfg, ws[i - 1], es[i - 1], c);
      if ws[i - 1].disk.pending.Some? {
        PollsAreRead(cfg, now, ws, es, i - 1, c);
      }
    }
  }

  lemma FreshPending(cfg: Config, now: int)
    ensures Start(cfg, now).disk.pending.None?
  {
  }

  // ----- What is pending was reserved --------------------------------------------------------

  /** The last reservation in the log. */
  function LastReserved(log: seq<Effect>): Option<Effect> {
    if |log| == 0 then None
    else if log[|log| - 1].Reserved? then Some(log[|log| - 1])
    else LastReserved(log[..|log| - 1])
  }

  predicate IsReserved(w: World) {
    w.disk.pending.Some? ==>
      var p := w.disk.pending.value;
      && p.queryIndex >= 0
      && LastReserved(w.log) == Some(Reserved(p.queryIndex + 1, p.cycle, p.reservedAt, p.query, p.via))
  }

  lemma LastAppend(log: seq<Effect>, x: Effect)
    ensures LastReserved(log + [x]) == if x.Reserved? then Some(x) else LastReserved(log)
  {
    assert (log + [x])[..|log|] == log;
  }

  lemma ProbedReserved(cfg: Config, w: World, at: int, probe: ProbeResult)
    requires cfg.terms != [] && w.disk.scheduler.nextSlot > 0 && !probe.ProbeEscapes? && w.disk.pending.None?
    ensures IsReserved(Probed(cfg, w, at, probe))
  {
    hide Asked, Usable, LastReserved;
    var v := Probed(cfg, w, at, probe);
    LastAppend(w.log, v.log[|w.log|]);
  }

  lemma ReservedStep(cfg: Config, w: World, e: Event)
    requires Enabled(cfg, w, e) && IsReserved(w)
    ensures IsReserved(PlainStep(cfg, w, e))
  {
    hide Enabled, Accepts, PlainLoop, PlainDrive, Probed, LastReserved;
    LoopFrame(cfg, w, e);
    if e.Probe? {
      ProbeFacts(cfg, w, e);
      if cfg.terms != [] && w.disk.scheduler.nextSlot > 0 && !e.probe.ProbeEscapes? {
        ProbedReserved(cfg, w, e.at, e.probe);
      }
    }
    if w.disk.pending.Some? {
      var p := w.disk.pending.value;
      if e.CloseCycle? {
        ClosesSo(cfg, w, p, e);
      } else {
        DriveFrame(cfg, w, p, e);
        var v := PlainDrive(cfg, w, p, e);
        if v.log != w.log {
          var x :| v.log == w.log + [x] && !x.Reserved?;
          LastAppend(w.log, x);
        }
      }
    }
  }

  lemma {:induction false} PendingIsReserved(cfg: Config, now: int, ws: seq<World>, es: seq<Event>, i: nat)
    requires Execution(cfg, now, ws, es) && i <= |es|
    ensures IsReserved(ws[i])
  {
    hide PlainStep, Enabled, IsReserved;
    if i == 0 {
      assert IsReserved(ws[0]) by { FreshReserved(cfg, now); }
    } else {
      PendingIsReserved(cfg, now, ws, es, i - 1);
      RunIsPlain(cfg, now, ws, es, i - 1);
      assert Moves(cfg, ws, es, i - 1);
      ReservedStep(cfg, ws[i - 1], es[i - 1]);
    }
  }

  lemma FreshReserved(cfg: Config, now: int)
    ensures IsReserved(Start(cfg, now))
  {
  }

  // ----- Reports name the method of their cycle ----------------------------------------------

  /** The report is of a reserved cycle and carries its method's name. */
  predicate Attributed(log: seq<Effect>, k: nat, r: Report) {
    exists j :: 0 <= j < |log| && log[j].Reserved? && log[j].cycle == k && NamesMethod(r, log[j].via)
  }

  predicate NamesMethod(r: Report, via: SearchMethod) {
    r.kind == Verbatim(SearchKind)
    && match via
       case OnServer => r.via == Verbatim(ServerMethod)
       case OnGlobal => r.via == Verbatim(GlobalMethod)
       case OnKad => r.via == Verbatim(KadMethod)
  }

  predicate ReportsNamed(w: World) {
    forall k :: k in w.reports ==> Attributed(w.log, k, w.reports[k])
  }

  lemma {:induction false} ReservedIsLogged(log: seq<Effect>) returns (j: nat)
    requires LastReserved(log).Some?
    ensures j < |log| && log[j].Reserved? && log[j] == LastReserved(log).value
  {
    if log[|log| - 1].Reserved? {
      j := |log| - 1;
    } else {
      j := ReservedIsLogged(log[..|log| - 1]);
    }
  }

  lemma NamedLater(log: seq<Effect>, later: seq<Effect>, k: nat, r: Report)
    requires log <= later && Attributed(log, k, r)
    ensures Attributed(later, k, r)
  {
    hide NamesMethod;
    var j :| 0 <= j < |log| && log[j].Reserved? && log[j].cycle == k && NamesMethod(r, log[j].via);
    assert later[j] == log[j];
  }

  lemma StoreFacts(cfg: Config, w: World, e: Event)
    requires Core(cfg, w) && Enabled(cfg, w, e) && e.StoreReport?
    ensures w.disk.pending.Some? && w.disk.pending.value.reportSeq == w.disk.pending.value.cycle
    ensures NamesMethod(e.report, w.disk.pending.value.via)
    ensures
      var p := w.disk.pending.value;
      var v := PlainStep(cfg, w, e);
      v.reports == w.reports[p.reportSeq := e.report] && w.log <= v.log
  {
    hide ValidCore, Valid, ClientOk;
  }

  lemma StepKeepsReports(cfg: Config, w: World, e: Event)
    requires !e.StoreReport?
    ensures PlainStep(cfg, w, e).reports == w.reports && w.log <= PlainStep(cfg, w, e).log
  {
    hide Accepts, Asked, Usable, AfterPoll, Opened, Folded, Fine, Reported;
  }

  lemma NamedLaters(w: World, v: World, k: nat)
    requires ReportsNamed(w) && w.log <= v.log
    requires forall n :: n in v.reports && n != k ==> n in w.reports && v.reports[n] == w.reports[n]
    requires k in v.reports ==> Attributed(w.log, k, v.reports[k])
    ensures ReportsNamed(v)
  {
    hide Attributed;
    forall n | n in v.reports
      ensures Attributed(v.log, n, v.reports[n])
    {
      NamedLater(w.log, v.log, n, v.reports[n]);
    }
  }

  lemma StartHasNoReports(cfg: Config, now: int)
    ensures ReportsNamed(Start(cfg, now))
  {
  }

  lemma KeptNamed(w: World, v: World)
    requires ReportsNamed(w) && w.log <= v.log && v.reports == w.reports
    ensures ReportsNamed(v)
  {
    hide Attributed;
    forall n | n in v.reports
      ensures Attributed(v.log, n, v.reports[n])
    {
      NamedLater(w.log, v.log, n, v.reports[n]);
    }
  }

  lemma NamedStep(cfg: Config, w: World, e: Event)
    requires Core(cfg, w) && Enabled(cfg, w, e) && IsReserved(w) && ReportsNamed(w)
    ensures ReportsNamed(PlainStep(cfg, w, e))
  {
    hide PlainStep, Enabled, Core, Attributed, NamesMethod, IsReserved, ReportsNamed;
    if e.StoreReport? {
      StoreFacts(cfg, w, e);
      NamedNow(w, e.report);
      NamedLaters(w, PlainStep(cfg, w, e), w.disk.pending.value.reportSeq);
    } else {
      StepKeepsReports(cfg, w, e);
      KeptNamed(w, PlainStep(cfg, w, e));
    }
  }

  /** Over every run each stored report is one of a search and names the method its cycle
      was reserved with. */
  lemma {:induction false} ReportsNameTheirMethod(cfg: Config, now: int, ws: seq<World>, es: seq<Event>, i: nat)
    requires Execution(cfg, now, ws, es) && i <= |es|
    ensures ReportsNamed(ws[i])
  {
    hide PlainStep, Enabled, Inv, Core, IsReserved, ReportsNamed, Start;
    if i == 0 {
      StartHasNoReports(cfg, now);
    } else {
      ReportsNameTheirMethod(cfg, now, ws, es, i - 1);
      RunIsPlain(cfg, now, ws, es, i - 1);
      RunInv(cfg, now, ws, es, i - 1);
      InvCore(cfg, ws[i - 1]);
      PendingIsReserved(cfg, now, ws, es, i - 1);
      assert Moves(cfg, ws, es, i - 1);
      NamedStep(cfg, ws[i - 1], es[i - 1]);
    }
  }

  lemma NamedNow(w: World, r: Report)
    requires IsReserved(w) && w.disk.pending.Some? && NamesMethod(r, w.disk.pending.value.via)
    ensures Attributed(w.log, w.disk.pending.value.cycle, r)
  {
    hide LastReserved, NamesMethod;
    var j := ReservedIsLogged(w.log);
  }

  // ----- Checkpoints -------------------------------------------------------------------------

  /** The times of the counted checkpoints, in order. */
  function Stamps(es: seq<Event>, n: nat): seq<Stamp>
    requires n <= |es|
  {
    if n == 0 then []
    else Stamps(es, n - 1) + (if es[n - 1].SummarizeCheckpoint? then [Utc(es[n - 1].stamp)] else [])
  }

  /** The times that went into the observed interval, of checkpoints and of reports. */
  function Sightings(ws: seq<World>, es: seq<Event>, n: nat): seq<Stamp>
    requires n <= |es| && |ws| == |es| + 1
  {
    if n == 0 then [] else Sightings(ws, es, n - 1) + SightingOf(ws[n - 1], es[n - 1])
  }

  function SightingOf(w: World, e: Event): seq<Stamp> {
    match e
    case SummarizeCheckpoint(_, stamp, _) => [Utc(stamp)]
    case Commit(_, _, _) =>
      if w.disk.pending.Some? && w.disk.pending.value.evidence.Some? then [Utc(w.disk.pending.value.evidence.value)]
      else []
    case _ => []
  }

  /** Checkpoints that failed in a row, since the last good one or the last start. */
  function FailuresInARow(es: seq<Event>, n: nat): nat
    requires n <= |es|
  {
    if n == 0 || es[n - 1].Boot? || es[n - 1].SummarizeCheckpoint? then 0
    else FailuresInARow(es, n - 1) + (if es[n - 1].FailCheckpoint? || es[n - 1].LoseCheckpoint? then 1 else 0)
  }

  function Ends<T>(s: seq<T>): (Option<T>, Option<T>) {
    if |s| == 0 then (None, None) else (Some(s[0]), Some(s[|s| - 1]))
  }

  predicate CheckpointsRead(w: World, stamps: seq<Stamp>, sightings: seq<Stamp>, failures: nat) {
    && w.disk.checkpoints == Checkpoints(|stamps|, Ends(stamps).0, Ends(stamps).1)
    && w.disk.summary.observed == Observed(Ends(sightings).0, Ends(sightings).1)
    && (w.pc != Down ==> w.failures == failures)
  }

  lemma CommitSees(cfg: Config, w: World, e: Event)
    requires Core(cfg, w) && ReportsOk(cfg, w) && Enabled(cfg, w, e) && e.Commit?
    ensures w.disk.pending.Some? && w.disk.pending.value.evidence.Some? && w.disk.pending.value.reportSeq in w.reports
    ensures
      w.reports[w.disk.pending.value.reportSeq].observed == Some(Utc(w.disk.pending.value.evidence.value))
  {
    hide ValidCore, Valid, ClientOk;
    PendingNumbers(cfg, w);
  }

  lemma DriveCheckpoints(cfg: Config, w: World, p: PendingAction, e: Event)
    requires w.disk.pending == Some(p)
    ensures
      var v := PlainDrive(cfg, w, p, e);
      && v.disk.checkpoints == w.disk.checkpoints && v.failures == w.failures
      && (!e.Commit? ==> v.disk.summary == w.disk.summary)
      && (e.Commit? && p.reportSeq in w.reports && w.reports[p.reportSeq].observed.Some? ==>
            v.disk.summary.observed == Update(w.disk.summary.observed, w.reports[p.reportSeq].observed.value))
  {
    hide AfterPoll, Opened, Fine, Reported, Over;
  }

  /** What one event adds to the counted checkpoints, the sightings and the failures. */
  predicate CheckpointsNext(
    w: World, e: Event, v: World, stamps: seq<Stamp>, sightings: seq<Stamp>, failures: nat)
  {
    CheckpointsRead(
      v, stamps + (if e.SummarizeCheckpoint? then [Utc(e.stamp)] else []), sightings + SightingOf(w, e),
      if e.Boot? || e.SummarizeCheckpoint? then 0
      else failures + (if e.FailCheckpoint? || e.LoseCheckpoint? then 1 else 0))
  }

  lemma LoopCheckpoints(
    cfg: Config, w: World, e: Event, stamps: seq<Stamp>, sightings: seq<Stamp>, failures: nat)
    requires (e.Crash? || LoopEvent(e)) && (w.pc == Down ==> e.Boot?) && CheckpointsRead(w, stamps, sightings, failures)
    ensures CheckpointsNext(w, e, PlainLoop(cfg, w, e), stamps, sightings, failures)
  {
    hide Deadline;
    assert stamps + [] == stamps && sightings + [] == sightings;
  }

  lemma CommitCheckpoints(
    cfg: Config, w: World, e: Event, stamps: seq<Stamp>, sightings: seq<Stamp>, failures: nat)
    requires Core(cfg, w) && ReportsOk(cfg, w) && Enabled(cfg, w, e) && e.Commit?
    requires CheckpointsRead(w, stamps, sightings, failures)
    ensures w.disk.pending.Some?
    ensures CheckpointsNext(w, e, PlainDrive(cfg, w, w.disk.pending.value, e), stamps, sightings, failures)
  {
    CommitSees(cfg, w, e);
    DriveCheckpoints(cfg, w, w.disk.pending.value, e);
    assert w.pc == Driving;
    hide Core, ReportsOk, Enabled, PlainDrive;
    assert stamps + [] == stamps;
  }

  lemma QuietCheckpoints(
    cfg: Config, w: World, e: Event, v: World, stamps: seq<Stamp>, sightings: seq<Stamp>, failures: nat)
    requires !e.Commit? && !LoopEvent(e) && w.pc != Down && CheckpointsRead(w, stamps, sightings, failures)
    requires v.disk.checkpoints == w.disk.checkpoints && v.disk.summary == w.disk.summary && v.failures == w.failures
    ensures CheckpointsNext(w, e, v, stamps, sightings, failures)
  {
    assert stamps + [] == stamps && sightings + [] == sightings;
  }

  /** An event that raises ends the process and sees nothing. */
  lemma RaisedCheckpoints(
    cfg: Config, w: World, e: Event, stamps: seq<Stamp>, sightings: seq<Stamp>, failures: nat)
    requires !e.SummarizeCheckpoint? && !e.Commit? && CheckpointsRead(w, stamps, sightings, failures)
    ensures CheckpointsNext(w, e, w.(pc := Down), stamps, sightings, failures)
  {
    assert stamps + [] == stamps && sightings + [] == sightings;
  }

  lemma Bootable(cfg: Config, w: World, e: Event)
    requires Enabled(cfg, w, e)
    ensures w.pc == Down ==> e.Boot?
    ensures !e.Probe? && !LoopEvent(e) && !e.Crash? && !w.pc.Down? && e.Commit? ==> w.disk.pending.Some?
  {
  }

  lemma SameMoment(w: World, e: Event, v: World, now: int, stamps: seq<Stamp>, sightings: seq<Stamp>, failures: nat)
    requires CheckpointsNext(w, e, v, stamps, sightings, failures)
    ensures CheckpointsNext(w, e, v.(now := now), stamps, sightings, failures)
  {
  }

  lemma CheckpointStep(
    cfg: Config, w: World, e: Event, stamps: seq<Stamp>, sightings: seq<Stamp>, failures: nat)
    requires Core(cfg, w) && ReportsOk(cfg, w) && Enabled(cfg, w, e)
    requires CheckpointsRead(w, stamps, sightings, failures)
    ensures CheckpointsNext(w, e, PlainStep(cfg, w, e), stamps, sightings, failures)
  {
    hide Core, ReportsOk, Enabled, PlainDrive, PlainLoop, CheckpointsRead, CheckpointsNext, Asked, Usable, Readable;
    hide Fetches, Valid;
    Bootable(cfg, w, e);
    var now := if e.PollOnce? then e.read else e.at;
    if !Accepts(cfg, w, e) {
      RaisedCheckpoints(cfg, w, e, stamps, sightings, failures);
      SameMoment(w, e, w.(pc := Down), now, stamps, sightings, failures);
    } else {
      if e.Crash? || LoopEvent(e) {
        LoopCheckpoints(cfg, w, e, stamps, sightings, failures);
      } else if e.Commit? {
        CommitCheckpoints(cfg, w, e, stamps, sightings, failures);
      } else {
        if w.disk.pending.Some? {
          DriveCheckpoints(cfg, w, w.disk.pending.value, e);
        }
        QuietCheckpoints(cfg, w, e, Plain(cfg, w, e), stamps, sightings, failures);
      }
      SameMoment(w, e, Plain(cfg, w, e), now, stamps, sightings, failures);
    }
  }

  lemma {:induction false} CheckpointsAreRead(cfg: Config, now: int, ws: seq<World>, es: seq<Event>, i: nat)
    requires Execution(cfg, now, ws, es) && i <= |es|
    ensures CheckpointsRead(ws[i], Stamps(es, i), Sightings(ws, es, i), FailuresInARow(es, i))
  {
    hide PlainStep, Enabled, Inv, Core, ReportsOk, CheckpointsRead, SightingOf, Start;
    if i == 0 {
      assert CheckpointsRead(ws[0], [], [], 0) by { FreshCheckpoints(cfg, now); }
    } else {
      CheckpointsAreRead(cfg, now, ws, es, i - 1);
      RunIsPlain(cfg, now, ws, es, i - 1);
      RunInv(cfg, now, ws, es, i - 1);
      InvCore(cfg, ws[i - 1]);
      assert Moves(cfg, ws, es, i - 1);
      CheckpointStep(cfg, ws[i - 1], es[i - 1], Stamps(es, i - 1), Sightings(ws, es, i - 1),
        FailuresInARow(es, i - 1));
    }
  }

  lemma FreshCheckpoints(cfg: Config, now: int)
    ensures CheckpointsRead(Start(cfg, now), [], [], 0)
  {
  }

  // ----- When the next action is taken ---------------------------------------------------------

  /** The deadline a finished drive set, until it is used or set again. */
  predicate ArmedAt(cfg: Config, w: World, at: int) {
    cfg.enabled && w.disk.pending.None? && w.disk.scheduler.nextActionAt == Some(at)
  }

  predicate KeepsDeadline(e: Event) {
    e.Crash? || (LoopEvent(e) && !e.Rearm?)
  }

  lemma DeadlineKept(cfg: Config, w: World, e: Event, at: int)
    requires ArmedAt(cfg, w, at) && KeepsDeadline(e)
    ensures ArmedAt(cfg, PlainStep(cfg, w, e), at)
  {
    hide Accepts;
  }

  lemma DeadlineSet(cfg: Config, w: World, e: Event)
    requires e.Rearm? && cfg.enabled && w.disk.pending.None? && Valid(w.disk)
    ensures ArmedAt(cfg, PlainStep(cfg, w, e), e.at + cfg.interval)
  {
    hide Valid;
  }

  lemma DrivenIsValid(cfg: Config, w: World, e: Event)
    requires Core(cfg, w) && Enabled(cfg, w, e) && e.Rearm?
    ensures Valid(w.disk)
  {
    hide StateOk, Valid;
  }

  lemma {:induction false} StaysArmed(cfg: Config, now: int, ws: seq<World>, es: seq<Event>, i: nat, j: nat)
    requires Execution(cfg, now, ws, es) && i < j <= |es| && es[i].Rearm? && cfg.enabled && ws[i].disk.pending.None?
    requires forall k :: i < k < j ==> KeepsDeadline(es[k])
    ensures ArmedAt(cfg, ws[j], es[i].at + cfg.interval)
    decreases j
  {
    hide PlainStep, Enabled, Inv, Core, ArmedAt, KeepsDeadline, Start, Valid;
    if j == i + 1 {
      RunIsPlain(cfg, now, ws, es, i);
      RunInv(cfg, now, ws, es, i);
      InvCore(cfg, ws[i]);
      assert Moves(cfg, ws, es, i);
      DrivenIsValid(cfg, ws[i], es[i]);
      DeadlineSet(cfg, ws[i], es[i]);
    } else {
      StaysArmed(cfg, now, ws, es, i, j - 1);
      RunIsPlain(cfg, now, ws, es, j - 1);
      DeadlineKept(cfg, ws[j - 1], es[j - 1], es[i].at + cfg.interval);
    }
  }

  lemma WakeDrives(cfg: Config, w: World, e: Event, at: int)
    requires ArmedAt(cfg, w, at) && e.Wake? && Valid(w.disk)
    ensures PlainStep(cfg, w, e).pc == Driving <==> at <= e.at
  {
    hide Valid;
  }

  /** The rate limit from both sides: whatever crashes and restarts come between, the
      loop takes the next action when it first looks after the search interval has
      passed since the last drive, and not before. */
  lemma NextTurnExactly(cfg: Config, now: int, ws: seq<World>, es: seq<Event>, i: nat, j: nat)
    requires Execution(cfg, now, ws, es) && i < j < |es| && es[i].Rearm? && cfg.enabled && ws[i].disk.pending.None?
    requires forall k :: i < k < j ==> KeepsDeadline(es[k])
    requires es[j].Wake? && Valid(ws[j].disk)
    ensures ws[j + 1].pc == Driving <==> es[i].at + cfg.interval <= es[j].at
  {
    hide PlainStep, ArmedAt, KeepsDeadline, Start, Valid;
    StaysArmed(cfg, now, ws, es, i, j);
    RunIsPlain(cfg, now, ws, es, j);
    WakeDrives(cfg, ws[j], es[j], es[i].at + cfg.interval);
  }

  /** With an action pending the loop drives it exactly when one of its polls is due,
      or when it has none open. */
  lemma PendingTurnExactly(cfg: Config, now: int, ws: seq<World>, es: seq<Event>, i: nat)
    requires Execution(cfg, now, ws, es) && i < |es| && es[i].Wake? && Valid(ws[i].disk) && ws[i].disk.pending.Some?
    ensures
      var p := ws[i].disk.pending.value;
      ws[i + 1].pc == Driving <==>
        && cfg.enabled
        && ((p.rust.poll.None? && p.mfc.poll.None?) || PollDue(p.rust, es[i].at) || PollDue(p.mfc, es[i].at))
  {
    hide Valid, Start;
    RunIsPlain(cfg, now, ws, es, i);
  }
}
