/**
 The observer process: it rebinds the state from phase to phase, persists it
 after each, and carries the run of events its steps amount to, so that what
 holds of every run holds of it. A `false` result is an exception.
 */
module ObserverDriver {
  import opened Wrappers
  import opened JsonFields
  import opened ObserverSummary
  import opened ObserverState
  import opened ObserverSchedule
  import opened ObserverRun
  import opened ObserverSafety
  import opened ObserverLedger
  import opened ObserverTheorems
  import opened ObserverHistory
  import opened ObserverProgress
  import opened ObserverTermination
  import opened ObserverProtocol

  /** A run of these events leads to that world. */
  ghost predicate Reaches(cfg: Config, start: int, es: seq<Event>, w: World) {
    ValidConfig(cfg) && exists ws :: Execution(cfg, start, ws, es) && ws[|es|] == w
  }

  lemma Onward(cfg: Config, start: int, es: seq<Event>, w: World, e: Event)
    requires Reaches(cfg, start, es, w) && Enabled(cfg, w, e)
    ensures Reaches(cfg, start, es + [e], Step(cfg, w, e))
  {
    hide Step, Enabled, Start;
    var ws :| Execution(cfg, start, ws, es) && ws[|es|] == w;
    Extend(cfg, start, ws, es, e);
    assert (ws + [Step(cfg, w, e)])[|es + [e]|] == Step(cfg, w, e);
  }

  predicate IsLook(e: Event) {
    e.Wake? || e.FailCheckpoint? || e.LoseCheckpoint?
  }

  ghost function Looks(es: seq<Event>): nat {
    if |es| == 0 then 0 else Looks(es[..|es| - 1]) + (if IsLook(es[|es| - 1]) then 1 else 0)
  }

  lemma LooksNext(es: seq<Event>, e: Event)
    ensures Looks(es + [e]) == Looks(es) + (if IsLook(e) then 1 else 0)
  {
    assert (es + [e])[..|es|] == es;
  }

  lemma ReachedInv(cfg: Config, start: int, es: seq<Event>, w: World)
    requires Reaches(cfg, start, es, w)
    ensures ValidConfig(cfg) && Inv(cfg, w)
  {
    hide Inv, Start, Moves;
    var ws :| Execution(cfg, start, ws, es) && ws[|es|] == w;
    RunInv(cfg, start, ws, es, |es|);
  }

  lemma ReachedInOrder(cfg: Config, start: int, es: seq<Event>, w: World)
    requires Reaches(cfg, start, es, w)
    ensures Ordered(w.log) && BooksBalance(w)
  {
    hide Start, Moves, Ordered, BooksBalance;
    var ws :| Execution(cfg, start, ws, es) && ws[|es|] == w;
    OneReportPerCycle(cfg, start, ws, es, |es|);
  }

  class Observer {
    const cfg: Config
    /** The persisted summary file. */
    var disk: State
    /** The artifact store: checkpoint files and action reports. */
    var files: nat
    var reports: map<nat, Report>
    /** External effects, and the instant of the last step. */
    var log: seq<Effect>
    var last: int
    /** Checkpoints that failed in a row, in this process. */
    var failures: nat
    ghost const start: int
    ghost var pc: Pc
    ghost var run: seq<Event>
    /** Turns of the loop so far that looked whether to drive, or put a checkpoint off. */
    ghost var looks: nat

    ghost function W(): World
      reads this
    {
      World(disk, files, reports, log, last, pc, failures)
    }

    /** The fields are exactly what the events of `run` produce. */
    ghost predicate Traces()
      reads this
    {
      Reaches(cfg, start, run, W()) && looks == Looks(run)
    }

    constructor (cfg: Config, now: int)
      requires ValidConfig(cfg)
      ensures Traces() && run == [] && this.cfg == cfg && pc == Down
    {
      this.cfg := cfg;
      disk := NewState(cfg.campaign, cfg.actionLimit, cfg.anomalyLimit, cfg.target);
      files, reports, log, last, failures := 0, map[], [], now, 0;
      start, pc, run, looks := now, Down, [], 0;
      new;
      hide NewState;
      assert Execution(cfg, now, [Start(cfg, now)], []);
    }

    // ----- The environment ---------------------------------------------------------------

    method Clock() returns (at: int)
      ensures at >= last
    {
      at := *;
      if at < last {
        at := last;
      }
    }

    method ProbeNetwork() returns (probe: ProbeResult) {
      probe := *;
    }

    method HttpExchange() returns (reply: Reply) {
      reply := *;
    }

    method GetResults() returns (answer: GetAnswer) {
      answer := *;
    }

    /** The report built from the evidence of a pending action, or the stored one
        validated against it; `None` when that raises. */
    method BuildReport() returns (r: Option<Report>)
      requires PhaseOf(disk.pending) == Finalizing
      ensures r.Some? ==> ReportFor(cfg.campaign, disk.pending.value, r.value)
    {
      var p := disk.pending.value;
      r := *;
      if r.Some? {
        r := Some(r.value.(campaign := cfg.campaign, seqNo := Num(p.reportSeq), actionId := Named(p.actionId),
                           cycle := Num(p.cycle), observed := Some(Utc(p.evidence.value)),
                           via := ViaOf(p.via), kind := Verbatim(SearchKind)));
      }
    }

    // ----- One step of the run ------------------------------------------------------------

    /** The process ends with an exception; nothing was persisted. */
    method Raise(ghost e: Event, at: int)
      requires Traces() && Enabled(cfg, W(), e) && Apply(cfg, W(), e).Failure? && at == EndOf(e)
      modifies this`last, this`pc, this`run, this`looks
      ensures Traces() && run == old(run) + [e] && pc == Down && W() == Step(cfg, old(W()), e)
      ensures looks == old(looks) + (if IsLook(e) then 1 else 0)
    {
      hide Looks, Apply, Enabled, Reaches;
      Onward(cfg, start, run, W(), e);
      last := at;
      LooksNext(run, e);
      looks := looks + (if IsLook(e) then 1 else 0);
      run, pc := run + [e], Down;
    }

    /** Persists the summary after one step that changes nothing else that lasts. */
    method Persist(s: State, ghost e: Event, at: int, ghost next: Pc, failed: nat)
      requires Traces() && Enabled(cfg, W(), e) && at == EndOf(e)
      requires Apply(cfg, W(), e) == Success(W().(disk := s, pc := next, failures := failed))
      modifies this`disk, this`last, this`failures, this`pc, this`run, this`looks
      ensures Traces() && run == old(run) + [e] && disk == s && pc == next && last == at && failures == failed
      ensures looks == old(looks) + (if IsLook(e) then 1 else 0)
      ensures W() == Step(cfg, old(W()), e)
    {
      hide Looks, Apply, Enabled, Reaches;
      Onward(cfg, start, run, W(), e);
      disk, last, failures := s, at, failed;
      LooksNext(run, e);
      looks := looks + (if IsLook(e) then 1 else 0);
      run, pc := run + [e], next;
    }

    /** The process died of an exception from outside that nothing handles. */
    ghost predicate Died()
      reads this
    {
      pc == Down && run != [] && Escaping(run[|run| - 1])
    }

    // ----- Phases of one drive --------------------------------------------------------------

    /** Reserves a cycle for the next schedule slot, or records a skip. */
    method ReserveOrSkip() returns (ok: bool)
      requires Traces() && pc == Driving && PhaseOf(disk.pending) == Reserving
      modifies this
      ensures Traces() && old(run) <= run
      ensures looks == old(looks)
      ensures ok ==>
        (pc == Driven && disk.pending.None?) || (pc == Driving && PhaseOf(disk.pending) == Preparing)
      ensures !ok ==> Died() && disk == old(disk) && log == old(log)
      ensures |run| == |old(run)| + 1 && W() == PlainStep(cfg, old(W()), run[|old(run)|])
    {
      hide Looks, PlainStep;
      hide Valid, Reaches, Inv, ApplyLoop, ApplyRecovery, ApplyExchange, ApplyPolls, ApplyClosing;
      var slot := disk.scheduler.nextSlot;
      var action := ScheduledAction(cfg.terms, slot, disk.summary.gate);
      var probe := ProbeNetwork();
      var at := Clock();
      ghost var e := Probe(at, probe);
      ReachedInv(cfg, start, run, W());
      RaisesExactly(cfg, W(), e);
      StepIsPlain(cfg, W(), e);
      if probe.ProbeEscapes? {
        Raise(e, at);
        return false;
      }
      ok := true;
      Onward(cfg, start, run, W(), e);
      match Checked(probe) {
        case NotReady(phase) =>
          disk := RecordConnectivitySkip(disk, at, phase).value;
          log := log + [SlotSkipped(slot)];
          pc := Driven;
        case Ready(rustRun, mfcRun) =>
          var cycle, query, via := disk.scheduler.nextCycle, action.value.0, MethodFor(action.value.1);
          disk := ReserveDriverCycle(disk, query, via, at, rustRun, mfcRun).value;
          log := log + [Reserved(slot, cycle, at, query, via)];
      }
      LooksNext(run, e);
      last, run := at, run + [e];
    }

    /** Closes every create that an earlier process left prepared. No create is
        then left whose peer had already started, so none is skipped. */
    method RecoverCreates()
      requires Traces() && pc == Driving && disk.pending.Some? && disk.pending.value.outcome.None?
      modifies this
      ensures Traces() && old(run) <= run && pc == Driving && log == old(log)
      ensures looks == old(looks)
      ensures disk.pending.Some? && disk.pending.value.outcome.None?
      ensures PhaseOf(disk.pending) == Preparing || Issued(PhaseOf(disk.pending))
    {
      hide Looks, Valid, Reaches, Inv, Ambiguous;
      if IsPrepared(disk.pending.value.rust) {
        CloseOne(Rust);
      }
      if IsPrepared(disk.pending.value.mfc) {
        CloseOne(Mfc);
      }
      assert !IsPrepared(disk.pending.value.Get(Rust)) && !IsPrepared(disk.pending.value.Get(Mfc));
      ReachedInv(cfg, start, run, W());
      InvInStep(cfg, W());
    }

    method CloseOne(c: Client)
      requires Traces() && pc == Driving && PhaseOf(disk.pending) == Recovering(c)
      modifies this`disk, this`last, this`failures, this`pc, this`run, this`looks
      ensures Traces() && old(run) <= run && pc == Driving
      ensures looks == old(looks)
      ensures disk.pending.Some? && disk.pending.value.outcome.None?
      ensures !IsPrepared(disk.pending.value.Get(c))
      ensures forall d :: d != c ==> disk.pending.value.Get(d) == old(disk).pending.value.Get(d)
    {
      hide Looks, Valid, Reaches, Inv, ApplyLoop, ApplyProbe, ApplyExchange, ApplyPolls, ApplyClosing, Ambiguous;
      var at := Clock();
      ReachedInv(cfg, start, run, W());
      RaisesExactly(cfg, W(), CloseAmbiguous(at));
      Persist(CompleteSearchCreate(disk, c, at, CreateError(Ambiguous(c))).value, CloseAmbiguous(at), at, Driving,
        failures);
    }

    /** Persists both creates as prepared, then sends each and records its outcome. */
    method IssueCreates() returns (ok: bool)
      requires Traces() && pc == Driving && PhaseOf(disk.pending) == Preparing
      modifies this
      ensures Traces() && old(run) <= run
      ensures looks == old(looks)
      ensures ok ==> pc == Driving && disk.pending.Some? && disk.pending.value.outcome.None?
      ensures ok ==> Issued(PhaseOf(disk.pending))
      ensures !ok ==> Died() && SomePrepared(disk.pending)
    {
      hide Looks, Valid, Reaches, Inv, ApplyLoop, ApplyProbe, ApplyExchange, ApplyPolls, ApplyClosing;
      var at := Clock();
      ReachedInv(cfg, start, run, W());
      RaisesExactly(cfg, W(), Prepare(at));
      var one := PrepareSearchCreate(disk, Rust, at).value;
      Persist(PrepareSearchCreate(one, Mfc, at).value, Prepare(at), at, Sending(Rust, 0), failures);
      ok := IssueOne(Rust);
      if ok {
        ok := IssueOne(Mfc);
      }
      if ok {
        ReachedInv(cfg, start, run, W());
        InvInStep(cfg, W());
      }
    }

    /** One create phase: at most two requests, then its recorded outcome. */
    method IssueOne(c: Client) returns (ok: bool)
      requires Traces() && pc == Sending(c, 0)
      modifies this
      ensures Traces() && old(run) <= run
      ensures looks == old(looks)
      ensures ok ==> pc == (if c == Rust then Sending(Mfc, 0) else Driving)
      ensures ok ==> disk.pending.Some? && disk.pending.value.outcome.None? && !IsPrepared(disk.pending.value.Get(c))
      ensures ok ==> disk.pending.value.Get(c).create.Some?
      ensures ok && old(disk).pending.Some? ==>
        forall d :: d != c ==> disk.pending.value.Get(d) == old(disk).pending.value.Get(d)
      ensures !ok ==> Died() && SomePrepared(disk.pending)
    {
      hide Looks, Valid, Reaches, Inv, ApplyLoop, ApplyProbe, ApplyRecovery, ApplyPolls, ApplyClosing;
      ReachedInv(cfg, start, run, W());
      InvIssuing(cfg, W());
      var outcome: CreateOutcome;
      ok, outcome := Exchange(c);
      if !ok {
        return;
      }
      var at := Clock();
      ghost var e := RecordCreate(at);
      var s := CompleteSearchCreate(disk, c, at, outcome);
      if s.Failure? {
        Raise(e, at);
        return false;
      }
      Persist(s.value, e, at, if c == Rust then Sending(Mfc, 0) else Driving, failures);
      ok := true;
    }

    /** At most two requests; the second goes out if and only if the first failed. */
    method Exchange(c: Client) returns (ok: bool, outcome: CreateOutcome)
      requires Traces() && pc == Sending(c, 0) && disk.pending.Some?
      modifies this`log, this`last, this`pc, this`run, this`looks
      ensures Traces() && old(run) <= run
      ensures looks == old(looks)
      ensures if ok then pc == Holding(c, outcome) else Died()
      ensures
        var cycle := disk.pending.value.cycle;
        || log == old(log) + [Post(cycle, c, 0)]
        || log == old(log) + [Post(cycle, c, 0), PostFailed(cycle, c), Post(cycle, c, 1)]
    {
      hide Looks, Reaches, Escaping;
      var attempt := 0;
      while true
        invariant Traces() && old(run) <= run && looks == old(looks)
        invariant pc == Sending(c, attempt) && attempt <= 1
        invariant log == old(log) + (if attempt == 0 then [] else
                                       [Post(disk.pending.value.cycle, c, 0), PostFailed(disk.pending.value.cycle, c)])
        decreases 1 - attempt
      {
        var reply := Request(c, attempt);
        outcome := OutcomeOf(c, reply);
        if !reply.NoAnswer? || attempt == 1 {
          return !reply.Escapes?, outcome;
        }
        attempt := 1;
      }
    }

    /** One request and its answer. */
    method Request(c: Client, attempt: nat) returns (reply: Reply)
      requires Traces() && pc == Sending(c, attempt) && attempt <= 1 && disk.pending.Some?
      modifies this`log, this`last, this`pc, this`run, this`looks
      ensures Traces() && old(run) <= run
      ensures looks == old(looks)
      ensures
        var cycle := disk.pending.value.cycle;
        if reply.NoAnswer? && attempt == 0 then
          pc == Sending(c, 1) && log == old(log) + [Post(cycle, c, attempt), PostFailed(cycle, c)]
        else
          && log == old(log) + [Post(cycle, c, attempt)]
          && (if reply.Escapes? then Died() else pc == Holding(c, OutcomeOf(c, reply)))
    {
      hide Looks, Reaches, Escaping;
      SendRequest(c, attempt);
      reply := TakeAnswer(c, attempt);
    }

    method SendRequest(c: Client, attempt: nat)
      requires Traces() && pc == Sending(c, attempt) && disk.pending.Some?
      modifies this`log, this`last, this`pc, this`run, this`looks
      ensures Traces() && old(run) <= run && pc == Awaiting(c, attempt)
      ensures looks == old(looks)
      ensures log == old(log) + [Post(disk.pending.value.cycle, c, attempt)]
    {
      hide Looks, Reaches, ApplyLoop, ApplyProbe, ApplyRecovery, ApplyPolls, ApplyClosing, CompleteSearchCreate;
      var at := Clock();
      Onward(cfg, start, run, W(), Send(at));
      log, last := log + [Post(disk.pending.value.cycle, c, attempt)], at;
      LooksNext(run, Send(at));
      pc, run := Awaiting(c, attempt), run + [Send(at)];
    }

    method TakeAnswer(c: Client, attempt: nat) returns (reply: Reply)
      requires Traces() && pc == Awaiting(c, attempt) && attempt <= 1 && disk.pending.Some?
      modifies this`log, this`last, this`pc, this`run, this`looks
      ensures Traces() && old(run) <= run
      ensures looks == old(looks)
      ensures
        if reply.NoAnswer? && attempt == 0 then
          pc == Sending(c, 1) && log == old(log) + [PostFailed(disk.pending.value.cycle, c)]
        else
          && log == old(log)
          && (if reply.Escapes? then Died() else pc == Holding(c, OutcomeOf(c, reply)))
    {
      hide Looks, Reaches, ApplyLoop, ApplyProbe, ApplyRecovery, ApplyPolls, ApplyClosing, CompleteSearchCreate;
      reply := HttpExchange();
      var at := Clock();
      if reply.Escapes? {
        Raise(Receive(at, reply), at);
        return;
      }
      Onward(cfg, start, run, W(), Receive(at, reply));
      LooksNext(run, Receive(at, reply));
      last, run := at, run + [Receive(at, reply)];
      if reply.NoAnswer? && attempt == 0 {
        log, pc := log + [PostFailed(disk.pending.value.cycle, c)], Sending(c, 1);
      } else {
        pc := Holding(c, OutcomeOf(c, reply));
      }
    }

    /** Opens the result polls of the creates that succeeded. */
    method StartPolls()
      requires Traces() && pc == Driving && PhaseOf(disk.pending) == Starting
      modifies this`disk, this`last, this`failures, this`pc, this`run, this`looks
      ensures Traces() && old(run) <= run && pc == Driving
      ensures looks == old(looks)
      ensures PhaseOf(disk.pending) == Polling
    {
      hide Looks, Valid, Reaches, Inv, ApplyLoop, ApplyProbe, ApplyRecovery, ApplyExchange, ApplyClosing, ApplyPolls;
      hide ServePoll;
      var at := Clock();
      ghost var e := ObserverRun.StartPolls(at);
      ReachedInv(cfg, start, run, W());
      RaisesExactly(cfg, W(), e);
      StartResult(cfg, W(), e);
      var one := StartOne(cfg, disk, Rust).value;
      Persist(StartOne(cfg, one, Mfc).value, e, at, Driving, failures);
    }

    /** Serves the first client whose poll is due with one request, or expires it. */
    method PollOnce() returns (ok: bool)
      requires Traces() && pc == Driving && PhaseOf(disk.pending) == Polling
      modifies this`disk, this`last, this`failures, this`pc, this`run, this`looks
      ensures Traces() && old(run) <= run
      ensures looks == old(looks)
      ensures disk.pending.Some?
      ensures ok ==> if AllTerminal(disk.pending.value) then pc == Driving && PhaseOf(disk.pending) == Closing
        else pc == Driven
      ensures !ok ==> Died() && disk == old(disk)
      ensures |run| == |old(run)| + 1 && W() == PlainStep(cfg, old(W()), run[|old(run)|])
    {
      hide Looks, PlainStep;
      hide Valid, Reaches, Inv, ApplyLoop, ApplyProbe, ApplyRecovery, ApplyExchange, ApplyClosing, ServePoll, Budget;
      hide Readable, Armed;
      var at := Clock();
      var second := *;
      if second < at {
        second := at;
      }
      var read := *;
      if read < second {
        read := second;
      }
      var answer := GetResults();
      ghost var e := ObserverRun.PollOnce(at, second, read, answer);
      ReachedInv(cfg, start, run, W());
      RaisesExactly(cfg, W(), e);
      StepIsPlain(cfg, W(), e);
      if Fetches(disk.pending, at, second) && !Readable(answer) {
        Raise(e, read);
        return false;
      }
      var served := Served(disk.pending.value, at, second);
      var s, done := disk, false;
      if served.Some? {
        s := ServePoll(disk, served.value.0, served.value.1, read, answer).value;
        ServePollShape(disk, served.value.0, served.value.1, read, answer);
        done := AllTerminal(s.pending.value);
      }
      Persist(s, e, read, if done then Driving else Driven, failures);
      ok := true;
    }

    /** Records the driver cycle of a pending action both of whose clients are done. */
    method CloseCycle()
      requires Traces() && pc == Driving && PhaseOf(disk.pending) == Closing
      modifies this`disk, this`last, this`failures, this`pc, this`run, this`looks
      ensures Traces() && old(run) <= run && pc == Driving && PhaseOf(disk.pending) == Marking
      ensures looks == old(looks)
      ensures |run| == |old(run)| + 1 && W() == PlainStep(cfg, old(W()), run[|old(run)|])
    {
      hide Looks, PlainStep;
      hide Valid, Reaches, Inv, ApplyLoop, ApplyProbe, ApplyRecovery, ApplyExchange, ApplyPolls, CyclePayload;
      var at := Clock();
      ghost var e := ObserverRun.CloseCycle(at);
      ReachedInv(cfg, start, run, W());
      NoEvidenceYet(cfg, W());
      RaisesExactly(cfg, W(), e);
      StepIsPlain(cfg, W(), e);
      Persist(RecordDriverCycle(disk, CyclePayload(disk.pending.value, at)).value, e, at, Driving, failures);
    }

    method MarkEvidence()
      requires Traces() && pc == Driving && PhaseOf(disk.pending) == Marking
      modifies this`disk, this`last, this`failures, this`pc, this`run, this`looks
      ensures Traces() && old(run) <= run && pc == Driving && PhaseOf(disk.pending) == Finalizing
      ensures looks == old(looks)
    {
      hide Looks, Valid, Reaches, Inv, ApplyLoop, ApplyProbe, ApplyRecovery, ApplyExchange, ApplyPolls;
      var at := Clock();
      ghost var e := ObserverRun.MarkEvidence(at);
      ReachedInv(cfg, start, run, W());
      RaisesExactly(cfg, W(), e);
      Persist(MarkEvidencePending(disk, disk.pending.value.outcome.value.completedAt).value, e, at, Driving, failures);
    }

    /** Stores the pending report unless an earlier process did, then commits it. */
    method FinalizePendingAction() returns (ok: bool)
      requires Traces() && pc == Driving && PhaseOf(disk.pending) == Finalizing
      modifies this
      ensures Traces() && old(run) <= run
      ensures looks == old(looks)
      ensures
        var k := old(disk).pending.value.reportSeq;
        if ok then
          && pc == Driven && disk.pending.None? && Commits(log) == Commits(old(log)) + [k]
          && k in reports && reports == old(reports)[k := reports[k]]
          && (k in old(reports) ==> reports == old(reports))
        else Died() && disk == old(disk) && reports == old(reports) && log == old(log)
    {
      hide Looks, Valid, Reaches, Inv, ApplyLoop, ApplyProbe, ApplyRecovery, ApplyExchange, ApplyPolls, ReportFor;
      var seqNo := disk.pending.value.reportSeq;
      var report := BuildReport();
      var at := Clock();
      if report.None? {
        Raise(FailReport(at), at);
        return false;
      }
      if seqNo !in reports {
        Store(report.value, at);
      }
      CommitPending();
      ok := true;
    }

    method Store(report: Report, at: int)
      requires Traces() && pc == Driving && PhaseOf(disk.pending) == Finalizing && last <= at
      requires disk.pending.value.reportSeq !in reports && ReportFor(cfg.campaign, disk.pending.value, report)
      modifies this`reports, this`log, this`last, this`run, this`looks
      ensures Traces() && old(run) <= run && Commits(log) == Commits(old(log))
      ensures looks == old(looks)
      ensures reports == old(reports)[disk.pending.value.reportSeq := report]
    {
      hide Looks, Valid, Reaches, Inv, ApplyLoop, ApplyProbe, ApplyRecovery, ApplyExchange, ApplyPolls, ReportFor;
      var seqNo := disk.pending.value.reportSeq;
      ghost var e := StoreReport(at, report);
      Onward(cfg, start, run, W(), e);
      reports, log, last := reports[seqNo := report], log + [Stored(seqNo)], at;
      LooksNext(run, e);
      run := run + [e];
      assert log[..|log| - 1] == old(log);
    }

    method CommitPending()
      requires Traces() && pc == Driving && PhaseOf(disk.pending) == Finalizing
      requires disk.pending.value.reportSeq in reports
      modifies this`disk, this`log, this`last, this`pc, this`run, this`looks
      ensures Traces() && old(run) <= run && pc == Driven && disk.pending.None?
      ensures looks == old(looks)
      ensures Commits(log) == Commits(old(log)) + [old(disk).pending.value.reportSeq]
    {
      hide Looks, Valid, Reaches, Inv, ApplyLoop, ApplyProbe, ApplyRecovery, ApplyExchange, ApplyPolls, ApplyClosing;
      hide FoldReport, CommitActionReport, RecordStreamRetention, Commits;
      var seqNo := disk.pending.value.reportSeq;
      var at := Clock();
      var bytes := 0;
      ghost var e := Commit(at, |reports|, bytes);
      ReachedInv(cfg, start, run, W());
      RaisesExactly(cfg, W(), e);
      CommitShape(W(), e);
      Onward(cfg, start, run, W(), e);
      disk := RecordStreamRetention(CommitActionReport(disk, reports[seqNo]).value, Actions, |reports|, bytes).value;
      log, last := log + [Committed(seqNo, at)], at;
      LooksNext(run, e);
      run, pc := run + [e], Driven;
      CommitsNext(old(log), seqNo, at);
    }

    /** Drives both clients of a pending action as far as they go now. */
    method DriveClients() returns (ok: bool, done: bool)
      requires Traces() && pc == Driving && disk.pending.Some? && disk.pending.value.outcome.None?
      modifies this
      ensures Traces() && old(run) <= run
      ensures looks == old(looks)
      ensures !ok ==> Died()
      ensures ok ==> if done then pc == Driving && PhaseOf(disk.pending) == Marking else pc == Driven
    {
      hide Looks, Valid, Reaches, Inv, PhaseOf, AllTerminal;
      done := false;
      RecoverCreates();
      if PhaseOf(disk.pending) == Preparing {
        ok := IssueCreates();
        if !ok {
          return;
        }
      }
      ok := true;
      if PhaseOf(disk.pending) == Starting {
        StartPolls();
      }
      if PhaseOf(disk.pending) == Polling {
        ok := PollOnce();
        if !ok || !AllTerminal(disk.pending.value) {
          return;
        }
      }
      CloseCycle();
      done := true;
    }

    /** Advances the pending action, reserving one first when there is none. It
        returns normally unless something from outside raises that nothing handles. */
    method CaptureActionCycle() returns (ok: bool)
      requires Traces() && pc == Driving
      modifies this
      ensures Traces() && old(run) <= run
      ensures looks == old(looks)
      ensures if ok then pc == Driven else Died()
    {
      hide Looks, Valid, Reaches, Inv, ReportFor, AllTerminal, Escaping;
      if disk.pending.None? {
        ok := ReserveOrSkip();
        if !ok || disk.pending.None? {
          return;
        }
      }
      if disk.pending.value.outcome.None? {
        var done;
        ok, done := DriveClients();
        if !ok || !done {
          return;
        }
      }
      if disk.pending.value.evidence.None? {
        MarkEvidence();
      }
      ok := FinalizePendingAction();
    }

    // ----- The loop ---------------------------------------------------------------------------

    /** Re-arms or clears the action deadline; `false` means the state was invalid. */
    method ReconcileActionDeadline(afterAction: bool) returns (ok: bool)
      requires Traces() && pc == if afterAction then Driven else Down
      modifies this`disk, this`last, this`failures, this`pc, this`run, this`looks
      ensures Traces() && old(run) <= run
      ensures looks == old(looks)
      ensures ok == Valid(old(disk))
      ensures if ok then pc == Idle && Armed(cfg, disk) else pc == Down
    {
      hide Looks, Valid, Reaches, Inv;
      var at := Clock();
      ghost var e := if afterAction then Rearm(at) else Boot(at);
      ReachedInv(cfg, start, run, W());
      RaisesExactly(cfg, W(), e);
      RearmValid(cfg, W());
      var s := Reconcile(cfg, disk, at, afterAction);
      if s.Failure? {
        Raise(e, at);
        return false;
      }
      Persist(s.value, e, at, Idle, if afterAction then failures else 0);
      ReachedInv(cfg, start, run, W());
      IdleArmed(cfg, W());
      ok := true;
    }

    /** Stores a checkpoint artifact and then counts it. Either may fail, and on an
        invalid state the first one does; the loop then goes on with the state it
        had, until too many checkpoints have failed in a row. */
    method CaptureCheckpoint(stamp: int) returns (alive: bool, counted: bool)
      requires Traces() && pc == Idle
      modifies this`disk, this`files, this`last, this`failures, this`pc, this`run, this`looks
      ensures Traces() && old(run) <= run && disk.pending == old(disk).pending
      ensures looks == old(looks) + (if counted then 0 else 1)
      ensures counted ==> alive && failures == 0 && disk.checkpoints.count == old(disk).checkpoints.count + 1
      ensures !counted ==> disk == old(disk) && (alive <==> old(failures) + 1 < cfg.failureThreshold)
      ensures pc == if alive then Idle else Down
    {
      hide Looks, Valid, Reaches, Inv, ApplyProbe, ApplyRecovery, ApplyExchange, ApplyPolls, ApplyClosing, Update;
      var fails := *;
      if fails || !Valid(disk) {
        var at := Clock();
        alive := PutOff(FailCheckpoint(at), at);
        return alive, false;
      }
      StoreArtifact();
      counted := *;
      var at := Clock();
      if counted {
        var next := RecordCheckpoint(disk, Utc(stamp)).value;
        RecordCheckpointValid(disk, Utc(stamp));
        Persist(RecordStreamRetention(next, CheckpointStream, files, 0).value, SummarizeCheckpoint(at, stamp, 0), at,
          Idle, 0);
        alive := true;
      } else {
        alive := PutOff(LoseCheckpoint(at), at);
      }
    }

    /** Counts a failed checkpoint, or dies of one too many. */
    method PutOff(ghost e: Event, at: int) returns (alive: bool)
      requires Traces() && (e == FailCheckpoint(at) || e == LoseCheckpoint(at)) && Enabled(cfg, W(), e)
      modifies this`disk, this`last, this`failures, this`pc, this`run, this`looks
      ensures Traces() && old(run) <= run && disk == old(disk)
      ensures looks == old(looks) + 1
      ensures alive <==> old(failures) + 1 < cfg.failureThreshold
      ensures pc == if alive then Idle else Down
    {
      hide Looks, Valid, Reaches, Inv, ApplyProbe, ApplyRecovery, ApplyExchange, ApplyPolls, ApplyClosing;
      alive := failures + 1 < cfg.failureThreshold;
      if alive {
        Persist(disk, e, at, Idle, failures + 1);
      } else {
        Raise(e, at);
      }
    }

    /** One more checkpoint file, up to the retention limit. */
    method StoreArtifact()
      requires Traces() && pc == Idle && Valid(disk)
      modifies this`files, this`last, this`pc, this`run, this`looks
      ensures Traces() && old(run) <= run && pc == Checkpointing && disk == old(disk) && failures == old(failures)
      ensures looks == old(looks)
    {
      hide Looks, Valid, Reaches, Inv, ApplyProbe, ApplyRecovery, ApplyExchange, ApplyPolls, ApplyClosing;
      var at := Clock();
      ghost var e := StoreCheckpoint(at);
      Onward(cfg, start, run, W(), e);
      files := if files < cfg.checkpointFiles then files + 1 else cfg.checkpointFiles;
      last := at;
      LooksNext(run, e);
      run, pc := run + [e], Checkpointing;
    }

    /** Whether the action is due; raises when the state is invalid. */
    method ActionDue() returns (due: Option<bool>)
      requires Traces() && pc == Idle
      modifies this`last, this`pc, this`run, this`looks
      ensures Traces() && old(run) <= run
      ensures looks == old(looks) + 1
      ensures due.Some? <==> Valid(disk)
      ensures pc == if due.None? then Down else if due.value then Driving else Idle
    {
      hide Looks, Valid, Reaches, Inv;
      var at := Clock();
      ghost var e := Wake(at);
      ReachedInv(cfg, start, run, W());
      RaisesExactly(cfg, W(), e);
      var answer := Due(cfg, disk, at);
      if answer.Failure? {
        Raise(e, at);
        return None;
      }
      Onward(cfg, start, run, W(), e);
      last := at;
      LooksNext(run, e);
      looks := looks + 1;
      run, pc := run + [e], if answer.value then Driving else Idle;
      due := Some(answer.value);
    }

    /** The observer's loop, stopped after some number of turns or by an exception. Every
        turn looks whether to drive, unless it puts a failed checkpoint off. Wherever it
        stops, what holds of every run holds of its store and log. */
    method RunObserver(turns: nat) returns (ok: bool)
      requires Traces() && pc == Down
      modifies this
      ensures Traces() && old(run) <= run
      ensures ok ==> looks == old(looks) + turns
      ensures PostsOnce(log) && Ordered(log) && BooksBalance(W())
      ensures ok ==> pc == Idle
    {
      hide Looks, Valid, Reaches, Inv, PostsOnce, Ordered, BooksBalance;
      ok := ReconcileActionDeadline(false);
      var turn := 0;
      while ok && turn < turns
        invariant Traces() && old(run) <= run && turn <= turns
        invariant ok ==> pc == Idle && looks == old(looks) + turn
      {
        var capture, stamp := *, *;
        var drive := true;
        if capture {
          ok, drive := CaptureCheckpoint(stamp);
        }
        if ok && drive {
          var due := ActionDue();
          ok := due.Some?;
          if ok && due.value {
            ok := CaptureActionCycle();
            if ok {
              ok := ReconcileActionDeadline(true);
            }
          }
        }
        turn := turn + 1;
      }
      ReachedInv(cfg, start, run, W());
      InvInStep(cfg, W());
      ReachedInOrder(cfg, start, run, W());
    }
  }

  /** What a create phase makes of its last answer. */
  function OutcomeOf(c: Client, reply: Reply): CreateOutcome {
    if reply.Answered? && reply.id != "" then Created(reply.id) else CreateError(CreateFailed(c))
  }

  /** An answer from outside, or the report, whose exception nothing handles; of a
      recorded create it is a white-space identifier. */
  predicate Escaping(e: Event) {
    || (e.Probe? && e.probe.ProbeEscapes?)
    || (e.Receive? && e.reply.Escapes?)
    || e.RecordCreate?
    || (e.PollOnce? && !Readable(e.answer))
    || e.FailReport?
  }

  /** Both creates have outcomes and the driver cycle is not recorded yet. */
  predicate Issued(p: Phase) {
    p == Starting || p == Polling || p == Closing
  }

  lemma RearmValid(cfg: Config, w: World)
    requires Inv(cfg, w)
    ensures w.pc == Driven ==> Valid(w.disk)
  {
    hide Valid, StateOk, PostsOk, Ledger;
  }

  lemma IdleArmed(cfg: Config, w: World)
    requires Inv(cfg, w) && w.pc == Idle
    ensures Armed(cfg, w.disk)
  {
    hide Valid, StateOk, PostsOk, Ledger;
  }

  lemma CommitsNext(log: seq<Effect>, seqNo: nat, at: int)
    ensures Commits(log + [Committed(seqNo, at)]) == Commits(log) + [seqNo]
  {
    assert (log + [Committed(seqNo, at)])[..|log|] == log;
  }

  lemma NoEvidenceYet(cfg: Config, w: World)
    requires Inv(cfg, w) && w.disk.pending.Some? && w.disk.pending.value.outcome.None?
    ensures w.disk.pending.value.evidence.None?
  {
    hide ValidCore, ClientOk, PostsOk, Ledger, PcOk;
  }

  lemma InvIssuing(cfg: Config, w: World)
    requires Inv(cfg, w) && w.pc.Sending?
    ensures Issuing(w.disk, w.pc.client)
  {
    hide StateOk, PostsOk, Ledger, Valid, Issuing;
  }

  lemma StartResult(cfg: Config, w: World, e: Event)
    requires e.StartPolls? && w.disk.pending.Some? && ApplyPolls(cfg, w, e).Success?
    requires PhaseOf(w.disk.pending) == Starting
    ensures
      var one := StartOne(cfg, w.disk, Rust);
      && one.Success? && StartOne(cfg, one.value, Mfc).Success?
      && ApplyPolls(cfg, w, e).value == w.(disk := StartOne(cfg, one.value, Mfc).value)
      && PhaseOf(StartOne(cfg, one.value, Mfc).value.pending) == Polling
  {
    hide Valid;
  }
}
