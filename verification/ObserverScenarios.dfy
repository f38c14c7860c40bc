/** Concrete runs that show where the promises of the observer stop. */
module ObserverScenarios {
  import opened Wrappers
  import opened Blanks
  import opened ObserverSummary
  import opened ObserverState
  import opened ObserverRun
  import opened ObserverSafety
  import opened ObserverLedger
  import opened ObserverTheorems
  import opened ObserverProgress
  import opened ObserverCheckpoints
  import opened ObserverTermination

  lemma Next(cfg: Config, now: int, ws: seq<World>, es: seq<Event>, e: Event) returns (vs: seq<World>, fs: seq<Event>)
    requires Execution(cfg, now, ws, es) && Enabled(cfg, ws[|es|], e)
    ensures vs == ws + [Step(cfg, ws[|es|], e)] && fs == es + [e] && Execution(cfg, now, vs, fs)
  {
    hide Step, Enabled, Start;
    vs, fs := ws + [Step(cfg, ws[|es|], e)], es + [e];
    Extend(cfg, now, ws, es, e);
  }

  // ----- A lost checkpoint ------------------------------------------------------------------

  /** One more artifact is stored, or the checkpoint being counted is lost; the
      threshold of failures may end the process. */
  lemma CheckpointTurn(cfg: Config, w: World, e: Event)
    requires ValidConfig(cfg) && Valid(w.disk)
    requires (w.pc == Idle && e == StoreCheckpoint(e.at)) || (w.pc == Checkpointing && e == LoseCheckpoint(e.at))
    ensures
      var v := Step(cfg, w, e);
      && v.disk == w.disk && v.now == e.at
      && (if e.StoreCheckpoint? then v.pc == Checkpointing else v.pc == Idle || v.pc == Down)
      && (e.StoreCheckpoint? && w.files < cfg.checkpointFiles ==> v.files == w.files + 1)
      && (e.LoseCheckpoint? ==> v.files == w.files)
  {
    hide Valid;
  }

  /** A restart keeps a valid state and the checkpoints it counted. */
  lemma RestartTurn(cfg: Config, w: World, at: int)
    requires w.pc == Down && Valid(w.disk) && w.now == at
    ensures Enabled(cfg, w, Boot(at))
    ensures
      var v := Step(cfg, w, Boot(at));
      && v.pc == Idle && v.now == at && v.files == w.files && Valid(v.disk) && v.disk.checkpoints == w.disk.checkpoints
  {
    hide Valid;
    DeadlineExact(w.disk, None);
    DeadlineExact(w.disk, Some(at + cfg.startDelay));
    DeadlineExact(w.disk, Some(at + cfg.interval));
  }

  lemma BootTurn(cfg: Config, w: World, at: int)
    requires w.pc == Down && Valid(w.disk) && w.disk.pending.None? && w.disk.scheduler.nextActionAt.None?
    requires w.disk.driver.cycles == 0
    ensures
      var v := Step(cfg, w, Boot(at));
      && v.pc == Idle && v.now == at && v.log == w.log && v.files == w.files && Valid(v.disk)
      && v.disk == w.disk.(scheduler := w.disk.scheduler.(
                             nextActionAt := if cfg.enabled then Some(at + cfg.startDelay) else None))
  {
    DeadlineExact(w.disk, Some(at + cfg.startDelay));
    hide ValidCore;
  }

  lemma Booted(cfg: Config, now: int) returns (ws: seq<World>, es: seq<Event>)
    requires ValidConfig(cfg)
    ensures Execution(cfg, now, ws, es) && Uninterrupted(es)
    ensures
      var w := ws[|es|];
      && w.pc == Idle && w.now == now && w.log == [] && w.files == 0 && Valid(w.disk)
      && w.disk.checkpoints.count == 0 && w.disk.pending.None? && w.disk.scheduler.nextCycle == 1
      && (cfg.enabled ==> w.disk.scheduler.nextActionAt == Some(now + cfg.startDelay))
  {
    hide Valid, NewSummary, ValidSummary, Step;
    NewStateValid(cfg.campaign, cfg.actionLimit, cfg.anomalyLimit, cfg.target);
    BootTurn(cfg, Start(cfg, now), now);
    BootEnabled(cfg, Start(cfg, now), now);
    ws, es := Next(cfg, now, [Start(cfg, now)], [], Boot(now));
  }

  lemma BootEnabled(cfg: Config, w: World, at: int)
    requires w.pc == Down && w.now == at
    ensures Enabled(cfg, w, Boot(at))
  {
  }

  /** A single checkpoint lost between its artifact and its summary, at any
      retention limit above one, makes the next counted one break the durable
      state, which no later run repairs. */
  lemma LostCheckpointBreaks(cfg: Config, now: int, stamp: int, bytes: nat) returns (ws: seq<World>, es: seq<Event>)
    requires ValidConfig(cfg) && cfg.checkpointFiles > 1
    ensures Execution(cfg, now, ws, es) && Uninterrupted(es) && !Valid(ws[|es|].disk)
  {
    hide Valid, Step, Start, Enabled, Execution;
    var store, lose, sum := StoreCheckpoint(now), LoseCheckpoint(now), SummarizeCheckpoint(now, stamp, bytes);
    ws, es := Booted(cfg, now);
    Lengths(cfg, now, ws, es);
    CheckpointEnabled(cfg, ws[|es|], store);
    CheckpointTurn(cfg, ws[|es|], store);
    ws, es := Next(cfg, now, ws, es, store);
    CheckpointEnabled(cfg, ws[|es|], lose);
    CheckpointTurn(cfg, ws[|es|], lose);
    ws, es := Next(cfg, now, ws, es, lose);
    if ws[|es|].pc == Down {
      RestartTurn(cfg, ws[|es|], now);
      ws, es := Next(cfg, now, ws, es, Boot(now));
    }
    CheckpointEnabled(cfg, ws[|es|], store);
    CheckpointTurn(cfg, ws[|es|], store);
    ws, es := Next(cfg, now, ws, es, store);
    CheckpointEnabled(cfg, ws[|es|], sum);
    var i := |es|;
    ws, es := Next(cfg, now, ws, es, sum);
    WedgeExactly(cfg, now, ws, es, i);
  }

  lemma Lengths(cfg: Config, now: int, ws: seq<World>, es: seq<Event>)
    requires Execution(cfg, now, ws, es)
    ensures |ws| == |es| + 1
  {
  }

  lemma CheckpointEnabled(cfg: Config, w: World, e: Event)
    requires w.now == e.at
    requires (w.pc == Idle && Valid(w.disk) && e.StoreCheckpoint?)
             || (w.pc == Checkpointing && (e.LoseCheckpoint? || e.SummarizeCheckpoint?))
    ensures Enabled(cfg, w, e)
  {
  }

  // ----- Create requests ----------------------------------------------------------------------

  const RUN := Run(1, "r")

  lemma WakeTurn(cfg: Config, w: World, at: int)
    requires w.pc == Idle && w.now <= at && Valid(w.disk) && cfg.enabled && w.disk.pending.None?
    requires w.disk.scheduler.nextActionAt == Some(at)
    ensures Enabled(cfg, w, Wake(at))
    ensures Step(cfg, w, Wake(at)) == w.(pc := Driving, now := at)
  {
    hide Valid;
  }

  lemma ReserveTurn(cfg: Config, w: World, e: Event)
    requires ValidConfig(cfg) && Inv(cfg, w) && w.pc == Driving && w.disk.pending.None?
    requires e == Probe(w.now, Ready(RUN, RUN)) && w.disk.scheduler.nextCycle == 1
    ensures Enabled(cfg, w, e)
    ensures
      var v := Step(cfg, w, e);
      && v.pc == Driving && v.now == w.now && PhaseOf(v.disk.pending) == Preparing && v.disk.pending.value.cycle == 1
      && |v.log| == |w.log| + 1
  {
    hide Valid, ValidCore, StateOk, Ledger, PostsOk;
    ProbeRaises(cfg, w, e);
    assert RUN.runId[0] == 'r';
  }

  lemma PrepareTurn(cfg: Config, w: World, e: Event)
    requires ValidConfig(cfg) && Inv(cfg, w) && w.pc == Driving && PhaseOf(w.disk.pending) == Preparing
    requires e == Prepare(w.now)
    ensures Enabled(cfg, w, e)
    ensures
      var v := Step(cfg, w, e);
      v.pc == Sending(Rust, 0) && v.log == w.log && v.disk.pending.Some? && v.now == w.now
      && v.disk.pending.value.cycle == w.disk.pending.value.cycle
  {
    hide ApplyRecovery, Core, Ledger, PostsOk;
    RecoveryAccepts(cfg, w, e);
    PrepareMoves(w, w.now);
  }

  /** A run that reaches its first create request. */
  lemma FirstCreate(cfg: Config, now: int) returns (ws: seq<World>, es: seq<Event>)
    requires ValidConfig(cfg) && cfg.enabled
    ensures Execution(cfg, now, ws, es) && |ws| == |es| + 1
    ensures
      var w := ws[|es|];
      w.pc == Sending(Rust, 0) && w.disk.pending.Some? && w.disk.pending.value.cycle == 1
  {
    hide Valid, Step, Start, Enabled, Inv, Execution;
    var due := now + cfg.startDelay;
    ws, es := Booted(cfg, now);
    Lengths(cfg, now, ws, es);
    WakeTurn(cfg, ws[|es|], due);
    ws, es := Next(cfg, now, ws, es, Wake(due));
    RunInv(cfg, now, ws, es, |es|);
    ReserveTurn(cfg, ws[|es|], Probe(due, Ready(RUN, RUN)));
    ws, es := Next(cfg, now, ws, es, Probe(due, Ready(RUN, RUN)));
    RunInv(cfg, now, ws, es, |es|);
    PrepareTurn(cfg, ws[|es|], Prepare(due));
    ws, es := Next(cfg, now, ws, es, Prepare(due));
  }

  lemma ExchangeTurn(cfg: Config, w: World, e: Event)
    requires w.disk.pending.Some? && e.at == w.now
    requires (e.Send? && w.pc.Sending?) || (e.Receive? && w.pc.Awaiting? && !e.reply.Escapes?)
    ensures Enabled(cfg, w, e)
    ensures Step(cfg, w, e) == ApplyExchange(w, e).value
  {
    hide Valid;
  }

  /** One create phase may send two requests, because the REST layer repeats a
      request that failed: the count per phase is one, on the wire two. */
  lemma RetryReachesTheWire(cfg: Config, now: int) returns (ws: seq<World>, es: seq<Event>)
    requires ValidConfig(cfg) && cfg.enabled
    ensures Execution(cfg, now, ws, es)
    ensures
      var log := ws[|es|].log;
      |log| >= 3 && log[|log| - 3..] == [Post(1, Rust, 0), PostFailed(1, Rust), Post(1, Rust, 1)]
  {
    hide Step, Start, Enabled, CompleteSearchCreate, Execution;
    ws, es := FirstCreate(cfg, now);
    var w := ws[|es|];
    var send, silent := Send(w.now), Receive(w.now, NoAnswer);
    ExchangeTurn(cfg, ws[|es|], send);
    ws, es := Next(cfg, now, ws, es, send);
    ExchangeTurn(cfg, ws[|es|], silent);
    ws, es := Next(cfg, now, ws, es, silent);
    ExchangeTurn(cfg, ws[|es|], send);
    ws, es := Next(cfg, now, ws, es, send);
    assert ws[|es|].log == w.log + [Post(1, Rust, 0), PostFailed(1, Rust), Post(1, Rust, 1)];
  }

  /** A white-space search identifier raises after the request was answered, and
      leaves the create prepared on disk. */
  lemma WhitespaceIdRaises(cfg: Config, now: int) returns (ws: seq<World>, es: seq<Event>, e: Event)
    requires ValidConfig(cfg) && cfg.enabled
    ensures Execution(cfg, now, ws, es) && Enabled(cfg, ws[|es|], e)
    ensures
      var w := ws[|es|];
      && Raises(cfg, w, e) && Post(1, Rust, 0) in w.log
      && w.disk.pending.Some? && IsPrepared(w.disk.pending.value.rust)
  {
    hide Step, Start, Enabled, CompleteSearchCreate, Inv, Apply, Execution;
    ws, es := FirstCreate(cfg, now);
    var w := ws[|es|];
    var send, answer := Send(w.now), Receive(w.now, Answered(" "));
    ExchangeTurn(cfg, w, send);
    ws, es := Next(cfg, now, ws, es, send);
    var one := ws[|es|];
    assert one.log[|one.log| - 1] == Post(1, Rust, 0);
    ExchangeTurn(cfg, one, answer);
    ws, es := Next(cfg, now, ws, es, answer);
    var two := ws[|es|];
    e := RecordCreate(two.now);
    HoldingTurn(cfg, two);
    RunInv(cfg, now, ws, es, |es|);
    RunRaisesExactly(cfg, now, ws, es, |es|, e);
    StillPrepared(cfg, two);
  }

  lemma HoldingTurn(cfg: Config, w: World)
    requires w.pc.Holding?
    ensures Enabled(cfg, w, RecordCreate(w.now))
  {
  }

  lemma StillPrepared(cfg: Config, w: World)
    requires Inv(cfg, w) && w.pc.Holding? && w.pc.client == Rust
    ensures w.disk.pending.Some? && IsPrepared(w.disk.pending.value.rust)
  {
    hide StateOk, Ledger, PostsOk, Valid;
  }

  // ----- A page that cannot be read --------------------------------------------------------------

  predicate JustCreated(c: ClientState, at: int) {
    && c.create.Some? && c.create.value.Succeeded? && c.create.value.completedAt == at
    && c.poll.None? && c.results.None?
  }

  lemma RecordTurn(cfg: Config, w: World, c: Client, id: string)
    requires Inv(cfg, w) && w.pc == Holding(c, Created(id)) && !BlankId(id)
    ensures
      var v := Step(cfg, w, RecordCreate(w.now));
      && v.now == w.now && v.pc == (if c == Rust then Sending(Mfc, 0) else Driving)
      && w.disk.pending.Some? && v.disk.pending.Some? && v.disk.pending.value.outcome.None?
      && JustCreated(v.disk.pending.value.Get(c), w.now)
      && (forall d :: d != c ==> v.disk.pending.value.Get(d) == w.disk.pending.value.Get(d))
  {
    hide Valid, StateOk, Ledger, PostsOk;
    CompleteExact(w.disk, c, w.now, Created(id));
  }

  /** One create answered with an identifier at once. */
  lemma CreateOne(cfg: Config, now: int, ws: seq<World>, es: seq<Event>, c: Client)
    returns (vs: seq<World>, fs: seq<Event>)
    requires Execution(cfg, now, ws, es) && |ws| == |es| + 1
    requires ws[|es|].pc == Sending(c, 0) && ws[|es|].disk.pending.Some?
    ensures Execution(cfg, now, vs, fs) && |vs| == |fs| + 1
    ensures
      var w, v := ws[|es|], vs[|fs|];
      && v.now == w.now && v.pc == (if c == Rust then Sending(Mfc, 0) else Driving)
      && v.disk.pending.Some? && v.disk.pending.value.outcome.None?
      && JustCreated(v.disk.pending.value.Get(c), w.now)
      && (forall d :: d != c ==> v.disk.pending.value.Get(d) == w.disk.pending.value.Get(d))
  {
    hide Step, Start, Enabled, CompleteSearchCreate, Inv, Execution, JustCreated;
    var w := ws[|es|];
    ExchangeTurn(cfg, w, Send(w.now));
    vs, fs := Next(cfg, now, ws, es, Send(w.now));
    var answer := Receive(w.now, Answered("1"));
    ExchangeTurn(cfg, vs[|fs|], answer);
    vs, fs := Next(cfg, now, vs, fs, answer);
    HoldingTurn(cfg, vs[|fs|]);
    RunInv(cfg, now, vs, fs, |fs|);
    assert !BlankId("1") by { assert "1"[0] == '1'; }
    RecordTurn(cfg, vs[|fs|], c, "1");
    vs, fs := Next(cfg, now, vs, fs, RecordCreate(w.now));
  }

  /** Both polls open at once, due at the instant the creates completed. */
  lemma PollsTurn(cfg: Config, w: World)
    requires ValidConfig(cfg) && Inv(cfg, w) && w.pc == Driving && w.disk.pending.Some?
    requires w.disk.pending.value.outcome.None?
    requires JustCreated(w.disk.pending.value.rust, w.now) && JustCreated(w.disk.pending.value.mfc, w.now)
    ensures Enabled(cfg, w, StartPolls(w.now))
    ensures
      var v := Step(cfg, w, StartPolls(w.now));
      && v.pc == Driving && v.now == w.now && v.disk.pending.Some? && PhaseOf(v.disk.pending) == Polling
      && Fetches(v.disk.pending, w.now, w.now)
  {
    hide Ledger, PostsOk, ValidCore, Valid;
    StartOneAccepts(cfg, w.disk, Rust);
    StartOneAccepts(cfg, StartOne(cfg, w.disk, Rust).value, Mfc);
  }

  lemma PollEnabled(cfg: Config, w: World, answer: GetAnswer)
    requires w.pc == Driving && PhaseOf(w.disk.pending) == Polling
    ensures Enabled(cfg, w, PollOnce(w.now, w.now, w.now, answer))
  {
  }

  /** A page with fewer results in all than rows raises and leaves the work of the
      action as it was: a restart may meet the same page again. */
  lemma UnreadablePageStalls(cfg: Config, now: int) returns (ws: seq<World>, es: seq<Event>, e: Event)
    requires ValidConfig(cfg) && cfg.enabled
    ensures Execution(cfg, now, ws, es) && Enabled(cfg, ws[|es|], e) && Drives(ws[|es|], e)
    ensures ws[|es|].disk.pending.Some? && Raises(cfg, ws[|es|], e)
    ensures Work(cfg, Step(cfg, ws[|es|], e)) == Work(cfg, ws[|es|])
  {
    hide Step, Start, Enabled, Inv, Execution, JustCreated, PhaseOf, Fetches, Work, Apply;
    ws, es := FirstCreate(cfg, now);
    ws, es := CreateOne(cfg, now, ws, es, Rust);
    ws, es := CreateOne(cfg, now, ws, es, Mfc);
    var w := ws[|es|];
    assert JustCreated(w.disk.pending.value.Get(Rust), w.now) && JustCreated(w.disk.pending.value.Get(Mfc), w.now);
    RunInv(cfg, now, ws, es, |es|);
    PollsTurn(cfg, w);
    ws, es := Next(cfg, now, ws, es, StartPolls(w.now));
    e := PollOnce(w.now, w.now, w.now, Got(PageRead(1, 0, false)));
    PollEnabled(cfg, ws[|es|], e.answer);
    RunInv(cfg, now, ws, es, |es|);
    RunRaisesExactly(cfg, now, ws, es, |es|, e);
    StepWorks(cfg, ws[|es|], e);
  }
}
