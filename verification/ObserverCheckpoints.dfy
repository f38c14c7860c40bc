/**
 Checkpoint artifacts against the counters of the durable state. The artifact is
 stored before the summary that counts it, so a checkpoint lost between the two
 leaves one artifact too many, for good.
 */
module ObserverCheckpoints {
  import opened Division
  import opened ObserverSummary
  import opened ObserverState
  import opened ObserverRun
  import opened ObserverSafety
  import opened ObserverLedger
  import opened ObserverTheorems
  import opened ObserverProgress

  predicate Loses(w: World, e: Event) {
    w.pc == Checkpointing && (e.Crash? || e.LoseCheckpoint?)
  }

  /** Checkpoints among the first `n` events of a run whose artifact was stored
      and whose summary was not. */
  function Lost(ws: seq<World>, es: seq<Event>, n: nat): nat
    requires n <= |es| && |ws| == |es| + 1
  {
    if n == 0 then 0 else Lost(ws, es, n - 1) + (if Loses(ws[n - 1], es[n - 1]) then 1 else 0)
  }

  /** Stored artifacts, up to the retention limit: the counted ones, the lost
      ones, and the one being counted. */
  predicate FilesOk(cfg: Config, w: World, lost: nat) {
    w.files == Least(cfg.checkpointFiles, w.disk.checkpoints.count + lost + (if w.pc == Checkpointing then 1 else 0))
  }

  // ----- What leaves checkpoints alone ---------------------------------------------------

  predicate SameCheckpoints(w: World, v: World) {
    && v.files == w.files && v.disk.checkpoints == w.disk.checkpoints
    && v.disk.checkpointRetention == w.disk.checkpointRetention
  }

  lemma ProbeKeeps(cfg: Config, w: World, at: int, probe: ProbeResult)
    requires ApplyProbe(cfg, w, at, probe).Success?
    ensures SameCheckpoints(w, ApplyProbe(cfg, w, at, probe).value)
  {
    hide Valid;
  }

  lemma ClosingKeeps(w: World, e: Event)
    requires ApplyClosing(w, e).Success?
    ensures SameCheckpoints(w, ApplyClosing(w, e).value)
  {
    hide Valid, FoldReport;
  }

  predicate LoopEvent(e: Event) {
    e.Boot? || e.Rearm? || e.Wake? || e.StoreCheckpoint? || e.SummarizeCheckpoint? || e.FailCheckpoint?
    || e.LoseCheckpoint?
  }

  predicate OutsideDrive(pc: Pc) {
    pc == Down || pc == Idle || pc == Checkpointing
  }

  lemma DriveKeeps(cfg: Config, w: World, e: Event)
    requires Enabled(cfg, w, e) && !LoopEvent(e) && Apply(cfg, w, e).Success?
    ensures SameCheckpoints(w, Apply(cfg, w, e).value)
    ensures !e.Crash? ==> !OutsideDrive(w.pc) && !OutsideDrive(Apply(cfg, w, e).value.pc)
  {
    hide ApplyProbe, ApplyRecovery, ApplyExchange, ApplyPolls, ApplyClosing;
    match e
    case Crash(_) =>
    case Probe(_, _) => ProbeKeeps(cfg, w, e.at, e.probe); ProbeQuiet(cfg, w, e);
    case CloseAmbiguous(_) => RecoveryShape(w, e.at); RecoveryPcs(w, e.at);
    case SkipPeer(_) => RecoveryShape(w, e.at); RecoveryPcs(w, e.at);
    case Prepare(_) => RecoveryShape(w, e.at); RecoveryPcs(w, e.at);
    case Send(_) => ExchangeShape(w, e); ExchangePcs(w, e);
    case Receive(_, _) => ExchangeShape(w, e); ExchangePcs(w, e);
    case RecordCreate(_) => ExchangeShape(w, e); ExchangePcs(w, e);
    case StartPolls(_) => PollsQuiet(cfg, w, e); PollsFiles(cfg, w, e);
    case PollOnce(_, _, _, _) => PollsQuiet(cfg, w, e); PollsFiles(cfg, w, e);
    case _ => ClosingKeeps(w, e); ClosingQuiet(w, e);
  }

  lemma PollsFiles(cfg: Config, w: World, e: Event)
    requires ApplyPolls(cfg, w, e).Success?
    ensures ApplyPolls(cfg, w, e).value.files == w.files
  {
    hide Valid, StartOne, ServePoll;
  }

  lemma RecoveryPcs(w: World, at: int)
    requires ApplyRecovery(w, at).Success?
    ensures var v := ApplyRecovery(w, at).value; v.pc == w.pc || v.pc.Sending?
  {
    hide Valid;
  }

  lemma ExchangePcs(w: World, e: Event)
    requires ApplyExchange(w, e).Success?
    ensures var v := ApplyExchange(w, e).value; v.pc.Sending? || v.pc.Awaiting? || v.pc.Holding? || v.pc == Driving
  {
    hide Valid;
  }

  // ----- One step ------------------------------------------------------------------------

  lemma CoreValid(cfg: Config, w: World)
    requires Core(cfg, w)
    ensures Valid(w.disk) <==> ValidRetention(w.disk.checkpointRetention, w.disk.checkpoints.count)
    ensures w.pc != Down && w.pc != Idle ==> Valid(w.disk)
  {
    hide ValidCore;
  }

  lemma LoopFiles(cfg: Config, w: World, e: Event, lost: nat)
    requires Core(cfg, w) && Enabled(cfg, w, e) && LoopEvent(e) && FilesOk(cfg, w, lost)
    requires ApplyLoop(cfg, w, e).Success?
    ensures FilesOk(cfg, ApplyLoop(cfg, w, e).value, lost + (if Loses(w, e) then 1 else 0))
    ensures !e.SummarizeCheckpoint? && Valid(w.disk) ==> Valid(ApplyLoop(cfg, w, e).value.disk)
  {
    hide ValidCore, StateOk;
  }

  /** Every step keeps the artifact count, and every step but the counting of a
      checkpoint keeps the durable state valid. */
  lemma StepFiles(cfg: Config, w: World, e: Event, lost: nat)
    requires ValidConfig(cfg) && Inv(cfg, w) && Enabled(cfg, w, e) && FilesOk(cfg, w, lost)
    ensures FilesOk(cfg, Step(cfg, w, e), lost + (if Loses(w, e) then 1 else 0))
    ensures !e.SummarizeCheckpoint? && Valid(w.disk) ==> Valid(Step(cfg, w, e).disk)
  {
    hide ApplyLoop, ApplyProbe, ApplyRecovery, ApplyExchange, ApplyPolls, ApplyClosing, Core, Ledger, PostsOk, Valid;
    if LoopEvent(e) {
      RaisesExactly(cfg, w, e);
      if Apply(cfg, w, e).Success? {
        LoopFiles(cfg, w, e, lost);
      }
    } else if Apply(cfg, w, e).Success? {
      DriveKeeps(cfg, w, e);
      hide Apply, Enabled;
      StepInv(cfg, w, e);
      CoreValid(cfg, w);
      CoreValid(cfg, Step(cfg, w, e));
    } else {
      assert w.pc != Checkpointing;
    }
  }

  /** Counting a checkpoint leaves the durable state valid exactly when no
      checkpoint was lost before, or retention has already dropped the excess. */
  lemma SummarizeExact(cfg: Config, w: World, e: Event, lost: nat)
    requires ValidConfig(cfg) && Inv(cfg, w) && Enabled(cfg, w, e) && e.SummarizeCheckpoint? && FilesOk(cfg, w, lost)
    ensures Valid(Step(cfg, w, e).disk) <==> lost == 0 || cfg.checkpointFiles <= w.disk.checkpoints.count + 1
  {
    hide ValidCore, Ledger, PostsOk, StateOk;
    RecordCheckpointValid(w.disk, Utc(e.stamp));
    RetentionExact(RecordCheckpoint(w.disk, Utc(e.stamp)).value, CheckpointStream, w.files, e.bytes);
  }

  // ----- Whole runs ------------------------------------------------------------------------

  lemma StartFiles(cfg: Config, now: int)
    ensures FilesOk(cfg, Start(cfg, now), 0)
  {
    hide NewSummary;
  }

  lemma {:induction false} RunFiles(cfg: Config, now: int, ws: seq<World>, es: seq<Event>, i: nat)
    requires Execution(cfg, now, ws, es) && i <= |es|
    ensures FilesOk(cfg, ws[i], Lost(ws, es, i))
  {
    hide Inv, Step, Enabled, FilesOk, Loses, Start;
    if i == 0 {
      StartFiles(cfg, now);
    } else {
      RunFiles(cfg, now, ws, es, i - 1);
      RunInv(cfg, now, ws, es, i - 1);
      assert Moves(cfg, ws, es, i - 1);
      StepFiles(cfg, ws[i - 1], es[i - 1], Lost(ws, es, i - 1));
    }
  }

  /** A run that never loses a checkpoint keeps the durable state valid. */
  lemma {:induction false} NothingLostStaysValid(cfg: Config, now: int, ws: seq<World>, es: seq<Event>, i: nat)
    requires Execution(cfg, now, ws, es) && i <= |es| && Lost(ws, es, i) == 0
    ensures Valid(ws[i].disk)
  {
    hide Valid, Inv, Step, Enabled, FilesOk, Loses, NewState;
    if i == 0 {
      NewStateValid(cfg.campaign, cfg.actionLimit, cfg.anomalyLimit, cfg.target);
    } else {
      NothingLostStaysValid(cfg, now, ws, es, i - 1);
      RunInv(cfg, now, ws, es, i - 1);
      RunFiles(cfg, now, ws, es, i - 1);
      assert Moves(cfg, ws, es, i - 1);
      StepFiles(cfg, ws[i - 1], es[i - 1], 0);
      if es[i - 1].SummarizeCheckpoint? {
        SummarizeExact(cfg, ws[i - 1], es[i - 1], 0);
      }
    }
  }

  /** The event counts a checkpoint while more artifacts are stored than it makes counted. */
  predicate Overcounts(ws: seq<World>, es: seq<Event>, i: nat)
    requires i < |es| && |ws| == |es| + 1
  {
    es[i].SummarizeCheckpoint? && ws[i].files > ws[i].disk.checkpoints.count + 1
  }

  /** The step that breaks the durable state, and exactly when. */
  lemma WedgeExactly(cfg: Config, now: int, ws: seq<World>, es: seq<Event>, i: nat)
    requires Execution(cfg, now, ws, es) && i < |es| && Valid(ws[i].disk)
    ensures Valid(ws[i + 1].disk) <==> !Overcounts(ws, es, i)
  {
    hide Valid, Inv, Step, Enabled, FilesOk, Start, Lost;
    RunInv(cfg, now, ws, es, i);
    RunFiles(cfg, now, ws, es, i);
    assert Moves(cfg, ws, es, i);
    StepFiles(cfg, ws[i], es[i], Lost(ws, es, i));
    if es[i].SummarizeCheckpoint? {
      SummarizeExact(cfg, ws[i], es[i], Lost(ws, es, i));
      OvercountMeansLost(cfg, now, ws, es, i);
    }
  }

  /** More artifacts than counted means that a checkpoint was lost before and
      retention has not begun to drop files. */
  lemma OvercountMeansLost(cfg: Config, now: int, ws: seq<World>, es: seq<Event>, i: nat)
    requires Execution(cfg, now, ws, es) && i < |es| && es[i].SummarizeCheckpoint?
    ensures Overcounts(ws, es, i) <==> Lost(ws, es, i) > 0 && ws[i].disk.checkpoints.count + 1 < cfg.checkpointFiles
  {
    hide Inv, Step, Start, Lost;
    RunFiles(cfg, now, ws, es, i);
    assert Moves(cfg, ws, es, i);
    SummarizesCheckpointing(cfg, ws[i], es[i]);
  }

  lemma SummarizesCheckpointing(cfg: Config, w: World, e: Event)
    requires Enabled(cfg, w, e) && e.SummarizeCheckpoint?
    ensures w.pc == Checkpointing
  {
  }

  /** Over whole runs: the durable state is valid if and only if no event so far
      counted a checkpoint over more artifacts than it made counted. */
  lemma {:induction false} ValidExactly(cfg: Config, now: int, ws: seq<World>, es: seq<Event>, i: nat)
    requires Execution(cfg, now, ws, es) && i <= |es|
    ensures Valid(ws[i].disk) <==> forall k :: 0 <= k < i ==> !Overcounts(ws, es, k)
  {
    hide Valid, Inv, Step, Enabled, NewState, Overcounts;
    if i == 0 {
      NewStateValid(cfg.campaign, cfg.actionLimit, cfg.anomalyLimit, cfg.target);
    } else {
      ValidExactly(cfg, now, ws, es, i - 1);
      if Valid(ws[i - 1].disk) {
        WedgeExactly(cfg, now, ws, es, i - 1);
      } else {
        BrokenForever(cfg, now, ws, es, i - 1, i);
      }
    }
  }

  lemma BrokenStep(cfg: Config, w: World, e: Event)
    requires ValidConfig(cfg) && Inv(cfg, w) && Enabled(cfg, w, e) && !Valid(w.disk)
    ensures
      var v := Step(cfg, w, e);
      v == w.(pc := v.pc, failures := v.failures, now := v.now)
  {
    hide Valid, ApplyLoop, ApplyProbe, ApplyRecovery, ApplyExchange, ApplyPolls, ApplyClosing, Core, Ledger, PostsOk;
    CoreValid(cfg, w);
    RaisesExactly(cfg, w, e);
    if e.FailCheckpoint? && Apply(cfg, w, e).Success? {
      FailingKeeps(cfg, w, e);
    }
  }

  lemma FailingKeeps(cfg: Config, w: World, e: Event)
    requires e.FailCheckpoint? && ApplyLoop(cfg, w, e).Success?
    ensures ApplyLoop(cfg, w, e).value == w.(pc := Idle, failures := w.failures + 1)
  {
  }

  /** A broken durable state is never repaired: every later start of the process
      raises, and nothing is driven, stored or sent again. */
  lemma {:induction false} BrokenForever(cfg: Config, now: int, ws: seq<World>, es: seq<Event>, i: nat, j: nat)
    requires Execution(cfg, now, ws, es) && i <= j <= |es| && !Valid(ws[i].disk)
    ensures ws[j] == ws[i].(pc := ws[j].pc, failures := ws[j].failures, now := ws[j].now)
    decreases j
  {
    hide Inv, Step, Enabled, Valid, Start;
    if i < j {
      BrokenForever(cfg, now, ws, es, i, j - 1);
      RunInv(cfg, now, ws, es, j - 1);
      assert Moves(cfg, ws, es, j - 1);
      BrokenStep(cfg, ws[j - 1], es[j - 1]);
    }
  }
}
