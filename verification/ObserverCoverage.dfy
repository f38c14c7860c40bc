/** What the schedule covers over whole runs, while cycles change the gate. */
module ObserverCoverage {
  import opened Wrappers
  import opened ObserverSummary
  import opened ObserverState
  import opened ObserverSchedule
  import opened ObserverRun
  import opened ObserverSafety
  import opened ObserverLedger
  import opened ObserverTheorems
  import opened ObserverHistory
  import opened ObserverProgress
  import opened ObserverProtocol

  // ----- The gate once it is decided -----------------------------------------------------

  predicate Decided(w: World) {
    w.disk.summary.gate.status != Pending
  }

  lemma DriveGate(cfg: Config, w: World, p: PendingAction, e: Event)
    requires w.disk.pending == Some(p) && Decided(w)
    ensures Decided(PlainDrive(cfg, w, p, e))
  {
    hide AfterPoll, Opened, Over, Fine, Reported;
  }

  lemma StepDecided(cfg: Config, w: World, e: Event)
    requires Decided(w)
    ensures Decided(PlainStep(cfg, w, e))
  {
    hide PlainDrive, Accepts, Asked, Usable;
    if w.disk.pending.Some? {
      DriveGate(cfg, w, w.disk.pending.value, e);
    }
  }

  /** Over every run a gate that is no longer pending never becomes pending again. */
  lemma {:induction false} GateStaysDecided(cfg: Config, now: int, ws: seq<World>, es: seq<Event>, i: nat, j: nat)
    requires Execution(cfg, now, ws, es) && i <= j <= |es| && Decided(ws[i])
    ensures Decided(ws[j])
    decreases j
  {
    hide PlainStep, Decided, Start;
    if i < j {
      GateStaysDecided(cfg, now, ws, es, i, j - 1);
      RunIsPlain(cfg, now, ws, es, j - 1);
      StepDecided(cfg, ws[j - 1], es[j - 1]);
    }
  }

  // ----- Reservations follow the schedule --------------------------------------------------

  /** The reservation is a search by this method, in the log and in the report it leads to. */
  predicate By(x: Effect, m: Parity)
    requires x.Reserved?
  {
    x.via == (if m == Server then OnServer else OnKad) && ParityOf(ViaOf(x.via)) == Some(m)
  }

  /** The term position and the method that a slot stands for under a decided gate. */
  function PairOf(terms: seq<string>, slot: nat): (nat, Parity)
    requires terms != [] && slot > 0
  {
    ((slot - 1) / 2 % |terms|, if slot % 2 == 1 then Server else Kad)
  }

  /** A reservation asks for the pair of its slot. */
  predicate AsksItsPair(terms: seq<string>, x: Effect) {
    x.Reserved? ==>
      && terms != [] && x.slot > 0
      && x.query == terms[PairOf(terms, x.slot).0] && By(x, PairOf(terms, x.slot).1)
  }

  /** A reservation asks for a method that the gate lacks: when it lacks one, for that
      one, with every term in turn, else for the pair of its slot. */
  predicate AsksUnmet(terms: seq<string>, g: Gate, x: Effect)
    requires x.Reserved?
  {
    && terms != [] && x.slot > 0
    && (By(x, Server) ==> g.successful.server < g.targets.server)
    && (By(x, Kad) ==> g.successful.kad < g.targets.kad)
    && (By(x, Server) || By(x, Kad))
    && (if g.successful.server < g.targets.server && g.successful.kad < g.targets.kad then AsksItsPair(terms, x)
        else x.query == terms[(x.slot - 1) % |terms|])
  }

  /** A step adds at most one effect, and a reservation only from a ready probe. */
  lemma StepReserves(cfg: Config, w: World, e: Event)
    requires ValidConfig(cfg) && Inv(cfg, w) && Enabled(cfg, w, e)
    ensures
      var v := PlainStep(cfg, w, e);
      && w.log <= v.log && |v.log| <= |w.log| + 1
      && (|v.log| > |w.log| && v.log[|w.log|].Reserved? ==>
            && cfg.terms != [] && w.disk.scheduler.nextSlot > 0
            && var (query, via) := Asked(cfg.terms, w.disk.scheduler.nextSlot, w.disk.summary.gate);
               v.log[|w.log|]
               == Reserved(w.disk.scheduler.nextSlot, w.disk.scheduler.nextCycle, e.at, query, via))
  {
    hide Inv, Enabled, Accepts, Asked, Usable, AfterPoll, Opened, Over, Fine, Reported, Folded;
  }

  lemma DecidedAsks(terms: seq<string>, slot: nat, cycle: nat, at: int, g: Gate)
    requires terms != [] && slot > 0 && g.status != Pending
    ensures
      var (query, via) := Asked(terms, slot, g);
      AsksItsPair(terms, Reserved(slot, cycle, at, query, via))
  {
  }

  lemma PendingAsks(terms: seq<string>, slot: nat, cycle: nat, at: int, g: Gate)
    requires terms != [] && slot > 0 && ValidGate(g) && g.status == Pending
    ensures
      var (query, via) := Asked(terms, slot, g);
      AsksUnmet(terms, g, Reserved(slot, cycle, at, query, via))
  {
  }

  lemma InvGate(cfg: Config, w: World)
    requires Inv(cfg, w)
    ensures ValidGate(w.disk.summary.gate)
  {
    hide PostsOk, Ledger, ValidGate;
  }

  /** Over every run a cycle reserved while the gate is pending searches by a method
      that still misses its target. */
  lemma PendingReservesUnmet(cfg: Config, now: int, ws: seq<World>, es: seq<Event>, i: nat)
    requires Execution(cfg, now, ws, es) && i < |es| && !Decided(ws[i])
    requires |ws[i + 1].log| > |ws[i].log| && ws[i + 1].log[|ws[i].log|].Reserved?
    ensures AsksUnmet(cfg.terms, ws[i].disk.summary.gate, ws[i + 1].log[|ws[i].log|])
  {
    hide Inv, Step, PlainStep, Enabled, Start, AsksUnmet, ValidGate, Asked;
    RunInv(cfg, now, ws, es, i);
    RunIsPlain(cfg, now, ws, es, i);
    assert Moves(cfg, ws, es, i);
    var w := ws[i];
    StepReserves(cfg, w, es[i]);
    InvGate(cfg, w);
    PendingAsks(cfg.terms, w.disk.scheduler.nextSlot, w.disk.scheduler.nextCycle, es[i].at, w.disk.summary.gate);
  }

  /** From the moment the gate is decided every reservation asks for the pair of its slot. */
  lemma {:induction false} ReservationsFollow(cfg: Config, now: int, ws: seq<World>, es: seq<Event>, i: nat, j: nat)
    requires Execution(cfg, now, ws, es) && i <= j <= |es| && Decided(ws[i])
    ensures |ws[i].log| <= |ws[j].log|
    ensures forall k :: |ws[i].log| <= k < |ws[j].log| ==> AsksItsPair(cfg.terms, ws[j].log[k])
    decreases j
  {
    hide Inv, Step, PlainStep, Enabled, Start, AsksItsPair, Asked;
    if i < j {
      ReservationsFollow(cfg, now, ws, es, i, j - 1);
      GateStaysDecided(cfg, now, ws, es, i, j - 1);
      RunInv(cfg, now, ws, es, j - 1);
      RunIsPlain(cfg, now, ws, es, j - 1);
      assert Moves(cfg, ws, es, j - 1);
      var w, v := ws[j - 1], ws[j];
      StepReserves(cfg, w, es[j - 1]);
      assert forall k :: 0 <= k < |w.log| ==> v.log[k] == w.log[k];
      if |v.log| > |w.log| {
        var x := v.log[|w.log|];
        if x.Reserved? {
          DecidedAsks(cfg.terms, x.slot, x.cycle, x.at, w.disk.summary.gate);
        } else {
          OtherAsks(cfg.terms, x);
        }
      }
    }
  }

  lemma OtherAsks(terms: seq<string>, x: Effect)
    requires !x.Reserved?
    ensures AsksItsPair(terms, x)
  {
  }

  // ----- Windows of slots --------------------------------------------------------------------

  lemma {:induction false} SlotsGrow(log: seq<Effect>, k: nat)
    requires k < |log| && log[k].Reserved?
    ensures |Slots(log[..k])| < |Slots(log)|
  {
    if k < |log| - 1 {
      assert log[..|log| - 1][..k] == log[..k];
      SlotsGrow(log[..|log| - 1], k);
    } else {
      assert log[..k] == log[..|log| - 1];
    }
  }

  /** A slot that was still to come is reserved only later in the log. */
  lemma LaterSlotLaterEffect(log: seq<Effect>, later: seq<Effect>, k: nat)
    requires log <= later && Ordered(later) && k < |log| && log[k].Reserved?
    ensures log[k].slot <= |Slots(log)|
  {
    hide Slots, Cycles, Commits;
    assert later[k] == log[k] && later[..k] == log[..k];
    assert InPlace(later[..k], later[k]);
    SlotsGrow(log, k);
  }

  /** The log as far as slots go: every slot before the next one was consumed, once
      and in order, and reservations in the window ask for the pair of their slot. */
  ghost predicate Covered(terms: seq<string>, log: seq<Effect>, start: nat, slot: nat, t: nat, m: Parity) {
    && terms != [] && start > 0
    && start <= slot < start + 2 * |terms|
    && slot <= |Slots(log)| && Slots(log) == UpTo(|Slots(log)|)
    && (forall other: nat :: start <= other < start + 2 * |terms| ==>
        (PairOf(terms, other) == (t, m) <==> other == slot))
    && forall k :: 0 <= k < |log| && log[k].Reserved? && start <= log[k].slot < start + 2 * |terms| ==>
         AsksItsPair(terms, log[k])
  }

  lemma InvSlots(cfg: Config, w: World)
    requires Inv(cfg, w)
    ensures w.disk.scheduler.nextSlot > 0 && Slots(w.log) == UpTo(w.disk.scheduler.nextSlot - 1)
    ensures |Slots(w.log)| == w.disk.scheduler.nextSlot - 1
  {
    hide Core, PostsOk, ReportsOk, RateOk, SummaryMatches;
  }

  lemma LogStep(cfg: Config, w: World, e: Event)
    ensures w.log <= PlainStep(cfg, w, e).log
  {
    hide Accepts, Asked, Usable, AfterPoll, Opened, Over, Fine, Reported, Folded;
  }

  lemma {:induction false} LogGrows(cfg: Config, now: int, ws: seq<World>, es: seq<Event>, i: nat, j: nat)
    requires Execution(cfg, now, ws, es) && i <= j <= |es|
    ensures ws[i].log <= ws[j].log
    decreases j
  {
    hide PlainStep, Start, Moves;
    if i < j {
      LogGrows(cfg, now, ws, es, i, j - 1);
      RunIsPlain(cfg, now, ws, es, j - 1);
      LogStep(cfg, ws[j - 1], es[j - 1]);
    }
  }

  /** The pair in the terms of the rotation. */
  lemma PairInRotation(terms: seq<string>, slot: nat, t: nat, m: Parity)
    requires terms != [] && slot > 0
    ensures PairOf(terms, slot) == (t, m) <==>
      TermIndex(slot, 2, |terms|) == t && (slot - 1) % 2 == (if m == Server then 0 else 1)
  {
    assert (slot - 1) % 2 == 0 <==> slot % 2 == 1;
  }

  lemma PairsOnce(terms: seq<string>, start: nat, t: nat, m: Parity) returns (slot: nat)
    requires start > 0 && t < |terms|
    ensures start <= slot < start + 2 * |terms|
    ensures forall other: nat :: start <= other < start + 2 * |terms| ==>
      (PairOf(terms, other) == (t, m) <==> other == slot)
  {
    hide PairOf, TermIndex;
    slot := PeriodOfRotation(terms, BOTH, start, t, if m == Server then 0 else 1);
    forall other: nat | start <= other < start + 2 * |terms|
      ensures PairOf(terms, other) == (t, m) <==> other == slot
    {
      PairInRotation(terms, other, t, m);
    }
  }

  /** Over every run, whatever cycles do to the gate once it is decided and whatever
      crashes happen: a window of twice as many consumed slots as terms holds exactly
      one slot for each term position and method, every slot of it was consumed once,
      and each cycle reserved in it asked for the term and the method of its slot. */
  lemma RunCoversEveryPair(
    cfg: Config, now: int, ws: seq<World>, es: seq<Event>, i: nat, j: nat, start: nat, t: nat, m: Parity)
    returns (slot: nat)
    requires Execution(cfg, now, ws, es) && i <= j <= |es| && Decided(ws[i]) && t < |cfg.terms|
    requires 0 < ws[i].disk.scheduler.nextSlot <= start
    requires start + 2 * |cfg.terms| <= ws[j].disk.scheduler.nextSlot
    ensures Covered(cfg.terms, ws[j].log, start, slot, t, m)
  {
    hide Inv, Ordered, Decided, Start, AsksItsPair, Slots, PairOf;
    RunInv(cfg, now, ws, es, i);
    RunInv(cfg, now, ws, es, j);
    InvSlots(cfg, ws[i]);
    InvSlots(cfg, ws[j]);
    RunOrdered(cfg, now, ws, es, j);
    LogGrows(cfg, now, ws, es, i, j);
    ReservationsFollow(cfg, now, ws, es, i, j);
    slot := PairsOnce(cfg.terms, start, t, m);
    var log := ws[j].log;
    forall k | 0 <= k < |log| && log[k].Reserved? && start <= log[k].slot < start + 2 * |cfg.terms|
      ensures AsksItsPair(cfg.terms, log[k])
    {
      if k < |ws[i].log| {
        LaterSlotLaterEffect(ws[i].log, log, k);
      }
    }
  }
}
