/**
 The client-UDP lifecycle audit: one pass that collects send attempts and
 terminals by attempt ID, then one that pairs them up, counting violations.
 */
module UdpLifecycle {
  import opened Wrappers
  import opened Tally
  import opened JsonFields

  // ----- Records ---------------------------------------------------------------

  datatype UdpEvent = Packet | SendOutcome | OtherEvent

  datatype UdpOutcome = Attempted | SendSucceeded | SendFailed | SendCancelled | OtherOutcome

  /** The attempt ID may stand in the body or, failing that, among the keys. */
  datatype UdpRecord = UdpRecord(
    event: UdpEvent, sending: bool, outcome: UdpOutcome, bodyId: Json, keysId: Json, deliveryKnown: Json)

  function SendAttemptId(r: UdpRecord): Json {
    if r.bodyId.Missing? then r.keysId else r.bodyId
  }

  predicate ValidId(r: UdpRecord) {
    Positive(SendAttemptId(r)).Success?
  }

  function IdOf(r: UdpRecord): nat
    requires ValidId(r)
  {
    Positive(SendAttemptId(r)).value
  }

  predicate IsAttempt(r: UdpRecord) {
    r.event == Packet && r.sending
  }

  predicate IsTerminal(r: UdpRecord) {
    r.event == SendOutcome
  }

  predicate GoodAttempt(r: UdpRecord) {
    IsAttempt(r) && r.outcome == Attempted && ValidId(r)
  }

  predicate TerminalOutcome(o: UdpOutcome) {
    o == SendSucceeded || o == SendFailed || o == SendCancelled
  }

  predicate DeliveryFits(r: UdpRecord) {
    r.deliveryKnown == Bool(r.outcome != SendCancelled)
  }

  // ----- What the first pass collects --------------------------------------------

  /** Index of the first well-formed attempt of each ID. */
  function Attempts(rs: seq<UdpRecord>): map<nat, nat> {
    if |rs| == 0 then map[]
    else
      var front, r := Attempts(rs[..|rs| - 1]), rs[|rs| - 1];
      if GoodAttempt(r) && IdOf(r) !in front then front[IdOf(r) := |rs| - 1] else front
  }

  /** Indices of the terminals of each ID, in order. */
  function Terminals(rs: seq<UdpRecord>): map<nat, seq<nat>> {
    if |rs| == 0 then map[]
    else
      var front, r := Terminals(rs[..|rs| - 1]), rs[|rs| - 1];
      if IsTerminal(r) && ValidId(r) then
        front[IdOf(r) := (if IdOf(r) in front then front[IdOf(r)] else []) + [|rs| - 1]]
      else front
  }

  /** Violations of one record, given the attempts before it. */
  function RecordFaults(before: map<nat, nat>, r: UdpRecord): nat {
    if IsAttempt(r) then (if GoodAttempt(r) && IdOf(r) !in before then 0 else 1)
    else if IsTerminal(r) then
      if !ValidId(r) then 1
      else (if TerminalOutcome(r.outcome) then 0 else 1) + (if DeliveryFits(r) then 0 else 1)
    else 0
  }

  function Faults(rs: seq<UdpRecord>): nat {
    if |rs| == 0 then 0
    else Faults(rs[..|rs| - 1]) + RecordFaults(Attempts(rs[..|rs| - 1]), rs[|rs| - 1])
  }

  function TerminalCount(rs: seq<UdpRecord>): nat {
    Count(rs, (r: UdpRecord) => IsTerminal(r) && ValidId(r))
  }

  // ----- What the second pass counts -----------------------------------------------

  /** An attempt without exactly one terminal after it. */
  predicate Unpaired(attempts: map<nat, nat>, terminals: map<nat, seq<nat>>, id: nat) {
    id in attempts && (id !in terminals || |terminals[id]| != 1 || terminals[id][0] < attempts[id])
  }

  function UnpairedIds(attempts: map<nat, nat>, terminals: map<nat, seq<nat>>): set<nat> {
    set id | id in attempts && Unpaired(attempts, terminals, id)
  }

  function OrphanIds(attempts: map<nat, nat>, terminals: map<nat, seq<nat>>): set<nat> {
    terminals.Keys - attempts.Keys
  }

  function Violations(rs: seq<UdpRecord>): nat {
    Faults(rs) + |UnpairedIds(Attempts(rs), Terminals(rs))| + |OrphanIds(Attempts(rs), Terminals(rs))|
  }

  // ----- The declarative reading -----------------------------------------------------

  /** Attempts and terminals are well formed and in one-to-one correspondence by
      ID, every terminal after its attempt. */
  ghost predicate Corresponds(rs: seq<UdpRecord>) {
    && (forall i :: 0 <= i < |rs| && IsAttempt(rs[i]) ==> GoodAttempt(rs[i]))
    && (forall i :: 0 <= i < |rs| && IsTerminal(rs[i]) ==>
          ValidId(rs[i]) && TerminalOutcome(rs[i].outcome) && DeliveryFits(rs[i]))
    && (forall i, j :: 0 <= i < j < |rs| && IsAttempt(rs[i]) && IsAttempt(rs[j]) ==> IdOf(rs[i]) != IdOf(rs[j]))
    && (forall i, j :: 0 <= i < j < |rs| && IsTerminal(rs[i]) && IsTerminal(rs[j]) ==> IdOf(rs[i]) != IdOf(rs[j]))
    && (forall i :: 0 <= i < |rs| && IsAttempt(rs[i]) ==>
          exists j :: i < j < |rs| && IsTerminal(rs[j]) && IdOf(rs[j]) == IdOf(rs[i]))
    && (forall j :: 0 <= j < |rs| && IsTerminal(rs[j]) ==>
          exists i :: 0 <= i < |rs| && IsAttempt(rs[i]) && IdOf(rs[i]) == IdOf(rs[j]))
  }

  /** The first half of `Corresponds`, up to the attempts being distinct. */
  ghost predicate WellFormed(rs: seq<UdpRecord>) {
    && (forall i :: 0 <= i < |rs| && IsAttempt(rs[i]) ==> GoodAttempt(rs[i]))
    && (forall i :: 0 <= i < |rs| && IsTerminal(rs[i]) ==>
          ValidId(rs[i]) && TerminalOutcome(rs[i].outcome) && DeliveryFits(rs[i]))
    && (forall i, j :: 0 <= i < j < |rs| && IsAttempt(rs[i]) && IsAttempt(rs[j]) ==> IdOf(rs[i]) != IdOf(rs[j]))
  }

  lemma {:induction false} AttemptsAre(rs: seq<UdpRecord>)
    ensures forall id :: id in Attempts(rs) ==>
      Attempts(rs)[id] < |rs| && GoodAttempt(rs[Attempts(rs)[id]]) && IdOf(rs[Attempts(rs)[id]]) == id
    ensures forall i :: 0 <= i < |rs| && GoodAttempt(rs[i]) ==>
      IdOf(rs[i]) in Attempts(rs) && Attempts(rs)[IdOf(rs[i])] <= i
  {
    if |rs| > 0 {
      AttemptsAre(rs[..|rs| - 1]);
      assert forall i :: 0 <= i < |rs| - 1 ==> rs[..|rs| - 1][i] == rs[i];
    }
  }

  lemma {:induction false} TerminalAt(rs: seq<UdpRecord>, id: nat, k: nat)
    requires id in Terminals(rs) && k < |Terminals(rs)[id]|
    ensures
      var i := Terminals(rs)[id][k];
      i < |rs| && IsTerminal(rs[i]) && ValidId(rs[i]) && IdOf(rs[i]) == id
    ensures k > 0 ==> Terminals(rs)[id][0] < Terminals(rs)[id][k]
  {
    hide ValidId, IdOf, IsTerminal;
    var front := rs[..|rs| - 1];
    if id in Terminals(front) {
      if k < |Terminals(front)[id]| {
        TerminalAt(front, id, k);
      } else if k > 0 {
        TerminalAt(front, id, 0);
      }
    }
  }

  lemma {:induction false} TerminalIndexed(rs: seq<UdpRecord>, i: nat)
    requires i < |rs| && IsTerminal(rs[i]) && ValidId(rs[i])
    ensures IdOf(rs[i]) in Terminals(rs) && i in Terminals(rs)[IdOf(rs[i])] && |Terminals(rs)[IdOf(rs[i])]| > 0
  {
    hide ValidId, IdOf, IsTerminal;
    if i < |rs| - 1 {
      TerminalIndexed(rs[..|rs| - 1], i);
    }
  }

  lemma {:induction false} SomeTerminal(rs: seq<UdpRecord>, id: nat)
    requires id in Terminals(rs)
    ensures |Terminals(rs)[id]| > 0
  {
    hide ValidId, IdOf, IsTerminal;
    if id in Terminals(rs[..|rs| - 1]) {
      SomeTerminal(rs[..|rs| - 1], id);
    }
  }

  lemma {:induction false} NoFaults(rs: seq<UdpRecord>)
    ensures Faults(rs) == 0 <==> WellFormed(rs)
  {
    if |rs| > 0 {
      var front, r := rs[..|rs| - 1], rs[|rs| - 1];
      NoFaults(front);
      AttemptsAre(front);
      assert rs == front + [r];
      assert forall i :: 0 <= i < |front| ==> rs[i] == front[i];
      if GoodAttempt(r) && IdOf(r) in Attempts(front) {
        var i := Attempts(front)[IdOf(r)];
        assert IsAttempt(rs[i]) && IsAttempt(rs[|rs| - 1]) && IdOf(rs[i]) == IdOf(rs[|rs| - 1]);
      }
    }
  }

  lemma AttemptAt(rs: seq<UdpRecord>, id: nat)
    requires id in Attempts(rs)
    ensures
      var i := Attempts(rs)[id];
      i < |rs| && GoodAttempt(rs[i]) && IdOf(rs[i]) == id
  {
    AttemptsAre(rs);
  }

  lemma AttemptIndexed(rs: seq<UdpRecord>, i: nat)
    requires i < |rs| && GoodAttempt(rs[i])
    ensures IdOf(rs[i]) in Attempts(rs) && Attempts(rs)[IdOf(rs[i])] <= i
  {
    AttemptsAre(rs);
  }

  /** The audit finds nothing exactly when attempts and terminals correspond. */
  lemma AuditIsExact(rs: seq<UdpRecord>)
    ensures Violations(rs) == 0 <==> Corresponds(rs)
  {
    hide Attempts, Terminals, Faults, GoodAttempt, ValidId, TerminalOutcome, DeliveryFits, Unpaired;
    NoFaults(rs);
    var attempts, terminals := Attempts(rs), Terminals(rs);
    if WellFormed(rs) && UnpairedIds(attempts, terminals) == {} && OrphanIds(attempts, terminals) == {} {
      PairedCorrespond(rs);
    }
    if Corresponds(rs) {
      CorrespondPaired(rs);
      assert UnpairedIds(attempts, terminals) == {} && OrphanIds(attempts, terminals) == {};
    }
  }

  lemma Paired(rs: seq<UdpRecord>, id: nat)
    requires UnpairedIds(Attempts(rs), Terminals(rs)) == {} && OrphanIds(Attempts(rs), Terminals(rs)) == {}
    ensures id in Attempts(rs) ==>
      && id in Terminals(rs) && |Terminals(rs)[id]| == 1 && Attempts(rs)[id] <= Terminals(rs)[id][0]
    ensures id in Terminals(rs) ==> id in Attempts(rs)
  {
    hide Attempts, Terminals;
    assert id in Attempts(rs) && Unpaired(Attempts(rs), Terminals(rs), id) ==>
        id in UnpairedIds(Attempts(rs), Terminals(rs));
    assert id in Terminals(rs) && id !in Attempts(rs) ==> id in OrphanIds(Attempts(rs), Terminals(rs));
  }

  lemma NotBoth(r: UdpRecord)
    ensures !(IsAttempt(r) && IsTerminal(r))
  {
  }

  /** The later terminal of a paired attempt. */
  lemma AttemptEnds(rs: seq<UdpRecord>, i: nat)
    requires UnpairedIds(Attempts(rs), Terminals(rs)) == {} && OrphanIds(Attempts(rs), Terminals(rs)) == {}
    requires i < |rs| && GoodAttempt(rs[i])
    requires forall k :: 0 <= k < i && GoodAttempt(rs[k]) ==> IdOf(rs[k]) != IdOf(rs[i])
    ensures exists j :: i < j < |rs| && IsTerminal(rs[j]) && ValidId(rs[j]) && IdOf(rs[j]) == IdOf(rs[i])
  {
    hide Attempts, Terminals, UnpairedIds, OrphanIds, SendAttemptId, IdOf, ValidId;
    var id := IdOf(rs[i]);
    AttemptIndexed(rs, i);
    AttemptAt(rs, id);
    Paired(rs, id);
    TerminalAt(rs, id, 0);
    NotBoth(rs[i]);
  }

  lemma TerminalsDistinct(rs: seq<UdpRecord>, i: nat, j: nat)
    requires UnpairedIds(Attempts(rs), Terminals(rs)) == {} && OrphanIds(Attempts(rs), Terminals(rs)) == {}
    requires i < j < |rs| && IsTerminal(rs[i]) && IsTerminal(rs[j]) && ValidId(rs[i]) && ValidId(rs[j])
    ensures IdOf(rs[i]) != IdOf(rs[j])
  {
    hide Attempts, Terminals, UnpairedIds, OrphanIds, IdOf, ValidId, IsTerminal;
    TerminalIndexed(rs, i);
    TerminalIndexed(rs, j);
    Paired(rs, IdOf(rs[i]));
  }

  lemma TerminalStarts(rs: seq<UdpRecord>, j: nat)
    requires UnpairedIds(Attempts(rs), Terminals(rs)) == {} && OrphanIds(Attempts(rs), Terminals(rs)) == {}
    requires j < |rs| && IsTerminal(rs[j]) && ValidId(rs[j])
    ensures exists i :: 0 <= i < |rs| && GoodAttempt(rs[i]) && IdOf(rs[i]) == IdOf(rs[j])
  {
    hide Attempts, Terminals, UnpairedIds, OrphanIds, IdOf, ValidId, IsTerminal;
    TerminalIndexed(rs, j);
    Paired(rs, IdOf(rs[j]));
    AttemptAt(rs, IdOf(rs[j]));
  }

  lemma PairedCorrespond(rs: seq<UdpRecord>)
    requires WellFormed(rs)
    requires UnpairedIds(Attempts(rs), Terminals(rs)) == {} && OrphanIds(Attempts(rs), Terminals(rs)) == {}
    ensures Corresponds(rs)
  {
    hide Attempts, Terminals, TerminalOutcome, DeliveryFits, UnpairedIds, OrphanIds, SendAttemptId, IdOf, ValidId;
    forall i | 0 <= i < |rs| && IsAttempt(rs[i])
      ensures exists j :: i < j < |rs| && IsTerminal(rs[j]) && IdOf(rs[j]) == IdOf(rs[i])
    {
      AttemptEnds(rs, i);
    }
    forall j | 0 <= j < |rs| && IsTerminal(rs[j])
      ensures exists i :: 0 <= i < |rs| && IsAttempt(rs[i]) && IdOf(rs[i]) == IdOf(rs[j])
    {
      TerminalStarts(rs, j);
    }
    forall i, j | 0 <= i < j < |rs| && IsTerminal(rs[i]) && IsTerminal(rs[j])
      ensures IdOf(rs[i]) != IdOf(rs[j])
    {
      TerminalsDistinct(rs, i, j);
    }
  }

  lemma CorrespondPaired(rs: seq<UdpRecord>)
    requires Corresponds(rs)
    ensures forall id :: id in Attempts(rs) ==> !Unpaired(Attempts(rs), Terminals(rs), id)
    ensures forall id :: id in Terminals(rs) ==> id in Attempts(rs)
  {
    hide Attempts, Terminals, TerminalOutcome, DeliveryFits, SendAttemptId, IdOf, ValidId;
    var attempts, terminals := Attempts(rs), Terminals(rs);
    forall id | id in attempts
      ensures !Unpaired(attempts, terminals, id)
    {
      AttemptAt(rs, id);
      var i := attempts[id];
      var j :| i < j < |rs| && IsTerminal(rs[j]) && IdOf(rs[j]) == IdOf(rs[i]);
      OnlyTerminal(rs, j);
    }
    forall id | id in terminals
      ensures id in attempts
    {
      SomeTerminal(rs, id);
      TerminalAt(rs, id, 0);
      var j := terminals[id][0];
      var i :| 0 <= i < |rs| && IsAttempt(rs[i]) && IdOf(rs[i]) == IdOf(rs[j]);
      AttemptIndexed(rs, i);
    }
  }

  /** A terminal that shares its ID with no other is alone under it. */
  lemma OnlyTerminal(rs: seq<UdpRecord>, j: nat)
    requires j < |rs| && IsTerminal(rs[j]) && ValidId(rs[j])
    requires forall k :: 0 <= k < |rs| && k != j && IsTerminal(rs[k]) && ValidId(rs[k]) ==> IdOf(rs[k]) != IdOf(rs[j])
    ensures IdOf(rs[j]) in Terminals(rs) && Terminals(rs)[IdOf(rs[j])] == [j]
  {
    hide Terminals, SendAttemptId, IdOf, ValidId, IsTerminal;
    var id := IdOf(rs[j]);
    TerminalIndexed(rs, j);
    TerminalAt(rs, id, 0);
    if |Terminals(rs)[id]| > 1 {
      TerminalAt(rs, id, 1);
    }
  }

  // ----- Counting ------------------------------------------------------------------------

  function Tried(): UdpRecord -> bool {
    (r: UdpRecord) => IsAttempt(r)
  }

  function Ended(): UdpRecord -> bool {
    (r: UdpRecord) => IsTerminal(r)
  }

  /** Distinct attempts are counted once each. */
  lemma {:induction false} AttemptIds(rs: seq<UdpRecord>)
    requires WellFormed(rs)
    ensures |Attempts(rs)| == Count(rs, Tried())
  {
    if |rs| > 0 {
      var front := rs[..|rs| - 1];
      assert forall i :: 0 <= i < |front| ==> front[i] == rs[i];
      assert WellFormed(front);
      AttemptIds(front);
      AttemptsAre(front);
    }
  }

  lemma {:induction false} TerminalIds(rs: seq<UdpRecord>)
    requires forall i :: 0 <= i < |rs| && IsTerminal(rs[i]) ==> ValidId(rs[i])
    requires forall i, j :: 0 <= i < j < |rs| && IsTerminal(rs[i]) && IsTerminal(rs[j]) ==> IdOf(rs[i]) != IdOf(rs[j])
    ensures |Terminals(rs)| == Count(rs, Ended())
  {
    if |rs| > 0 {
      var front, r := rs[..|rs| - 1], rs[|rs| - 1];
      assert forall i :: 0 <= i < |front| ==> front[i] == rs[i];
      TerminalIds(front);
      if IsTerminal(r) {
        NewTerminal(rs);
      }
    }
  }

  lemma NewTerminal(rs: seq<UdpRecord>)
    requires |rs| > 0 && IsTerminal(rs[|rs| - 1]) && ValidId(rs[|rs| - 1])
    requires forall i :: 0 <= i < |rs| - 1 && IsTerminal(rs[i]) ==> ValidId(rs[i]) && IdOf(rs[i]) != IdOf(rs[|rs| - 1])
    ensures IdOf(rs[|rs| - 1]) !in Terminals(rs[..|rs| - 1])
  {
    var front, id := rs[..|rs| - 1], IdOf(rs[|rs| - 1]);
    if id in Terminals(front) {
      SomeTerminal(front, id);
      TerminalAt(front, id, 0);
    }
  }

  /** In a clean trace every attempt ended once: the two counts are equal. */
  lemma CleanCountsAgree(rs: seq<UdpRecord>)
    requires Violations(rs) == 0
    ensures Count(rs, Tried()) == Count(rs, Ended()) == |Attempts(rs)|
  {
    hide Attempts, Terminals, Violations, Unpaired;
    AuditIsExact(rs);
    CorrespondPaired(rs);
    AttemptIds(rs);
    TerminalIds(rs);
    SameIds(rs);
    assert |Attempts(rs).Keys| == |Terminals(rs).Keys|;
  }

  lemma SameIds(rs: seq<UdpRecord>)
    requires Corresponds(rs)
    ensures Attempts(rs).Keys == Terminals(rs).Keys
  {
    hide Attempts, Terminals;
    CorrespondPaired(rs);
    forall id | id in Attempts(rs)
      ensures id in Terminals(rs)
    {
      assert !Unpaired(Attempts(rs), Terminals(rs), id);
    }
  }

  // ----- The same read off the fields ---------------------------------------------------------

  /** The attempt ID: that of the body, or, where it has none, of the keys. */
  function AttemptId(r: UdpRecord): Option<nat> {
    var field := if r.bodyId != Missing then r.bodyId else r.keysId;
    if field.Num? && field.n > 0 then Some(field.n) else None
  }

  /** A packet that was sent off as an attempt under an ID. */
  predicate Starts(r: UdpRecord, id: nat) {
    r.event == Packet && r.sending && r.outcome == Attempted && AttemptId(r) == Some(id)
  }

  predicate EndsId(r: UdpRecord, id: nat) {
    r.event == SendOutcome && AttemptId(r) == Some(id)
  }

  /** Delivery is known of a send that succeeded or failed, and unknown of a cancelled one. */
  predicate EndsWell(r: UdpRecord) {
    || (r.outcome == SendSucceeded && r.deliveryKnown == Bool(true))
    || (r.outcome == SendFailed && r.deliveryKnown == Bool(true))
    || (r.outcome == SendCancelled && r.deliveryKnown == Bool(false))
  }

  /** Every sent packet starts an attempt, every outcome ends one well, and each ID that
      occurs is started once and then ended once. */
  ghost predicate OneToOne(rs: seq<UdpRecord>) {
    && (forall i :: 0 <= i < |rs| && rs[i].event == Packet && rs[i].sending ==> exists id :: Starts(rs[i], id))
    && (forall i :: 0 <= i < |rs| && rs[i].event == SendOutcome ==> EndsWell(rs[i]) && exists id :: EndsId(rs[i], id))
    && forall id: nat :: Silent(rs, id) || exists i, j :: Span(rs, id, i, j)
  }

  ghost predicate Silent(rs: seq<UdpRecord>, id: nat) {
    forall k :: 0 <= k < |rs| ==> !Starts(rs[k], id) && !EndsId(rs[k], id)
  }

  /** The one start of the ID and, after it, the one end. */
  ghost predicate Span(rs: seq<UdpRecord>, id: nat, i: int, j: int) {
    && 0 <= i < j < |rs| && Starts(rs[i], id) && EndsId(rs[j], id)
    && forall k :: 0 <= k < |rs| ==> (Starts(rs[k], id) ==> k == i) && (EndsId(rs[k], id) ==> k == j)
  }

  lemma RecordExactly(r: UdpRecord, id: nat)
    ensures ValidId(r) <==> AttemptId(r).Some?
    ensures ValidId(r) ==> AttemptId(r) == Some(IdOf(r))
    ensures GoodAttempt(r) && IdOf(r) == id <==> Starts(r, id)
    ensures IsTerminal(r) && ValidId(r) && IdOf(r) == id <==> EndsId(r, id)
    ensures TerminalOutcome(r.outcome) && DeliveryFits(r) <==> EndsWell(r)
  {
  }

  lemma OneSpan(rs: seq<UdpRecord>, id: nat)
    requires Corresponds(rs)
    ensures Silent(rs, id) || exists i, j :: Span(rs, id, i, j)
  {
    hide SendAttemptId, ValidId, IdOf, TerminalOutcome, DeliveryFits, Starts, EndsId, IsTerminal, AttemptId;
    forall k | 0 <= k < |rs| {
      RecordExactly(rs[k], id);
    }
    if k :| 0 <= k < |rs| && Starts(rs[k], id) {
      var j :| k < j < |rs| && IsTerminal(rs[j]) && IdOf(rs[j]) == IdOf(rs[k]);
      assert Span(rs, id, k, j);
    }
  }

  lemma CorrespondenceIsOneToOne(rs: seq<UdpRecord>)
    requires Corresponds(rs)
    ensures OneToOne(rs)
  {
    hide SendAttemptId, ValidId, IdOf, TerminalOutcome, DeliveryFits, Starts, EndsId, EndsWell, AttemptId;
    forall i | 0 <= i < |rs| && rs[i].event == Packet && rs[i].sending
      ensures exists id :: Starts(rs[i], id)
    {
      RecordExactly(rs[i], IdOf(rs[i]));
    }
    forall i | 0 <= i < |rs| && rs[i].event == SendOutcome
      ensures EndsWell(rs[i]) && exists id :: EndsId(rs[i], id)
    {
      RecordExactly(rs[i], IdOf(rs[i]));
    }
    forall id: nat
      ensures Silent(rs, id) || exists i, j :: Span(rs, id, i, j)
    {
      OneSpan(rs, id);
    }
  }

  lemma StartedOnce(rs: seq<UdpRecord>, i: nat)
    requires OneToOne(rs) && i < |rs| && IsAttempt(rs[i])
    ensures GoodAttempt(rs[i])
    ensures exists j :: Span(rs, IdOf(rs[i]), i, j)
  {
    hide SendAttemptId, ValidId, IdOf, TerminalOutcome, DeliveryFits, EndsId, EndsWell, AttemptId;
    var id :| Starts(rs[i], id);
    RecordExactly(rs[i], id);
    assert !Silent(rs, id);
    var a, b :| Span(rs, id, a, b);
    assert a == i;
  }

  lemma EndedOnce(rs: seq<UdpRecord>, j: nat)
    requires OneToOne(rs) && j < |rs| && IsTerminal(rs[j])
    ensures ValidId(rs[j]) && TerminalOutcome(rs[j].outcome) && DeliveryFits(rs[j])
    ensures exists i :: Span(rs, IdOf(rs[j]), i, j)
  {
    hide SendAttemptId, ValidId, IdOf, TerminalOutcome, DeliveryFits, Starts, EndsWell, AttemptId;
    var id :| EndsId(rs[j], id);
    RecordExactly(rs[j], id);
    assert !Silent(rs, id);
    var a, b :| Span(rs, id, a, b);
    assert b == j;
  }

  lemma OneToOneCorresponds(rs: seq<UdpRecord>)
    requires OneToOne(rs)
    ensures Corresponds(rs)
  {
    hide SendAttemptId, ValidId, IdOf, TerminalOutcome, DeliveryFits, Starts, EndsId, EndsWell, AttemptId, OneToOne;
    forall j | 0 <= j < |rs| && IsTerminal(rs[j])
      ensures ValidId(rs[j])
    {
      EndedOnce(rs, j);
    }
    forall i | 0 <= i < |rs| && IsAttempt(rs[i])
      ensures GoodAttempt(rs[i])
    {
      StartedOnce(rs, i);
    }
    forall i | 0 <= i < |rs| && IsAttempt(rs[i])
      ensures GoodAttempt(rs[i])
      ensures exists j :: i < j < |rs| && IsTerminal(rs[j]) && IdOf(rs[j]) == IdOf(rs[i])
      ensures forall k :: 0 <= k < |rs| && k != i && GoodAttempt(rs[k]) ==> IdOf(rs[k]) != IdOf(rs[i])
    {
      StartedOnce(rs, i);
      var j :| Span(rs, IdOf(rs[i]), i, j);
      forall k | 0 <= k < |rs| {
        RecordExactly(rs[k], IdOf(rs[i]));
      }
    }
    forall j | 0 <= j < |rs| && IsTerminal(rs[j])
      ensures ValidId(rs[j]) && TerminalOutcome(rs[j].outcome) && DeliveryFits(rs[j])
      ensures exists i :: 0 <= i < |rs| && IsAttempt(rs[i]) && IdOf(rs[i]) == IdOf(rs[j])
      ensures forall k :: 0 <= k < |rs| && k != j && IsTerminal(rs[k]) && ValidId(rs[k]) ==> IdOf(rs[k]) != IdOf(rs[j])
    {
      EndedOnce(rs, j);
      var i :| Span(rs, IdOf(rs[j]), i, j);
      forall k | 0 <= k < |rs| {
        RecordExactly(rs[k], IdOf(rs[j]));
      }
    }
  }

  /** The audit finds nothing exactly when each ID is started once and then ended once, and
      every outcome says the right thing about delivery. */
  lemma CleanExactly(rs: seq<UdpRecord>)
    ensures Violations(rs) == 0 <==> OneToOne(rs)
  {
    hide Violations, Corresponds, OneToOne;
    AuditIsExact(rs);
    if Corresponds(rs) {
      CorrespondenceIsOneToOne(rs);
    }
    if OneToOne(rs) {
      OneToOneCorresponds(rs);
    }
  }

  // ----- What is counted as a violation ----------------------------------------------------------

  /** The record is a sent packet that does not start a new ID. */
  predicate StartsNothing(rs: seq<UdpRecord>, i: nat)
    requires i < |rs|
  {
    var r := rs[i];
    && r.event == Packet && r.sending
    && (r.outcome != Attempted || AttemptId(r).None? || exists k :: 0 <= k < i && Starts(rs[k], AttemptId(r).value))
  }

  predicate EndsNothing(r: UdpRecord) {
    r.event == SendOutcome && AttemptId(r).None?
  }

  predicate NoEnd(r: UdpRecord) {
    r.event == SendOutcome && AttemptId(r).Some? && r.outcome in {Attempted, OtherOutcome}
  }

  predicate WrongDelivery(r: UdpRecord) {
    r.event == SendOutcome && AttemptId(r).Some? && r.deliveryKnown != Bool(r.outcome != SendCancelled)
  }

  function BadStarts(rs: seq<UdpRecord>): set<nat> {
    set i: nat | 0 <= i < |rs| && StartsNothing(rs, i)
  }

  function Where(rs: seq<UdpRecord>, p: UdpRecord -> bool): set<nat> {
    set i: nat | 0 <= i < |rs| && p(rs[i])
  }

  lemma WhereNext(rs: seq<UdpRecord>, p: UdpRecord -> bool)
    requires |rs| > 0
    ensures |Where(rs, p)| == |Where(rs[..|rs| - 1], p)| + (if p(rs[|rs| - 1]) then 1 else 0)
  {
    var n := |rs| - 1;
    assert Where(rs, p) == Where(rs[..n], p) + (if p(rs[n]) then {n} else {});
  }

  lemma BadStartsNext(rs: seq<UdpRecord>)
    requires |rs| > 0
    ensures |BadStarts(rs)| == |BadStarts(rs[..|rs| - 1])| + (if StartsNothing(rs, |rs| - 1) then 1 else 0)
  {
    hide Starts, AttemptId;
    var n := |rs| - 1;
    var front := rs[..n];
    forall i: nat | i < n
      ensures StartsNothing(front, i) <==> StartsNothing(rs, i)
    {
      assert forall k :: 0 <= k < n ==> front[k] == rs[k];
    }
    assert BadStarts(rs) == BadStarts(front) + (if StartsNothing(rs, n) then {n} else {});
  }

  lemma StartKnown(rs: seq<UdpRecord>, id: nat)
    ensures id in Attempts(rs) <==> exists k :: 0 <= k < |rs| && Starts(rs[k], id)
  {
    hide SendAttemptId, AttemptId, Attempts, Starts, GoodAttempt;
    AttemptsAre(rs);
    forall k | 0 <= k < |rs| {
      RecordExactly(rs[k], id);
    }
    if id in Attempts(rs) {
      assert Starts(rs[Attempts(rs)[id]], id);
    }
  }

  lemma FaultExactly(front: seq<UdpRecord>, r: UdpRecord)
    ensures RecordFaults(Attempts(front), r)
         == (if StartsNothing(front + [r], |front|) then 1 else 0) + (if EndsNothing(r) then 1 else 0)
            + (if NoEnd(r) then 1 else 0) + (if WrongDelivery(r) then 1 else 0)
  {
    hide Attempts, Starts, SendAttemptId;
    var all := front + [r];
    assert forall k :: 0 <= k < |front| ==> all[k] == front[k];
    if ValidId(r) {
      RecordExactly(r, IdOf(r));
      StartKnown(front, IdOf(r));
    } else {
      RecordExactly(r, 0);
    }
    hide AttemptId;
  }

  /** The faults of the records, each counted once for what is wrong with it. */
  lemma {:induction false} FaultsExactly(rs: seq<UdpRecord>)
    ensures Faults(rs) == |BadStarts(rs)| + |Where(rs, EndsNothing)| + |Where(rs, NoEnd)| + |Where(rs, WrongDelivery)|
  {
    hide BadStarts, Where, StartsNothing, EndsNothing, NoEnd, WrongDelivery, RecordFaults, Attempts;
    if |rs| == 0 {
      assert rs == [];
      NoneWhere();
    } else {
      var front, r := rs[..|rs| - 1], rs[|rs| - 1];
      assert rs == front + [r];
      FaultsExactly(front);
      FaultExactly(front, r);
      BadStartsNext(rs);
      WhereNext(rs, EndsNothing);
      WhereNext(rs, NoEnd);
      WhereNext(rs, WrongDelivery);
    }
  }

  lemma NoneWhere()
    ensures BadStarts([]) == {} && Where([], EndsNothing) == {} && Where([], NoEnd) == {}
    ensures Where([], WrongDelivery) == {}
  {
  }

  /** The ID ends once, after it was started. */
  ghost predicate EndsOnce(rs: seq<UdpRecord>, id: nat) {
    exists i, j :: 0 <= i < j < |rs| && Starts(rs[i], id) && OnlyEnd(rs, id, j)
  }

  ghost predicate OnlyEnd(rs: seq<UdpRecord>, id: nat, j: int) {
    0 <= j < |rs| && EndsId(rs[j], id) && forall k :: 0 <= k < |rs| && EndsId(rs[k], id) ==> k == j
  }

  lemma EndKnown(rs: seq<UdpRecord>, id: nat)
    ensures id in Terminals(rs) <==> exists k :: 0 <= k < |rs| && EndsId(rs[k], id)
  {
    hide SendAttemptId, AttemptId, Terminals, EndsId;
    forall k | 0 <= k < |rs|
      ensures EndsId(rs[k], id) ==> id in Terminals(rs)
    {
      RecordExactly(rs[k], id);
      if EndsId(rs[k], id) {
        TerminalIndexed(rs, k);
      }
    }
    if id in Terminals(rs) {
      SomeTerminal(rs, id);
      TerminalAt(rs, id, 0);
      RecordExactly(rs[Terminals(rs)[id][0]], id);
    }
  }

  lemma OnlyEndIs(rs: seq<UdpRecord>, id: nat, j: nat)
    ensures OnlyEnd(rs, id, j) <==> id in Terminals(rs) && Terminals(rs)[id] == [j]
  {
    hide SendAttemptId, AttemptId, Terminals, EndsId, ValidId, IdOf, IsTerminal;
    forall k | 0 <= k < |rs| {
      RecordExactly(rs[k], id);
    }
    if OnlyEnd(rs, id, j) {
      OnlyTerminal(rs, j);
    }
    if id in Terminals(rs) && Terminals(rs)[id] == [j] {
      TerminalAt(rs, id, 0);
      forall k | 0 <= k < |rs| && EndsId(rs[k], id)
        ensures k == j
      {
        TerminalIndexed(rs, k);
      }
    }
  }

  lemma PairedExactly(rs: seq<UdpRecord>, id: nat)
    requires id in Attempts(rs)
    ensures Unpaired(Attempts(rs), Terminals(rs), id) <==> !EndsOnce(rs, id)
  {
    hide SendAttemptId, AttemptId, Attempts, Terminals, EndsId, ValidId, IdOf, OnlyEnd, Starts;
    AttemptsAre(rs);
    forall k | 0 <= k < |rs| {
      RecordExactly(rs[k], id);
    }
    var i := Attempts(rs)[id];
    if !Unpaired(Attempts(rs), Terminals(rs), id) {
      var j := Terminals(rs)[id][0];
      assert Terminals(rs)[id] == [j];
      OnlyEndIs(rs, id, j);
      TerminalAt(rs, id, 0);
      NotBoth(rs[j]);
      assert Starts(rs[i], id) && i < j;
    }
    if EndsOnce(rs, id) {
      var a, b :| 0 <= a < b < |rs| && Starts(rs[a], id) && OnlyEnd(rs, id, b);
      OnlyEndIs(rs, id, b);
      AttemptIndexed(rs, a);
    }
  }

  /** The IDs of some records. */
  function Ids(rs: seq<UdpRecord>): set<nat> {
    set k: nat | 0 <= k < |rs| && AttemptId(rs[k]).Some? :: AttemptId(rs[k]).value
  }

  /** IDs that were started and did not end once after that. */
  ghost function Unfinished(rs: seq<UdpRecord>): set<nat> {
    set id | id in Ids(rs) && (exists k :: 0 <= k < |rs| && Starts(rs[k], id)) && !EndsOnce(rs, id)
  }

  /** IDs that ended and were never started. */
  ghost function Unstarted(rs: seq<UdpRecord>): set<nat> {
    set id | id in Ids(rs) && (exists k :: 0 <= k < |rs| && EndsId(rs[k], id))
      && forall k :: 0 <= k < |rs| ==> !Starts(rs[k], id)
  }

  lemma KnownId(rs: seq<UdpRecord>, id: nat)
    ensures (exists k :: 0 <= k < |rs| && (Starts(rs[k], id) || EndsId(rs[k], id))) ==> id in Ids(rs)
  {
  }

  /** The number of violations: sent packets that start no new ID, outcomes without an ID,
      outcomes of another kind, outcomes wrong about delivery, IDs that are started and not
      ended once after that, and IDs that end without a start. */
  lemma ViolationsExactly(rs: seq<UdpRecord>)
    ensures Violations(rs)
         == |BadStarts(rs)| + |Where(rs, EndsNothing)| + |Where(rs, NoEnd)| + |Where(rs, WrongDelivery)|
            + |Unfinished(rs)| + |Unstarted(rs)|
  {
    hide BadStarts, Where, Attempts, Terminals, Faults, Starts, EndsId, EndsOnce, Ids, Unpaired;
    FaultsExactly(rs);
    forall id: nat
      ensures id in UnpairedIds(Attempts(rs), Terminals(rs)) <==> id in Unfinished(rs)
      ensures id in OrphanIds(Attempts(rs), Terminals(rs)) <==> id in Unstarted(rs)
    {
      StartKnown(rs, id);
      EndKnown(rs, id);
      KnownId(rs, id);
      if id in Attempts(rs) {
        PairedExactly(rs, id);
      }
    }
    assert UnpairedIds(Attempts(rs), Terminals(rs)) == Unfinished(rs);
    assert OrphanIds(Attempts(rs), Terminals(rs)) == Unstarted(rs);
  }

  /** The IDs that attempts were started under. */
  ghost function Started(rs: seq<UdpRecord>): set<nat> {
    set id | id in Ids(rs) && exists k :: 0 <= k < |rs| && Starts(rs[k], id)
  }

  /** An outcome of some ID. */
  predicate Ends(r: UdpRecord) {
    r.event == SendOutcome && AttemptId(r).Some?
  }

  /** The two counts the audit reports: IDs started, and outcomes of an ID. */
  lemma CountsExactly(rs: seq<UdpRecord>)
    ensures |Attempts(rs)| == |Started(rs)| && TerminalCount(rs) == |Where(rs, Ends)|
  {
    hide Attempts, Starts, Ids;
    forall id: nat
      ensures id in Attempts(rs) <==> id in Started(rs)
    {
      StartKnown(rs, id);
      KnownId(rs, id);
    }
    assert Attempts(rs).Keys == Started(rs) && |Attempts(rs)| == |Attempts(rs).Keys|;
    var terminal := (r: UdpRecord) => IsTerminal(r) && ValidId(r);
    CountExactly(rs, terminal);
    forall i | 0 <= i < |rs|
      ensures terminal(rs[i]) <==> Ends(rs[i])
    {
      RecordExactly(rs[i], 0);
    }
    assert Positions(rs, terminal) == Where(rs, Ends);
  }

  // ----- The audit as it runs ---------------------------------------------------------------

  method Audit(rs: seq<UdpRecord>) returns (ok: bool, attemptCount: nat, terminalCount: nat, violations: nat)
    ensures violations == Violations(rs)
    ensures ok <==> OneToOne(rs)
    ensures attemptCount == |Started(rs)| && terminalCount == |Where(rs, Ends)|
    ensures ok ==> attemptCount == terminalCount
  {
    var attempts: map<nat, nat>, terminals: map<nat, seq<nat>> := map[], map[];
    violations, terminalCount := 0, 0;
    for i := 0 to |rs|
      invariant attempts == Attempts(rs[..i]) && terminals == Terminals(rs[..i])
      invariant violations == Faults(rs[..i]) && terminalCount == TerminalCount(rs[..i])
    {
      var r := rs[i];
      assert rs[..i + 1][..i] == rs[..i];
      if IsAttempt(r) {
        if r.outcome != Attempted || !ValidId(r) || IdOf(r) in attempts {
          violations := violations + 1;
        } else {
          attempts := attempts[IdOf(r) := i];
        }
      } else if IsTerminal(r) {
        if !ValidId(r) {
          violations := violations + 1;
        } else {
          terminals := terminals[IdOf(r) := (if IdOf(r) in terminals then terminals[IdOf(r)] else []) + [i]];
          terminalCount := terminalCount + 1;
          if !TerminalOutcome(r.outcome) {
            violations := violations + 1;
          }
          if !DeliveryFits(r) {
            violations := violations + 1;
          }
        }
      }
    }
    assert rs[..|rs|] == rs;
    var unpaired := CountIds(attempts.Keys, UnpairedIds(attempts, terminals));
    var orphans := CountIds(terminals.Keys, OrphanIds(attempts, terminals));
    violations := violations + unpaired + orphans;
    ok, attemptCount := violations == 0, |attempts|;
    AuditIsExact(rs);
    CleanExactly(rs);
    CountsExactly(rs);
    if ok {
      CleanCountsAgree(rs);
      EndedAreCounted(rs);
    }
  }

  /** One violation for each of `ids` that is among the bad ones, in any order. */
  method CountIds(ids: set<nat>, bad: set<nat>) returns (n: nat)
    requires bad <= ids
    ensures n == |bad|
  {
    var todo := ids;
    n := 0;
    while todo != {}
      invariant todo <= ids && n == |bad - todo|
      decreases todo
    {
      var id :| id in todo;
      if id in bad {
        n := n + 1;
        assert bad - (todo - {id}) == (bad - todo) + {id};
      } else {
        assert bad - (todo - {id}) == bad - todo;
      }
      todo := todo - {id};
    }
    assert bad - todo == bad;
  }

  lemma {:induction false} EndedAreCounted(rs: seq<UdpRecord>)
    requires forall i :: 0 <= i < |rs| && IsTerminal(rs[i]) ==> ValidId(rs[i])
    ensures TerminalCount(rs) == Count(rs, Ended())
  {
    if |rs| > 0 {
      EndedAreCounted(rs[..|rs| - 1]);
    }
  }
}
