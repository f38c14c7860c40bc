/**
 The server-connection audit: every record is checked on its own against a
 transition table, then the records of each trace must form a walk.
 */
module ConnectionAudit {
  import opened Wrappers
  import opened Totals
  import opened JsonFields

  // ----- Records ---------------------------------------------------------------

  datatype Outcome =
    | AttemptStarted | TransportConnected | LoginAccepted
    | ConnectionFailed | ConnectionClosed | OtherOutcome

  datatype Conn =
    | NotConnected | Connecting | AwaitingIdChange | Connected
    | ServerDead | ServerFull | FatalError | PlainError | Disconnected
    | OtherState(value: Json)

  datatype Transport = Plaintext | Obfuscated | OtherTransport

  datatype Severity = Info | Warning | OtherSeverity

  /** `serverFlow` is whether the flow field is exactly the server flow. */
  datatype ConnKeys = ConnKeys(peer: Json, serverFlow: bool, traceId: Json)

  /** `traceKeyPeer` is what follows the server-TCP prefix of the trace key, if it has one. */
  datatype ConnBody = ConnBody(
    serverFlow: bool, connectionPhase: bool, traceKeyPeer: Option<string>, traceId: Json,
    previous: Conn, state: Conn, outcome: Outcome, transport: Transport, obfuscated: Json, error: Json)

  /** Keys or body are missing when they are no object with exactly the fields expected. */
  datatype ConnRecord = ConnRecord(keys: Option<ConnKeys>, body: Option<ConnBody>, severity: Severity)

  // ----- The transition table ----------------------------------------------------

  predicate Failing(s: Conn) {
    s == ServerDead || s == ServerFull || s == FatalError || s == PlainError
  }

  predicate Underway(s: Conn) {
    s == Connecting || s == AwaitingIdChange || s == Connected
  }

  predicate Permitted(outcome: Outcome, previous: Conn, state: Conn) {
    match outcome
    case AttemptStarted => previous == NotConnected && state == Connecting
    case TransportConnected => previous == Connecting && state == AwaitingIdChange
    case LoginAccepted => previous == AwaitingIdChange && state == Connected
    case ConnectionFailed => (previous == NotConnected || Underway(previous)) && Failing(state)
    case ConnectionClosed => (Underway(previous) || Failing(previous))
      && (state == Disconnected || state == NotConnected)
    case OtherOutcome => false
  }

  // ----- One record ----------------------------------------------------------------

  function One(bad: bool): nat {
    if bad then 1 else 0
  }

  /** The record is filed under its trace: it has keys, a body, a trace ID and a peer. */
  predicate Filed(r: ConnRecord) {
    && r.keys.Some? && r.body.Some?
    && Positive(r.keys.value.traceId).Success? && NonEmpty(r.keys.value.peer).Success?
  }

  function TraceOf(r: ConnRecord): nat
    requires Filed(r)
  {
    Positive(r.keys.value.traceId).value
  }

  /** Violations of one filed record, each check on its own. */
  function FieldFaults(r: ConnRecord): nat
    requires Filed(r)
  {
    var k, b := r.keys.value, r.body.value;
    One(!k.serverFlow || !b.serverFlow)
    + One(!b.connectionPhase)
    + One(!EqualsNumber(b.traceId, TraceOf(r)))
    + One(b.traceKeyPeer != Some(k.peer.s))
    + One(b.transport == OtherTransport)
    + One(b.obfuscated != Bool(b.transport == Obfuscated))
    + One(!Nil(b.error) && !b.error.Text?)
    + One(!Permitted(b.outcome, b.previous, b.state))
    + One(r.severity != (if b.outcome == ConnectionFailed then Warning else Info))
  }

  function RecordFaults(r: ConnRecord): nat {
    if !Filed(r) then 1 else FieldFaults(r)
  }

  function Faults(rs: seq<ConnRecord>): nat {
    if |rs| == 0 then 0 else Faults(rs[..|rs| - 1]) + RecordFaults(rs[|rs| - 1])
  }

  // ----- One trace -------------------------------------------------------------------

  /** The bodies of one trace, in order. */
  function TraceEvents(rs: seq<ConnRecord>, id: nat): seq<ConnBody> {
    if |rs| == 0 then []
    else
      var front, r := TraceEvents(rs[..|rs| - 1], id), rs[|rs| - 1];
      if Filed(r) && TraceOf(r) == id then front + [r.body.value] else front
  }

  function TraceIds(rs: seq<ConnRecord>): set<nat> {
    set i | 0 <= i < |rs| && Filed(rs[i]) :: TraceOf(rs[i])
  }

  function Breaks(es: seq<ConnBody>): nat {
    if |es| <= 1 then 0
    else Breaks(es[..|es| - 1]) + One(es[|es| - 1].previous != es[|es| - 2].state)
  }

  function WalkFaults(es: seq<ConnBody>): nat {
    if |es| == 0 then 0 else One(es[0].outcome != AttemptStarted) + Breaks(es)
  }

  /** The records filed under each trace. */
  ghost function Groups(rs: seq<ConnRecord>): map<nat, seq<ConnBody>> {
    map id | id in TraceIds(rs) :: TraceEvents(rs, id)
  }

  function FaultsOfWalk(): seq<ConnBody> -> nat {
    (es: seq<ConnBody>) => WalkFaults(es)
  }

  /** Violations of the records, of the traces, and of an empty run. */
  ghost function Violations(rs: seq<ConnRecord>): nat {
    Faults(rs) + Total(Groups(rs), FaultsOfWalk()) + One(rs == [])
  }

  // ----- The declarative reading --------------------------------------------------------

  /** A record that is right in every field. */
  predicate Proper(r: ConnRecord) {
    && Filed(r)
    && var k, b := r.keys.value, r.body.value;
       && k.serverFlow && b.serverFlow && b.connectionPhase
       && EqualsNumber(b.traceId, TraceOf(r))
       && b.traceKeyPeer == Some(k.peer.s)
       && b.transport != OtherTransport && b.obfuscated == Bool(b.transport == Obfuscated)
       && (Nil(b.error) || b.error.Text?)
       && Permitted(b.outcome, b.previous, b.state)
       && r.severity == (if b.outcome == ConnectionFailed then Warning else Info)
  }

  /** The events of a trace start with an attempt and each continues from the
      state the one before it left. */
  predicate Walk(es: seq<ConnBody>) {
    && (|es| > 0 ==> es[0].outcome == AttemptStarted)
    && forall i :: 1 <= i < |es| ==> es[i].previous == es[i - 1].state
  }

  ghost predicate SoundTrace(rs: seq<ConnRecord>) {
    && |rs| > 0
    && (forall i :: 0 <= i < |rs| ==> Proper(rs[i]))
    && forall id :: id in TraceIds(rs) ==> Walk(TraceEvents(rs, id))
  }

  lemma {:induction false} NoFaults(rs: seq<ConnRecord>)
    ensures Faults(rs) == 0 <==> forall i :: 0 <= i < |rs| ==> Proper(rs[i])
  {
    if |rs| > 0 {
      var front := rs[..|rs| - 1];
      NoFaults(front);
      assert forall i :: 0 <= i < |front| ==> front[i] == rs[i];
      assert RecordFaults(rs[|rs| - 1]) == 0 <==> Proper(rs[|rs| - 1]);
    }
  }

  lemma {:induction false} NoBreaks(es: seq<ConnBody>)
    ensures Breaks(es) == 0 <==> forall i :: 1 <= i < |es| ==> es[i].previous == es[i - 1].state
  {
    if |es| > 1 {
      var front := es[..|es| - 1];
      NoBreaks(front);
      assert forall i :: 0 <= i < |front| ==> front[i] == es[i];
      assert (forall i :: 1 <= i < |es| ==> es[i].previous == es[i - 1].state) <==>
        (forall i :: 1 <= i < |front| ==> front[i].previous == front[i - 1].state)
        && es[|es| - 1].previous == es[|es| - 2].state;
    }
  }

  /** The audit finds nothing exactly when the trace is sound. */
  lemma AuditIsExact(rs: seq<ConnRecord>)
    ensures Violations(rs) == 0 <==> SoundTrace(rs)
  {
    hide Proper, Faults, TraceEvents, Total;
    NoFaults(rs);
    TotalZero(Groups(rs), FaultsOfWalk());
    forall id | id in TraceIds(rs)
      ensures WalkFaults(Groups(rs)[id]) == 0 <==> Walk(TraceEvents(rs, id))
    {
      NoBreaks(TraceEvents(rs, id));
    }
  }

  // ----- The same read off the fields -----------------------------------------------------------

  /** The trace a record is filed under. */
  function TraceIn(r: ConnRecord): Option<nat> {
    if r.keys.Some? && r.body.Some? && r.keys.value.traceId.Num? && r.keys.value.traceId.n > 0
       && r.keys.value.peer.Text? && r.keys.value.peer.s != ""
    then Some(r.keys.value.traceId.n) else None
  }

  const OPEN_STATES := {Connecting, AwaitingIdChange, Connected}
  const FAILED_STATES := {ServerDead, ServerFull, FatalError, PlainError}

  /** The steps a connection may take. */
  predicate Moves(outcome: Outcome, previous: Conn, state: Conn) {
    || (outcome, previous, state) == (AttemptStarted, NotConnected, Connecting)
    || (outcome, previous, state) == (TransportConnected, Connecting, AwaitingIdChange)
    || (outcome, previous, state) == (LoginAccepted, AwaitingIdChange, Connected)
    || (outcome == ConnectionFailed && previous in OPEN_STATES + {NotConnected} && state in FAILED_STATES)
    || (outcome == ConnectionClosed && previous in OPEN_STATES + FAILED_STATES
        && state in {NotConnected, Disconnected})
  }

  /** The checks on a filed record. */
  datatype Check =
    | Flow | Phase | TraceNumber | TraceKey | Carrier | Obfuscation | ErrorText | Transition | Level

  predicate Fails(r: ConnRecord, c: Check) {
    && TraceIn(r).Some?
    && var k, b, id := r.keys.value, r.body.value, TraceIn(r).value;
       match c
       case Flow => !(k.serverFlow && b.serverFlow)
       case Phase => !b.connectionPhase
       case TraceNumber =>
         b.traceId != Num(id) && b.traceId != Json.Real(id as real) && !(id == 1 && b.traceId == Bool(true))
       case TraceKey => b.traceKeyPeer != Some(k.peer.s)
       case Carrier => b.transport != Plaintext && b.transport != Obfuscated
       case Obfuscation => b.obfuscated != Bool(b.transport == Obfuscated)
       case ErrorText => !b.error.Missing? && !b.error.Null? && !b.error.Text?
       case Transition => !Moves(b.outcome, b.previous, b.state)
       case Level => if b.outcome == ConnectionFailed then r.severity != Warning else r.severity != Info
  }

  lemma TraceExactly(r: ConnRecord)
    ensures Filed(r) <==> TraceIn(r).Some?
    ensures Filed(r) ==> r.body.Some? && TraceIn(r) == Some(TraceOf(r))
  {
  }

  lemma MovesExactly(outcome: Outcome, previous: Conn, state: Conn)
    ensures Moves(outcome, previous, state) <==> Permitted(outcome, previous, state)
  {
  }

  /** The records that fail a check. */
  function Missed(rs: seq<ConnRecord>, c: Check): set<nat> {
    set i: nat | 0 <= i < |rs| && Fails(rs[i], c)
  }

  /** The traces that some record is filed under. */
  function Traces(rs: seq<ConnRecord>): set<nat> {
    set i: nat | 0 <= i < |rs| && TraceIn(rs[i]).Some? :: TraceIn(rs[i]).value
  }

  lemma TracesExactly(rs: seq<ConnRecord>)
    ensures Traces(rs) == TraceIds(rs)
  {
    hide TraceIn, Filed, TraceOf;
    forall i | 0 <= i < |rs| {
      TraceExactly(rs[i]);
    }
  }

  function Unfiled(rs: seq<ConnRecord>): set<nat> {
    set i: nat | 0 <= i < |rs| && TraceIn(rs[i]).None?
  }

  lemma MissedNext(rs: seq<ConnRecord>, c: Check)
    requires |rs| > 0
    ensures |Missed(rs, c)| == |Missed(rs[..|rs| - 1], c)| + One(Fails(rs[|rs| - 1], c))
  {
    hide Fails;
    var n := |rs| - 1;
    assert Missed(rs, c) == Missed(rs[..n], c) + (if Fails(rs[n], c) then {n} else {});
  }

  lemma UnfiledNext(rs: seq<ConnRecord>)
    requires |rs| > 0
    ensures |Unfiled(rs)| == |Unfiled(rs[..|rs| - 1])| + One(TraceIn(rs[|rs| - 1]).None?)
  {
    hide TraceIn;
    var n := |rs| - 1;
    assert Unfiled(rs) == Unfiled(rs[..n]) + (if TraceIn(rs[n]).None? then {n} else {});
  }

  lemma RecordExactly(r: ConnRecord)
    ensures RecordFaults(r)
         == One(TraceIn(r).None?) + One(Fails(r, Flow)) + One(Fails(r, Phase)) + One(Fails(r, TraceNumber))
            + One(Fails(r, TraceKey)) + One(Fails(r, Carrier)) + One(Fails(r, Obfuscation)) + One(Fails(r, ErrorText))
            + One(Fails(r, Transition)) + One(Fails(r, Level))
  {
    hide Moves, Permitted;
    TraceExactly(r);
    if Filed(r) {
      MovesExactly(r.body.value.outcome, r.body.value.previous, r.body.value.state);
    }
  }

  function FailedChecks(rs: seq<ConnRecord>): nat {
    |Missed(rs, Flow)| + |Missed(rs, Phase)| + |Missed(rs, TraceNumber)| + |Missed(rs, TraceKey)|
    + |Missed(rs, Carrier)| + |Missed(rs, Obfuscation)| + |Missed(rs, ErrorText)| + |Missed(rs, Transition)|
    + |Missed(rs, Level)|
  }

  lemma {:induction false} FaultsExactly(rs: seq<ConnRecord>)
    ensures Faults(rs) == |Unfiled(rs)| + FailedChecks(rs)
  {
    hide Missed, Unfiled, Fails, TraceIn, RecordFaults;
    if |rs| == 0 {
      NoneFail(rs);
    } else {
      FaultsExactly(rs[..|rs| - 1]);
      UnfiledNext(rs);
      RecordExactly(rs[|rs| - 1]);
      MissedNext(rs, Flow);
      MissedNext(rs, Phase);
      MissedNext(rs, TraceNumber);
      MissedNext(rs, TraceKey);
      MissedNext(rs, Carrier);
      MissedNext(rs, Obfuscation);
      MissedNext(rs, ErrorText);
      MissedNext(rs, Transition);
      MissedNext(rs, Level);
    }
  }

  lemma NoneFail(rs: seq<ConnRecord>)
    requires |rs| == 0
    ensures Unfiled(rs) == {} && forall c :: Missed(rs, c) == {}
  {
  }

  /** `k` is the record of the same trace right before record `i`. */
  predicate Precedes(rs: seq<ConnRecord>, k: nat, i: nat)
    requires i < |rs|
  {
    && k < i && TraceIn(rs[k]).Some? && TraceIn(rs[k]) == TraceIn(rs[i])
    && forall m :: k < m < i ==> TraceIn(rs[m]) != TraceIn(rs[i])
  }

  /** The record starts its trace with something else than an attempt. */
  predicate StartsWrong(rs: seq<ConnRecord>, i: nat)
    requires i < |rs|
  {
    && TraceIn(rs[i]).Some? && rs[i].body.value.outcome != AttemptStarted
    && forall k :: 0 <= k < i ==> TraceIn(rs[k]) != TraceIn(rs[i])
  }

  /** The record does not go on from the state the one before it in its trace left. */
  ghost predicate Jumps(rs: seq<ConnRecord>, i: nat)
    requires i < |rs|
  {
    exists k: nat :: Precedes(rs, k, i) && rs[k].body.value.state != rs[i].body.value.previous
  }

  ghost function WrongStarts(rs: seq<ConnRecord>): set<nat> {
    set i: nat | 0 <= i < |rs| && StartsWrong(rs, i)
  }

  ghost function Discontinuities(rs: seq<ConnRecord>): set<nat> {
    set i: nat | 0 <= i < |rs| && Jumps(rs, i)
  }

  lemma StepsNext(rs: seq<ConnRecord>)
    requires |rs| > 0
    ensures |WrongStarts(rs)| == |WrongStarts(rs[..|rs| - 1])| + One(StartsWrong(rs, |rs| - 1))
    ensures |Discontinuities(rs)| == |Discontinuities(rs[..|rs| - 1])| + (if Jumps(rs, |rs| - 1) then 1 else 0)
  {
    var n := |rs| - 1;
    var front := rs[..n];
    forall i: nat | i < n
      ensures StartsWrong(front, i) <==> StartsWrong(rs, i)
      ensures Jumps(front, i) <==> Jumps(rs, i)
    {
      SameSteps(rs, n, i);
    }
    assert WrongStarts(rs) == WrongStarts(front) + (if StartsWrong(rs, n) then {n} else {}) by {
      hide StartsWrong;
    }
    assert Discontinuities(rs) == Discontinuities(front) + (if Jumps(rs, n) then {n} else {}) by {
      hide Jumps;
    }
  }

  lemma SameSteps(rs: seq<ConnRecord>, n: nat, i: nat)
    requires i < n <= |rs|
    ensures StartsWrong(rs[..n], i) <==> StartsWrong(rs, i)
    ensures Jumps(rs[..n], i) <==> Jumps(rs, i)
  {
    hide TraceIn;
    var front := rs[..n];
    assert forall k :: 0 <= k < n ==> front[k] == rs[k];
    forall k: nat
      ensures Precedes(front, k, i) <==> Precedes(rs, k, i)
    {
    }
  }

  /** The last event of a trace is that of its latest record. */
  lemma {:induction false} LatestOf(rs: seq<ConnRecord>, id: nat) returns (k: nat)
    ensures TraceEvents(rs, id) == [] ==> forall m :: 0 <= m < |rs| ==> TraceIn(rs[m]) != Some(id)
    ensures TraceEvents(rs, id) != [] ==>
      && k < |rs| && TraceIn(rs[k]) == Some(id) && (forall m :: k < m < |rs| ==> TraceIn(rs[m]) != Some(id))
      && rs[k].body.value == TraceEvents(rs, id)[|TraceEvents(rs, id)| - 1]
  {
    hide TraceIn, Filed, TraceOf;
    k := 0;
    if |rs| > 0 {
      var front := rs[..|rs| - 1];
      TraceExactly(rs[|rs| - 1]);
      k := LatestOf(front, id);
      assert forall m :: 0 <= m < |front| ==> front[m] == rs[m];
      if Filed(rs[|rs| - 1]) && TraceOf(rs[|rs| - 1]) == id {
        k := |rs| - 1;
      }
    }
  }

  lemma WalkNext(es: seq<ConnBody>, e: ConnBody)
    ensures WalkFaults(es + [e])
         == WalkFaults(es)
            + (if |es| == 0 then One(e.outcome != AttemptStarted) else One(e.previous != es[|es| - 1].state))
  {
    assert (es + [e])[..|es|] == es;
  }

  lemma {:induction false} WalksExactly(rs: seq<ConnRecord>)
    ensures Total(Groups(rs), FaultsOfWalk()) == |WrongStarts(rs)| + |Discontinuities(rs)|
  {
    hide WrongStarts, Discontinuities, TraceEvents, Total, WalkFaults, StartsWrong, Jumps, TraceIn, Filed, TraceOf;
    if |rs| == 0 {
      NoWalks(rs);
    } else {
      var n := |rs| - 1;
      var front, r := rs[..n], rs[n];
      WalksExactly(front);
      StepsNext(rs);
      assert rs[..n + 1] == rs;
      FileOne(rs, n);
      TraceExactly(r);
      if Filed(r) {
        var id := TraceOf(r);
        var es := TraceEvents(front, id);
        FiledIds(rs, n);
        WalkNext(es, r.body.value);
        EmptyWalk();
        TotalSet(Groups(front), FaultsOfWalk(), id, es + [r.body.value]);
        LastStep(rs, id);
      } else {
        UnfiledStep(rs);
      }
    }
  }

  lemma EmptyWalk()
    ensures WalkFaults([]) == 0
  {
  }

  lemma NoWalks(rs: seq<ConnRecord>)
    requires |rs| == 0
    ensures Total(Groups(rs), FaultsOfWalk()) == 0 && WrongStarts(rs) == {} && Discontinuities(rs) == {}
  {
    assert Groups(rs) == map[];
  }

  lemma UnfiledStep(rs: seq<ConnRecord>)
    requires |rs| > 0 && TraceIn(rs[|rs| - 1]).None?
    ensures !StartsWrong(rs, |rs| - 1) && !Jumps(rs, |rs| - 1)
  {
    hide TraceIn;
  }

  /** What the last record adds, said of its trace and of its place. */
  lemma LastStep(rs: seq<ConnRecord>, id: nat)
    requires |rs| > 0 && TraceIn(rs[|rs| - 1]) == Some(id)
    ensures
      var n := |rs| - 1;
      var es := TraceEvents(rs[..n], id);
      && (StartsWrong(rs, n) <==> |es| == 0 && rs[n].body.value.outcome != AttemptStarted)
      && (Jumps(rs, n) <==> |es| > 0 && rs[n].body.value.previous != es[|es| - 1].state)
  {
    hide TraceIn, TraceEvents;
    var n := |rs| - 1;
    var front := rs[..n];
    var es := TraceEvents(front, id);
    var k := LatestOf(front, id);
    assert forall m :: 0 <= m < n ==> front[m] == rs[m];
    if |es| > 0 {
      assert Precedes(rs, k, n);
      forall m: nat | Precedes(rs, m, n)
        ensures m == k
      {
      }
    }
  }

  /** The number of violations: records that are filed under no trace, failed checks, traces
      that do not start with an attempt, records that do not go on from the one before them
      in their trace, and one for an empty run. */
  lemma ViolationsExactly(rs: seq<ConnRecord>)
    ensures Violations(rs)
         == |Unfiled(rs)| + FailedChecks(rs) + |WrongStarts(rs)| + |Discontinuities(rs)|
            + (if |rs| == 0 then 1 else 0)
  {
    hide Faults, Groups, Unfiled, FailedChecks, WrongStarts, Discontinuities, Total;
    FaultsExactly(rs);
    WalksExactly(rs);
  }

  // ----- The audit as it runs ---------------------------------------------------------------

  method Audit(rs: seq<ConnRecord>) returns (ok: bool, attemptCount: nat, violations: nat)
    ensures violations == Violations(rs) && (ok <==> SoundTrace(rs))
    ensures attemptCount == |Traces(rs)|
  {
    hide FieldFaults, Proper;
    var attempts: map<nat, seq<ConnBody>> := map[];
    violations := 0;
    for i := 0 to |rs|
      invariant attempts == Groups(rs[..i])
      invariant violations == Faults(rs[..i])
    {
      var r := rs[i];
      assert rs[..i + 1][..i] == rs[..i];
      FileOne(rs, i);
      if !Filed(r) {
        violations := violations + 1;
      } else {
        violations := violations + FieldFaults(r);
        var id := TraceOf(r);
        attempts := attempts[id := (if id in attempts then attempts[id] else []) + [r.body.value]];
      }
    }
    assert rs[..|rs|] == rs;
    var walks := WalkAll(attempts);
    violations := violations + walks + One(rs == []);
    ok, attemptCount := violations == 0, |attempts|;
    assert attempts.Keys == TraceIds(rs) && |attempts| == |attempts.Keys|;
    AuditIsExact(rs);
    TracesExactly(rs);
  }

  lemma FileOne(rs: seq<ConnRecord>, i: nat)
    requires i < |rs|
    ensures Groups(rs[..i + 1])
            == if !Filed(rs[i]) then Groups(rs[..i])
               else
                 var id := TraceOf(rs[i]);
                 Groups(rs[..i])[id := (if id in Groups(rs[..i]) then Groups(rs[..i])[id] else []) + [rs[i].body.value]]
  {
    hide TraceIds, TraceEvents;
    FiledIds(rs, i);
    var all, front := Groups(rs[..i + 1]), Groups(rs[..i]);
    if Filed(rs[i]) {
      var id := TraceOf(rs[i]);
      var next := front[id := (if id in front then front[id] else []) + [rs[i].body.value]];
      assert all.Keys == next.Keys;
      assert forall k :: k in all ==> all[k] == next[k];
    } else {
      assert all.Keys == front.Keys;
      assert forall k :: k in all ==> all[k] == front[k];
    }
  }

  lemma FiledIds(rs: seq<ConnRecord>, i: nat)
    requires i < |rs|
    ensures TraceIds(rs[..i + 1]) == TraceIds(rs[..i]) + (if Filed(rs[i]) then {TraceOf(rs[i])} else {})
    ensures forall id ::
      TraceEvents(rs[..i + 1], id) ==
      TraceEvents(rs[..i], id) + (if Filed(rs[i]) && TraceOf(rs[i]) == id then [rs[i].body.value] else [])
    ensures forall id :: id !in TraceIds(rs[..i]) ==> TraceEvents(rs[..i], id) == []
  {
    var front, all := rs[..i], rs[..i + 1];
    assert all[..i] == front;
    assert all == front + [rs[i]];
    forall id | id !in TraceIds(front)
      ensures TraceEvents(front, id) == []
    {
      NotFiled(front, id);
    }
    forall id
      ensures id in TraceIds(all) <==> id in TraceIds(front) || (Filed(rs[i]) && id == TraceOf(rs[i]))
    {
      if id in TraceIds(front) {
        var k :| 0 <= k < |front| && Filed(front[k]) && TraceOf(front[k]) == id;
        assert all[k] == front[k];
      }
      if Filed(rs[i]) && id == TraceOf(rs[i]) {
        assert all[i] == rs[i];
      }
    }
  }

  lemma {:induction false} NotFiled(rs: seq<ConnRecord>, id: nat)
    requires id !in TraceIds(rs)
    ensures TraceEvents(rs, id) == []
  {
    if |rs| > 0 {
      var front := rs[..|rs| - 1];
      assert forall i :: 0 <= i < |front| ==> front[i] == rs[i];
      NotFiled(front, id);
    }
  }

  /** Walks every trace once, in any order. */
  method WalkAll(attempts: map<nat, seq<ConnBody>>) returns (n: nat)
    ensures n == Total(attempts, FaultsOfWalk())
  {
    var todo := attempts;
    n := 0;
    while |todo| > 0
      invariant n + Total(todo, FaultsOfWalk()) == Total(attempts, FaultsOfWalk())
      decreases |todo|
    {
      assert todo.Keys != {};
      var id :| id in todo;
      TotalPick(todo, FaultsOfWalk(), id);
      var faults := WalkOne(todo[id]);
      n, todo := n + faults, todo - {id};
    }
  }

  /** Follows one trace from state to state. */
  method WalkOne(es: seq<ConnBody>) returns (n: nat)
    ensures n == WalkFaults(es)
  {
    if |es| == 0 {
      return 0;
    }
    n := One(es[0].outcome != AttemptStarted);
    var previous := es[0].state;
    for i := 1 to |es|
      invariant n == One(es[0].outcome != AttemptStarted) + Breaks(es[..i])
      invariant previous == es[i - 1].state
    {
      assert es[..i + 1][..i] == es[..i];
      n := n + One(es[i].previous != previous);
      previous := es[i].state;
    }
    assert es[..|es|] == es;
  }

  // ----- What a sound trace guarantees --------------------------------------------------------

  lemma {:induction false} TracesArePermitted(rs: seq<ConnRecord>, id: nat)
    requires forall i :: 0 <= i < |rs| ==> Proper(rs[i])
    ensures forall i :: 0 <= i < |TraceEvents(rs, id)| ==>
      var e := TraceEvents(rs, id)[i];
      Permitted(e.outcome, e.previous, e.state)
  {
    if |rs| > 0 {
      TracesArePermitted(rs[..|rs| - 1], id);
    }
  }

  /** In a sound trace, being connected is always reached by an attempt, a
      transport and a login in immediate succession. */
  lemma ConnectedIsEarned(rs: seq<ConnRecord>, id: nat, i: nat)
    requires SoundTrace(rs) && i < |TraceEvents(rs, id)| && TraceEvents(rs, id)[i].state == Connected
    ensures i >= 2
    ensures
      var es := TraceEvents(rs, id);
      && es[i].outcome == LoginAccepted
      && es[i - 1].outcome == TransportConnected && es[i - 1].state == AwaitingIdChange
      && es[i - 2].outcome == AttemptStarted && es[i - 2].state == Connecting
  {
    TracesArePermitted(rs, id);
    InTrace(rs, id);
    var es := TraceEvents(rs, id);
    assert i > 0;
    assert es[i - 1].state == AwaitingIdChange;
    assert i > 1;
    assert es[i - 2].state == Connecting;
  }

  lemma InTrace(rs: seq<ConnRecord>, id: nat)
    requires TraceEvents(rs, id) != []
    ensures id in TraceIds(rs)
  {
    if id !in TraceIds(rs) {
      NotFiled(rs, id);
    }
  }

  lemma FollowedIsOpen(rs: seq<ConnRecord>, id: nat, i: nat)
    requires SoundTrace(rs) && i + 1 < |TraceEvents(rs, id)|
    ensures TraceEvents(rs, id)[i].state != Disconnected
  {
    TracesArePermitted(rs, id);
    InTrace(rs, id);
    var es := TraceEvents(rs, id);
    assert es[i + 1].previous == es[i].state;
  }

  /** Nothing follows a disconnect. */
  lemma DisconnectIsFinal(rs: seq<ConnRecord>, id: nat, i: nat)
    requires SoundTrace(rs) && i < |TraceEvents(rs, id)| && TraceEvents(rs, id)[i].state == Disconnected
    ensures i == |TraceEvents(rs, id)| - 1
  {
    if i + 1 < |TraceEvents(rs, id)| {
      FollowedIsOpen(rs, id, i);
    }
  }

  /** Between any two attempt starts of a trace the connection was closed, right
      before the second one. */
  lemma CloseBetweenStarts(rs: seq<ConnRecord>, id: nat, i: nat, j: nat)
    requires SoundTrace(rs) && i < j < |TraceEvents(rs, id)|
    requires TraceEvents(rs, id)[i].outcome == AttemptStarted && TraceEvents(rs, id)[j].outcome == AttemptStarted
    ensures i < j - 1 && TraceEvents(rs, id)[j - 1].outcome == ConnectionClosed
    ensures TraceEvents(rs, id)[j - 1].state == NotConnected
  {
    TracesArePermitted(rs, id);
    InTrace(rs, id);
    var es := TraceEvents(rs, id);
    assert es[j - 1].state == NotConnected;
    assert es[j - 1].outcome == ConnectionClosed;
  }
}
