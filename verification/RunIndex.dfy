/**
 The compact index of one diagnostic run: contiguity of the process, segment
 and stream sequences, and bounded counters per family and per opcode.
 */
module RunIndex {
  import opened Wrappers
  import opened Totals
  import opened JsonFields

  // ----- Values --------------------------------------------------------------

  datatype Body = Body(outcome: Json, opcode: Json, marker: Json, opcodeName: Json, direction: Json)

  /** The names of the key object in order, and two of its values. */
  datatype Keys = Keys(names: seq<string>, opcode: Json, marker: Json)

  datatype Record = Record(
    current: bool, client: Json, processId: Json, runId: Json, segmentId: Json, seqNo: Json, streamSeq: Json,
    family: Json, event: Json, severity: Json, body: Option<Body>, keys: Option<Keys>)

  datatype Span = Span(first: Option<nat>, last: Option<nat>, omitted: Option<nat>)

  type Counter = map<string, nat>

  datatype Opcode = Opcode(
    records: nat, names: set<string>, directions: Counter, events: Counter, outcomes: Counter, keyPresence: Counter)

  /** A protocol marker, if any, and an opcode. */
  type OpcodeKey = (Option<nat>, nat)

  datatype Family = Family(
    records: nat, stream: Span, events: Counter, outcomes: Counter, severities: Counter, keyPresence: Counter,
    opcodes: map<OpcodeKey, Opcode>)

  datatype Index = Index(
    client: string, processId: nat, runId: string, records: nat, process: Span, segments: Span,
    families: map<string, Family>)

  const MAX_FAMILIES := 128
  const MAX_EVENTS := 256
  const MAX_OUTCOMES := 256
  const MAX_OPCODES := 2048
  const MAX_NAMES := 8
  const MAX_KEYS := 256
  const MAX_DIRECTIONS := 16

  const NO_SPAN := Span(None, None, None)
  const NO_FAMILY := Family(0, NO_SPAN, map[], map[], map[], map[], map[])
  const NO_OPCODE := Opcode(0, {}, map[], map[], map[], map[])

  function NewIndex(client: string, processId: nat, runId: string): Index {
    Index(client, processId, runId, 0, NO_SPAN, NO_SPAN, map[])
  }

  predicate SameRun(r: Record, client: string, processId: nat, runId: string) {
    r.client == Text(client) && EqualsNumber(r.processId, processId) && r.runId == Text(runId)
  }

  // ----- One record --------------------------------------------------------------

  function AdvanceSequence(s: Span, value: nat): Result<Span>
    requires value > 0
  {
    if s.last.None? then Success(Span(Some(value), Some(value), Some(value - 1)))
    else if value != s.last.value + 1 then Failure("non-contiguous sequence")
    else Success(s.(last := Some(value)))
  }

  function AdvanceSegment(s: Span, segment: nat): Result<Span> {
    if s.last.None? then Success(Span(Some(segment), Some(segment), Some(segment)))
    else if segment < s.last.value || segment > s.last.value + 1 then Failure("non-contiguous diagnostic segment IDs")
    else Success(s.(last := Some(segment)))
  }

  function Increment(m: Counter, key: string, maximum: nat): Result<Counter> {
    if key !in m && |m| >= maximum then Failure("exceeded distinct values")
    else Success(m[key := (if key in m then m[key] else 0) + 1])
  }

  function IncrementAll(m: Counter, keys: seq<string>, maximum: nat): Result<Counter> {
    if |keys| == 0 then Success(m)
    else
      var front :- IncrementAll(m, keys[..|keys| - 1], maximum);
      var key :- NonEmpty(Text(keys[|keys| - 1]));
      Increment(front, key, maximum)
  }

  function AddName(names: set<string>, v: Json): Result<set<string>> {
    if Nil(v) then Success(names)
    else
      var name :- NonEmpty(v);
      if |names + {name}| > MAX_NAMES then Failure("exceeded distinct names") else Success(names + {name})
  }

  function IncrementOptional(m: Counter, v: Option<string>, maximum: nat): Result<Counter> {
    if v.None? then Success(m) else Increment(m, v.value, maximum)
  }

  /** The opcode of a record, with the key object as the body's fallback. */
  function OpcodeOf(body: Body, keys: Keys): Result<Option<OpcodeKey>> {
    var opcode := if body.opcode.Missing? then keys.opcode else body.opcode;
    var marker := if body.marker.Missing? then keys.marker else body.marker;
    if Nil(opcode) then Success(None)
    else
      var n :- NonNegative(opcode);
      var m :- OptionalNumber(marker);
      Success(Some((m, n)))
  }

  function AdvanceOpcode(
    opcodes: map<OpcodeKey, Opcode>, key: OpcodeKey, body: Body, event: string, outcome: Option<string>,
    keys: seq<string>): Result<map<OpcodeKey, Opcode>>
  {
    if key !in opcodes && |opcodes| >= MAX_OPCODES then Failure("exceeded distinct opcodes")
    else
      var entry := if key in opcodes then opcodes[key] else NO_OPCODE;
      var names :- AddName(entry.names, body.opcodeName);
      var direction :- OptionalText(body.direction);
      var directions :- IncrementOptional(entry.directions, direction, MAX_DIRECTIONS);
      var events :- Increment(entry.events, event, MAX_EVENTS);
      var outcomes :- IncrementOptional(entry.outcomes, outcome, MAX_OUTCOMES);
      var keyPresence :- IncrementAll(entry.keyPresence, keys, MAX_KEYS);
      Success(opcodes[key := Opcode(entry.records + 1, names, directions, events, outcomes, keyPresence)])
  }

  function CountOpcode(
    opcodes: map<OpcodeKey, Opcode>, body: Body, keys: Keys, event: string, outcome: Option<string>)
    : Result<map<OpcodeKey, Opcode>>
  {
    var key :- OpcodeOf(body, keys);
    if key.None? then Success(opcodes) else AdvanceOpcode(opcodes, key.value, body, event, outcome, keys.names)
  }

  function CountRecord(f: Family, event: string, severity: string, body: Body, keys: Keys): Result<Family> {
    var keyPresence :- IncrementAll(f.keyPresence, keys.names, MAX_KEYS);
    var events :- Increment(f.events, event, MAX_EVENTS);
    var severities :- Increment(f.severities, severity, MAX_OUTCOMES);
    var outcome :- OptionalText(body.outcome);
    var outcomes :- IncrementOptional(f.outcomes, outcome, MAX_OUTCOMES);
    var opcodes :- CountOpcode(f.opcodes, body, keys, event, outcome);
    Success(Family(f.records + 1, f.stream, events, outcomes, severities, keyPresence, opcodes))
  }

  function AdvanceFamily(families: map<string, Family>, name: string, streamSeq: nat): Result<Family>
    requires streamSeq > 0
  {
    if name !in families && |families| >= MAX_FAMILIES then Failure("exceeded distinct families")
    else
      var f := if name in families then families[name] else NO_FAMILY;
      var stream :- AdvanceSequence(f.stream, streamSeq);
      Success(f.(stream := stream))
  }

  /** One record, checked and counted; `Failure` is the integrity error. */
  function AdvanceRecord(x: Index, r: Record): Result<Index> {
    if !r.current then Failure("record does not use the current diagnostic schema")
    else if !SameRun(r, x.client, x.processId, x.runId) then Failure("record identity")
    else
      var segment :- NonNegative(r.segmentId);
      var seqNo :- Positive(r.seqNo);
      var streamSeq :- Positive(r.streamSeq);
      var family :- NonEmpty(r.family);
      var event :- NonEmpty(r.event);
      var severity :- NonEmpty(r.severity);
      if r.body.None? || r.keys.None? then Failure("record body and keys must be objects")
      else
        var process :- AdvanceSequence(x.process, seqNo);
        var segments :- AdvanceSegment(x.segments, segment);
        var f :- AdvanceFamily(x.families, family, streamSeq);
        var counted :- CountRecord(f, event, severity, r.body.value, r.keys.value);
        Success(x.(records := x.records + 1, process := process, segments := segments,
                   families := x.families[family := counted]))
  }

  function AdvanceRecords(x: Index, rs: seq<Record>): Result<Index> {
    if |rs| == 0 then Success(x)
    else
      var front :- AdvanceRecords(x, rs[..|rs| - 1]);
      AdvanceRecord(front, rs[|rs| - 1])
  }

  // ----- Folding is one pass -------------------------------------------------------

  /** Indexing a run in two parts is indexing it at once, errors included. */
  lemma {:induction false} AdvanceInParts(x: Index, xs: seq<Record>, ys: seq<Record>)
    ensures AdvanceRecords(x, xs).Success? ==>
      AdvanceRecords(x, xs + ys) == AdvanceRecords(AdvanceRecords(x, xs).value, ys)
    ensures AdvanceRecords(x, xs).Failure? ==> AdvanceRecords(x, xs + ys).Failure?
  {
    hide AdvanceRecord;
    if |ys| == 0 {
      assert xs + ys == xs;
    } else {
      assert (xs + ys)[..|xs + ys| - 1] == xs + ys[..|ys| - 1];
      AdvanceInParts(x, xs, ys[..|ys| - 1]);
    }
  }

  // ----- Conservation ----------------------------------------------------------------

  function Id(): nat -> nat {
    (n: nat) => n
  }

  function FamilyRecords(): Family -> nat {
    (f: Family) => f.records
  }

  function OpcodeRecords(): Opcode -> nat {
    (o: Opcode) => o.records
  }

  ghost function Sum(m: Counter): nat {
    Total(m, Id())
  }

  predicate SpanOk(s: Span, n: nat) {
    && (s.first.None? <==> n == 0) && (s.last.None? <==> n == 0) && (s.omitted.None? <==> n == 0)
    && (n > 0 ==> s.first.value > 0 && s.omitted.value == s.first.value - 1 && n == s.last.value - s.first.value + 1)
  }

  predicate SegmentsOk(s: Span, n: nat) {
    && (s.first.None? <==> n == 0) && (s.last.None? <==> n == 0)
    && s.omitted == s.first
    && (n > 0 ==> s.first.value <= s.last.value < s.first.value + n)
  }

  ghost predicate OpcodeOk(o: Opcode) {
    && o.records > 0 && o.records == Sum(o.events)
    && Sum(o.outcomes) <= o.records && Sum(o.directions) <= o.records
    && |o.names| <= MAX_NAMES && |o.directions| <= MAX_DIRECTIONS && |o.events| <= MAX_EVENTS
    && |o.outcomes| <= MAX_OUTCOMES && |o.keyPresence| <= MAX_KEYS
  }

  ghost predicate FamilyOk(f: Family) {
    && f.records == Sum(f.events) == Sum(f.severities)
    && Sum(f.outcomes) <= f.records
    && Total(f.opcodes, OpcodeRecords()) <= f.records
    && |f.events| <= MAX_EVENTS && |f.severities| <= MAX_OUTCOMES && |f.outcomes| <= MAX_OUTCOMES
    && |f.keyPresence| <= MAX_KEYS && |f.opcodes| <= MAX_OPCODES
    && (forall k :: k in f.opcodes ==> OpcodeOk(f.opcodes[k]))
  }

  /** Every counter of an index adds up. */
  ghost predicate Conserved(x: Index) {
    && SpanOk(x.process, x.records) && SegmentsOk(x.segments, x.records)
    && FamiliesOk(x.families, x.records)
  }

  /** The families partition the records of the run. */
  ghost predicate FamiliesOk(families: map<string, Family>, n: nat) {
    && n == Total(families, FamilyRecords())
    && |families| <= MAX_FAMILIES
    && forall name :: name in families ==>
         families[name].records > 0 && SpanOk(families[name].stream, families[name].records) && FamilyOk(families[name])
  }

  lemma IncrementSum(m: Counter, key: string, maximum: nat)
    requires Increment(m, key, maximum).Success?
    ensures Sum(Increment(m, key, maximum).value) == Sum(m) + 1
    ensures |m| <= maximum ==> |Increment(m, key, maximum).value| <= maximum
  {
    TotalSet(m, Id(), key, (if key in m then m[key] else 0) + 1);
  }

  lemma {:induction false} IncrementAllBound(m: Counter, keys: seq<string>, maximum: nat)
    requires IncrementAll(m, keys, maximum).Success? && |m| <= maximum
    ensures |IncrementAll(m, keys, maximum).value| <= maximum
  {
    if |keys| > 0 {
      IncrementAllBound(m, keys[..|keys| - 1], maximum);
    }
  }

  lemma OptionalSum(m: Counter, v: Option<string>, maximum: nat)
    requires IncrementOptional(m, v, maximum).Success? && |m| <= maximum
    ensures
      var n := IncrementOptional(m, v, maximum).value;
      Sum(m) <= Sum(n) <= Sum(m) + 1 && |n| <= maximum
  {
    if v.Some? {
      IncrementSum(m, v.value, maximum);
    }
  }

  lemma NamesBound(names: set<string>, v: Json)
    requires AddName(names, v).Success? && |names| <= MAX_NAMES
    ensures |AddName(names, v).value| <= MAX_NAMES
  {
  }

  lemma EmptySums()
    ensures Sum(map[]) == 0 && Total<OpcodeKey, Opcode>(map[], OpcodeRecords()) == 0
    ensures Total<string, Family>(map[], FamilyRecords()) == 0
  {
  }

  lemma OpcodeConserved(
    opcodes: map<OpcodeKey, Opcode>, key: OpcodeKey, body: Body, event: string, outcome: Option<string>,
      keys: seq<string>)
    requires AdvanceOpcode(opcodes, key, body, event, outcome, keys).Success?
    requires |opcodes| <= MAX_OPCODES && forall k :: k in opcodes ==> OpcodeOk(opcodes[k])
    ensures
      var after := AdvanceOpcode(opcodes, key, body, event, outcome, keys).value;
      && |after| <= MAX_OPCODES && (forall k :: k in after ==> OpcodeOk(after[k]))
      && Total(after, OpcodeRecords()) == Total(opcodes, OpcodeRecords()) + 1
  {
    hide Sum, Increment, IncrementOptional, IncrementAll, Total, AddName;
    var entry := if key in opcodes then opcodes[key] else NO_OPCODE;
    var after := AdvanceOpcode(opcodes, key, body, event, outcome, keys).value;
    EmptySums();
    var direction := OptionalText(body.direction).value;
    OptionalSum(entry.directions, direction, MAX_DIRECTIONS);
    IncrementSum(entry.events, event, MAX_EVENTS);
    OptionalSum(entry.outcomes, outcome, MAX_OUTCOMES);
    IncrementAllBound(entry.keyPresence, keys, MAX_KEYS);
    NamesBound(entry.names, body.opcodeName);
    assert after == opcodes[key := after[key]];
    TotalSet(opcodes, OpcodeRecords(), key, after[key]);
  }

  lemma CountConserved(f: Family, event: string, severity: string, body: Body, keys: Keys)
    requires FamilyOk(f) && CountRecord(f, event, severity, body, keys).Success?
    ensures FamilyOk(CountRecord(f, event, severity, body, keys).value)
  {
    hide Sum, Increment, IncrementOptional, IncrementAll, AdvanceOpcode, OpcodeOf, OpcodeOk;
    IncrementAllBound(f.keyPresence, keys.names, MAX_KEYS);
    IncrementSum(f.events, event, MAX_EVENTS);
    IncrementSum(f.severities, severity, MAX_OUTCOMES);
    var outcome := OptionalText(body.outcome).value;
    OptionalSum(f.outcomes, outcome, MAX_OUTCOMES);
    var key := OpcodeOf(body, keys).value;
    if key.Some? {
      OpcodeConserved(f.opcodes, key.value, body, event, outcome, keys.names);
    }
  }

  lemma SpanAdvances(s: Span, n: nat, value: nat)
    requires value > 0 && SpanOk(s, n) && AdvanceSequence(s, value).Success?
    ensures SpanOk(AdvanceSequence(s, value).value, n + 1)
  {
  }

  lemma FamiliesConserved(
    families: map<string, Family>, n: nat, name: string, streamSeq: nat, event: string, severity: string, body: Body,
      keys: Keys)
    requires FamiliesOk(families, n) && streamSeq > 0 && AdvanceFamily(families, name, streamSeq).Success?
    requires CountRecord(AdvanceFamily(families, name, streamSeq).value, event, severity, body, keys).Success?
    ensures
      var f := AdvanceFamily(families, name, streamSeq).value;
      FamiliesOk(families[name := CountRecord(f, event, severity, body, keys).value], n + 1)
  {
    hide FamilyOk, CountRecord, Total, SpanOk, AdvanceSequence;
    var before := if name in families then families[name] else NO_FAMILY;
    NoFamilyOk();
    var f := AdvanceFamily(families, name, streamSeq).value;
    SpanAdvances(before.stream, before.records, streamSeq);
    SameFamily(before, f);
    CountConserved(f, event, severity, body, keys);
    CountAdds(f, event, severity, body, keys);
    TotalSet(families, FamilyRecords(), name, CountRecord(f, event, severity, body, keys).value);
  }

  /** Counting one record keeps every conservation law. */
  lemma RecordConserved(x: Index, r: Record)
    requires Conserved(x) && AdvanceRecord(x, r).Success?
    ensures Conserved(AdvanceRecord(x, r).value)
  {
    hide FamilyOk, CountRecord, Total, AdvanceFamily;
    FamiliesConserved(x.families, x.records, r.family.s, r.streamSeq.n, r.event.s, r.severity.s, r.body.value,
      r.keys.value);
    SpanAdvances(x.process, x.records, r.seqNo.n);
    assert SegmentsOk(AdvanceRecord(x, r).value.segments, x.records + 1);
  }

  lemma NoFamilyOk()
    ensures FamilyOk(NO_FAMILY) && SpanOk(NO_FAMILY.stream, 0)
  {
    EmptySums();
  }

  lemma SameFamily(f: Family, g: Family)
    requires FamilyOk(f) && g == f.(stream := g.stream)
    ensures FamilyOk(g)
  {
  }

  lemma CountAdds(f: Family, event: string, severity: string, body: Body, keys: Keys)
    requires CountRecord(f, event, severity, body, keys).Success?
    ensures
      var g := CountRecord(f, event, severity, body, keys).value;
      && g.records == f.records + 1 && g.stream == f.stream
      && g.events == Increment(f.events, event, MAX_EVENTS).value
      && g.severities == Increment(f.severities, severity, MAX_OUTCOMES).value
  {
  }

  /** Every index reached from the empty one conserves all its counts. */
  lemma {:induction false} IndexConserved(client: string, processId: nat, runId: string, rs: seq<Record>)
    requires AdvanceRecords(NewIndex(client, processId, runId), rs).Success?
    ensures Conserved(AdvanceRecords(NewIndex(client, processId, runId), rs).value)
  {
    hide AdvanceRecord, Conserved;
    if |rs| == 0 {
      assert Conserved(NewIndex(client, processId, runId)) by { NewConserved(client, processId, runId); }
    } else {
      IndexConserved(client, processId, runId, rs[..|rs| - 1]);
      RecordConserved(AdvanceRecords(NewIndex(client, processId, runId), rs[..|rs| - 1]).value, rs[|rs| - 1]);
    }
  }

  lemma NewConserved(client: string, processId: nat, runId: string)
    ensures Conserved(NewIndex(client, processId, runId))
  {
    EmptySums();
  }
}
