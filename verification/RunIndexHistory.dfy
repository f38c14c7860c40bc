/**
 The index of a run as a function of its records, and exactly which records are
 accepted: well-formed fields, contiguous sequences, and bounded distinct values.
 */
module RunIndexHistory {
  import opened Wrappers
  import opened JsonFields
  import opened RunIndex

  // ----- Streams of values -------------------------------------------------------------

  function Distinct(s: seq<string>): set<string> {
    set k | k in s
  }

  /** How often each value occurs. */
  function Tallied(s: seq<string>): Counter {
    map k | k in Distinct(s) :: multiset(s)[k]
  }

  /** The values picked from each record, in order. */
  function Picked(rs: seq<Record>, pick: Record -> seq<string>): seq<string> {
    if |rs| == 0 then [] else Picked(rs[..|rs| - 1], pick) + pick(rs[|rs| - 1])
  }

  function TextOf(v: Json): seq<string> {
    if v.Text? then [v.s] else []
  }

  function EventOf(r: Record): seq<string> {
    TextOf(r.event)
  }

  function SeverityOf(r: Record): seq<string> {
    TextOf(r.severity)
  }

  function OutcomeOf(r: Record): seq<string> {
    if r.body.Some? then TextOf(r.body.value.outcome) else []
  }

  function DirectionOf(r: Record): seq<string> {
    if r.body.Some? then TextOf(r.body.value.direction) else []
  }

  function OpcodeNameOf(r: Record): seq<string> {
    if r.body.Some? then TextOf(r.body.value.opcodeName) else []
  }

  function KeyNamesOf(r: Record): seq<string> {
    if r.keys.Some? then r.keys.value.names else []
  }

  function Whole(v: Json): nat {
    if v.Num? && v.n >= 0 then v.n else 0
  }

  predicate IsWhole(v: Json) {
    v.Num? && v.n >= 0
  }

  predicate IsText(v: Json) {
    v.Text? && v.s != ""
  }

  predicate Without(v: Json) {
    v == Missing || v == Null
  }

  /** The body's own field, or, only where it has none, that of the keys. */
  function OpcodeField(r: Record): Json {
    if r.body.Some? && r.body.value.opcode != Missing then r.body.value.opcode
    else if r.keys.Some? then r.keys.value.opcode else Missing
  }

  function MarkerField(r: Record): Json {
    if r.body.Some? && r.body.value.marker != Missing then r.body.value.marker
    else if r.keys.Some? then r.keys.value.marker else Missing
  }

  /** The opcode of a record with its marker, if it has one; the same opcode under two
      markers is two keys. */
  function OpcodeKeyOf(r: Record): Option<OpcodeKey> {
    if !IsWhole(OpcodeField(r)) then None
    else if IsWhole(MarkerField(r)) then Some((Some(Whole(MarkerField(r))), Whole(OpcodeField(r))))
    else if Without(MarkerField(r)) then Some((None, Whole(OpcodeField(r))))
    else None
  }

  /** A record without an opcode may have any marker; with one both are whole numbers. */
  predicate OpcodeFits(r: Record) {
    Without(OpcodeField(r)) || (IsWhole(OpcodeField(r)) && (Without(MarkerField(r)) || IsWhole(MarkerField(r))))
  }

  lemma OpcodeExactly(r: Record)
    requires r.body.Some? && r.keys.Some?
    ensures OpcodeOf(r.body.value, r.keys.value).Success? <==> OpcodeFits(r)
    ensures OpcodeFits(r) ==> OpcodeOf(r.body.value, r.keys.value) == Success(OpcodeKeyOf(r))
  {
  }

  // ----- The index of a history -----------------------------------------------------------

  function InFamily(rs: seq<Record>, name: string): seq<Record> {
    if |rs| == 0 then []
    else
      var front, r := InFamily(rs[..|rs| - 1], name), rs[|rs| - 1];
      if r.family == Text(name) then front + [r] else front
  }

  function WithOpcode(fs: seq<Record>, key: OpcodeKey): seq<Record> {
    if |fs| == 0 then []
    else
      var front, r := WithOpcode(fs[..|fs| - 1], key), fs[|fs| - 1];
      if OpcodeKeyOf(r) == Some(key) then front + [r] else front
  }

  function Names(rs: seq<Record>): set<string> {
    if |rs| == 0 then {}
    else
      var front, r := Names(rs[..|rs| - 1]), rs[|rs| - 1];
      if r.family.Text? then front + {r.family.s} else front
  }

  function OpcodeKeys(fs: seq<Record>): set<OpcodeKey> {
    if |fs| == 0 then {}
    else
      var front, r := OpcodeKeys(fs[..|fs| - 1]), fs[|fs| - 1];
      if OpcodeKeyOf(r).Some? then front + {OpcodeKeyOf(r).value} else front
  }

  function EntryOf(os: seq<Record>): Opcode {
    Opcode(|os|, Distinct(Picked(os, OpcodeNameOf)), Tallied(Picked(os, DirectionOf)), Tallied(Picked(os, EventOf)),
           Tallied(Picked(os, OutcomeOf)), Tallied(Picked(os, KeyNamesOf)))
  }

  function OpcodesOf(fs: seq<Record>): map<OpcodeKey, Opcode> {
    map key | key in OpcodeKeys(fs) :: EntryOf(WithOpcode(fs, key))
  }

  /** The span from the first number to the last. */
  function SpanFrom(first: nat, last: nat, omitted: nat): Span {
    Span(Some(first), Some(last), Some(omitted))
  }

  function Before(n: nat): nat {
    if n == 0 then 0 else n - 1
  }

  function StreamOf(fs: seq<Record>): Span {
    if |fs| == 0 then NO_SPAN
    else SpanFrom(Whole(fs[0].streamSeq), Whole(fs[|fs| - 1].streamSeq), Before(Whole(fs[0].streamSeq)))
  }

  function FamilyOf(fs: seq<Record>): Family {
    Family(|fs|, StreamOf(fs), Tallied(Picked(fs, EventOf)), Tallied(Picked(fs, OutcomeOf)),
           Tallied(Picked(fs, SeverityOf)), Tallied(Picked(fs, KeyNamesOf)), OpcodesOf(fs))
  }

  function FamiliesOf(rs: seq<Record>): map<string, Family> {
    map name | name in Names(rs) :: FamilyOf(InFamily(rs, name))
  }

  function ProcessOf(rs: seq<Record>): Span {
    if |rs| == 0 then NO_SPAN
    else SpanFrom(Whole(rs[0].seqNo), Whole(rs[|rs| - 1].seqNo), Before(Whole(rs[0].seqNo)))
  }

  function SegmentsOf(rs: seq<Record>): Span {
    if |rs| == 0 then NO_SPAN
    else SpanFrom(Whole(rs[0].segmentId), Whole(rs[|rs| - 1].segmentId), Whole(rs[0].segmentId))
  }

  /** The whole index, computed from the records alone. */
  function IndexOf(client: string, processId: nat, runId: string, rs: seq<Record>): Index {
    Index(client, processId, runId, |rs|, ProcessOf(rs), SegmentsOf(rs), FamiliesOf(rs))
  }

  // ----- Which records are accepted --------------------------------------------------------

  /** Every field the index reads is of its kind. */
  predicate FieldsOk(r: Record) {
    && IsWhole(r.segmentId) && IsWhole(r.seqNo) && Whole(r.seqNo) > 0 && IsWhole(r.streamSeq) && Whole(r.streamSeq) > 0
    && IsText(r.family) && IsText(r.event) && IsText(r.severity)
    && r.body.Some? && r.keys.Some?
    && (forall i :: 0 <= i < |r.keys.value.names| ==> r.keys.value.names[i] != "")
    && (Without(r.body.value.outcome) || IsText(r.body.value.outcome))
    && OpcodeFits(r)
    && (OpcodeKeyOf(r).Some? ==>
          && (Without(r.body.value.opcodeName) || IsText(r.body.value.opcodeName))
          && (Without(r.body.value.direction) || IsText(r.body.value.direction)))
  }

  predicate EntryFits(os: seq<Record>) {
    && |Distinct(Picked(os, OpcodeNameOf))| <= 8
    && |Distinct(Picked(os, DirectionOf))| <= 16
    && |Distinct(Picked(os, EventOf))| <= 256
    && |Distinct(Picked(os, OutcomeOf))| <= 256
    && |Distinct(Picked(os, KeyNamesOf))| <= 256
  }

  /** The distinct values of one family stay within their bounds. */
  predicate FamilyFits(fs: seq<Record>) {
    && |Distinct(Picked(fs, EventOf))| <= 256
    && |Distinct(Picked(fs, SeverityOf))| <= 256
    && |Distinct(Picked(fs, OutcomeOf))| <= 256
    && |Distinct(Picked(fs, KeyNamesOf))| <= 256
    && |OpcodeKeys(fs)| <= 2048
    && forall key :: key in OpcodeKeys(fs) ==> EntryFits(WithOpcode(fs, key))
  }

  /** The number is the one after the last, if there is a last. */
  predicate NextAfter(s: Span, n: nat) {
    s.last.Some? ==> n == s.last.value + 1
  }

  predicate SameOrNext(s: Span, n: nat) {
    s.last.Some? ==> s.last.value <= n <= s.last.value + 1
  }

  /** The number, or a whole float of it, or a boolean for zero and one. */
  predicate Numbers(v: Json, n: nat) {
    v == Num(n) || v == Json.Real(n as real) || (n == 1 && v == Bool(true)) || (n == 0 && v == Bool(false))
  }

  lemma NumbersExactly(v: Json, n: nat)
    ensures Numbers(v, n) <==> EqualsNumber(v, n)
  {
  }

  /** The record is of this run. */
  predicate OfRun(r: Record, client: string, processId: nat, runId: string) {
    r.client == Text(client) && r.runId == Text(runId) && Numbers(r.processId, processId)
  }

  lemma OfRunExactly(r: Record, client: string, processId: nat, runId: string)
    ensures OfRun(r, client, processId, runId) <==> SameRun(r, client, processId, runId)
  {
    NumbersExactly(r.processId, processId);
  }

  lemma FieldExactly(v: Json)
    ensures NonNegative(v).Success? <==> IsWhole(v)
    ensures Positive(v).Success? <==> IsWhole(v) && Whole(v) > 0
    ensures NonEmpty(v).Success? <==> IsText(v)
    ensures OptionalText(v).Success? <==> Without(v) || IsText(v)
    ensures NonNegative(v).Success? ==> NonNegative(v).value == Whole(v)
    ensures Positive(v).Success? ==> Positive(v).value == Whole(v)
    ensures NonEmpty(v).Success? ==> NonEmpty(v).value == v.s
  {
  }

  lemma FieldsExactly(r: Record)
    ensures FieldsOk(r) <==>
      && NonNegative(r.segmentId).Success? && Positive(r.seqNo).Success? && Positive(r.streamSeq).Success?
      && NonEmpty(r.family).Success? && NonEmpty(r.event).Success? && NonEmpty(r.severity).Success?
      && r.body.Some? && r.keys.Some?
      && (forall i :: 0 <= i < |r.keys.value.names| ==> r.keys.value.names[i] != "")
      && OptionalText(r.body.value.outcome).Success? && OpcodeFits(r)
      && (OpcodeKeyOf(r).Some? ==>
            OptionalText(r.body.value.opcodeName).Success? && OptionalText(r.body.value.direction).Success?)
  {
    hide OpcodeFits, OpcodeKeyOf, IsWhole, IsText, Without, Whole;
    hide NonNegative, Positive, NonEmpty, OptionalText;
    FieldExactly(r.segmentId);
    FieldExactly(r.seqNo);
    FieldExactly(r.streamSeq);
    FieldExactly(r.family);
    FieldExactly(r.event);
    FieldExactly(r.severity);
    if r.body.Some? {
      FieldExactly(r.body.value.outcome);
      FieldExactly(r.body.value.opcodeName);
      FieldExactly(r.body.value.direction);
    }
  }

  /** A record that may follow those before it. */
  predicate Joins(client: string, processId: nat, runId: string, rs: seq<Record>, r: Record) {
    && r.current && OfRun(r, client, processId, runId) && FieldsOk(r)
    && NextAfter(ProcessOf(rs), Whole(r.seqNo)) && SameOrNext(SegmentsOf(rs), Whole(r.segmentId))
    && NextAfter(StreamOf(InFamily(rs, r.family.s)), Whole(r.streamSeq))
    && |Names(rs + [r])| <= 128
    && FamilyFits(InFamily(rs + [r], r.family.s))
  }

  predicate Acceptable(client: string, processId: nat, runId: string, rs: seq<Record>) {
    forall i :: 0 <= i < |rs| ==> Joins(client, processId, runId, rs[..i], rs[i])
  }

  // ----- Counting one value --------------------------------------------------------------------

  lemma PickedAppend(rs: seq<Record>, r: Record, pick: Record -> seq<string>)
    ensures Picked(rs + [r], pick) == Picked(rs, pick) + pick(r)
  {
    assert (rs + [r])[..|rs|] == rs;
  }

  lemma DistinctAppend(s: seq<string>, k: string)
    ensures Distinct(s + [k]) == Distinct(s) + {k}
  {
  }

  lemma {:induction false} DistinctGrows(s: seq<string>, more: seq<string>)
    ensures Distinct(s) <= Distinct(s + more) && |Distinct(s)| <= |Distinct(s + more)|
  {
    var extra := Distinct(s + more) - Distinct(s);
    assert Distinct(s + more) == Distinct(s) + extra;
  }

  lemma TallyOne(s: seq<string>, k: string, maximum: nat)
    requires |Distinct(s)| <= maximum
    ensures Increment(Tallied(s), k, maximum).Success? <==> |Distinct(s + [k])| <= maximum
    ensures Increment(Tallied(s), k, maximum).Success? ==> Increment(Tallied(s), k, maximum).value == Tallied(s + [k])
  {
    DistinctAppend(s, k);
    assert Tallied(s).Keys == Distinct(s) && |Tallied(s)| == |Tallied(s).Keys|;
    assert multiset(s + [k]) == multiset(s) + multiset{k};
    if k in s {
      assert Distinct(s + [k]) == Distinct(s);
    } else {
      assert |Distinct(s + [k])| == |Distinct(s)| + 1;
    }
  }

  lemma {:induction false} TallyAll(s: seq<string>, keys: seq<string>, maximum: nat)
    requires |Distinct(s)| <= maximum
    ensures IncrementAll(Tallied(s), keys, maximum).Success? <==>
      (forall i :: 0 <= i < |keys| ==> keys[i] != "") && |Distinct(s + keys)| <= maximum
    ensures IncrementAll(Tallied(s), keys, maximum).Success? ==>
      IncrementAll(Tallied(s), keys, maximum).value == Tallied(s + keys)
  {
    hide Tallied, Increment, Distinct;
    if |keys| == 0 {
      assert s + keys == s;
    } else {
      var front, k := keys[..|keys| - 1], keys[|keys| - 1];
      assert keys == front + [k] && s + keys == s + front + [k];
      TallyAll(s, front, maximum);
      DistinctGrows(s + front, [k]);
      if |Distinct(s + front)| <= maximum {
        TallyOne(s + front, k, maximum);
      }
    }
  }

  lemma TallyOptional(s: seq<string>, v: Json, maximum: nat)
    requires |Distinct(s)| <= maximum && OptionalText(v).Success?
    ensures IncrementOptional(Tallied(s), OptionalText(v).value, maximum).Success?
      <==> |Distinct(s + TextOf(v))| <= maximum
    ensures IncrementOptional(Tallied(s), OptionalText(v).value, maximum).Success? ==>
      IncrementOptional(Tallied(s), OptionalText(v).value, maximum).value == Tallied(s + TextOf(v))
  {
    hide Tallied, Increment, Distinct;
    if v.Text? {
      TallyOne(s, v.s, maximum);
    } else {
      assert s + [] == s;
    }
  }

  lemma NameOne(s: seq<string>, v: Json)
    requires |Distinct(s)| <= MAX_NAMES
    ensures AddName(Distinct(s), v).Success? <==> OptionalText(v).Success? && |Distinct(s + TextOf(v))| <= MAX_NAMES
    ensures AddName(Distinct(s), v).Success? ==> AddName(Distinct(s), v).value == Distinct(s + TextOf(v))
  {
    if v.Text? {
      DistinctAppend(s, v.s);
    } else {
      assert s + [] == s;
    }
  }

  // ----- Counting one record in its opcode -------------------------------------------------------

  lemma NoEntry()
    ensures EntryOf([]) == NO_OPCODE && EntryFits([])
  {
    assert Tallied([]) == map[] && Distinct([]) == {};
  }

  lemma EntryAppend(os: seq<Record>, r: Record)
    ensures
      EntryOf(os + [r])
      == Opcode(|os| + 1, Distinct(Picked(os, OpcodeNameOf) + OpcodeNameOf(r)),
                Tallied(Picked(os, DirectionOf) + DirectionOf(r)), Tallied(Picked(os, EventOf) + EventOf(r)),
                Tallied(Picked(os, OutcomeOf) + OutcomeOf(r)), Tallied(Picked(os, KeyNamesOf) + KeyNamesOf(r)))
    ensures EntryFits(os + [r]) <==>
      && |Distinct(Picked(os, OpcodeNameOf) + OpcodeNameOf(r))| <= MAX_NAMES
      && |Distinct(Picked(os, DirectionOf) + DirectionOf(r))| <= MAX_DIRECTIONS
      && |Distinct(Picked(os, EventOf) + EventOf(r))| <= MAX_EVENTS
      && |Distinct(Picked(os, OutcomeOf) + OutcomeOf(r))| <= MAX_OUTCOMES
      && |Distinct(Picked(os, KeyNamesOf) + KeyNamesOf(r))| <= MAX_KEYS
  {
    hide Tallied, Distinct, Picked;
    PickedAppend(os, r, OpcodeNameOf);
    PickedAppend(os, r, DirectionOf);
    PickedAppend(os, r, EventOf);
    PickedAppend(os, r, OutcomeOf);
    PickedAppend(os, r, KeyNamesOf);
  }

  /** The parts of a record that an opcode entry counts. */
  predicate Countable(r: Record) {
    && r.body.Some? && r.keys.Some? && r.event.Text? && OptionalText(r.body.value.outcome).Success?
    && forall i :: 0 <= i < |r.keys.value.names| ==> r.keys.value.names[i] != ""
  }

  lemma EntryStep(opcodes: map<OpcodeKey, Opcode>, key: OpcodeKey, os: seq<Record>, r: Record)
    requires Countable(r) && EntryFits(os) && (if key in opcodes then opcodes[key] == EntryOf(os) else os == [])
    ensures
      var next := AdvanceOpcode(opcodes, key, r.body.value, r.event.s, OptionalText(r.body.value.outcome).value,
        r.keys.value.names);
      && (next.Success? <==>
            && (key in opcodes || |opcodes| < MAX_OPCODES)
            && OptionalText(r.body.value.opcodeName).Success? && OptionalText(r.body.value.direction).Success?
            && EntryFits(os + [r]))
      && (next.Success? ==> next.value == opcodes[key := EntryOf(os + [r])])
  {
    hide Tallied, Distinct, Picked, Increment, IncrementAll, IncrementOptional, AddName;
    NoEntry();
    EntryAppend(os, r);
    var body := r.body.value;
    NameOne(Picked(os, OpcodeNameOf), body.opcodeName);
    if OptionalText(body.direction).Success? {
      TallyOptional(Picked(os, DirectionOf), body.direction, MAX_DIRECTIONS);
    }
    TallyOne(Picked(os, EventOf), r.event.s, MAX_EVENTS);
    TallyOptional(Picked(os, OutcomeOf), body.outcome, MAX_OUTCOMES);
    TallyAll(Picked(os, KeyNamesOf), r.keys.value.names, MAX_KEYS);
  }

  // ----- Counting one record in its family -----------------------------------------------------------

  lemma {:induction false} KeysHaveRecords(fs: seq<Record>, key: OpcodeKey)
    ensures key in OpcodeKeys(fs) <==> WithOpcode(fs, key) != []
  {
    if |fs| > 0 {
      KeysHaveRecords(fs[..|fs| - 1], key);
    }
  }

  lemma OpcodesAppend(fs: seq<Record>, r: Record)
    ensures OpcodeKeys(fs + [r]) == OpcodeKeys(fs) + (if OpcodeKeyOf(r).Some? then {OpcodeKeyOf(r).value} else {})
    ensures forall key: OpcodeKey ::
      WithOpcode(fs + [r], key) == if OpcodeKeyOf(r) == Some(key) then WithOpcode(fs, key) + [r]
        else WithOpcode(fs, key)
  {
    assert (fs + [r])[..|fs|] == fs;
  }

  predicate OpcodesFit(fs: seq<Record>) {
    |OpcodeKeys(fs)| <= MAX_OPCODES && forall key :: key in OpcodeKeys(fs) ==> EntryFits(WithOpcode(fs, key))
  }

  lemma OpcodeStep(fs: seq<Record>, r: Record)
    requires Countable(r) && OpcodesFit(fs)
    ensures
      var next := CountOpcode(OpcodesOf(fs), r.body.value, r.keys.value, r.event.s,
        OptionalText(r.body.value.outcome).value);
      && (next.Success? <==>
            && OpcodeFits(r)
            && (OpcodeKeyOf(r).Some? ==>
                  OptionalText(r.body.value.opcodeName).Success? && OptionalText(r.body.value.direction).Success?)
            && OpcodesFit(fs + [r]))
      && (next.Success? ==> next.value == OpcodesOf(fs + [r]))
  {
    hide OpcodeOf, OpcodeKeyOf, OpcodeFits, AdvanceOpcode, OptionalText, OpcodesFit, OpcodesOf;
    OpcodeExactly(r);
    if OpcodeKeyOf(r).Some? {
      SomeOpcodeStep(fs, r, OpcodeKeyOf(r).value);
    } else {
      NoOpcodeStep(fs, r);
    }
  }

  lemma NoOpcodeStep(fs: seq<Record>, r: Record)
    requires OpcodeKeyOf(r).None?
    ensures OpcodesFit(fs + [r]) <==> OpcodesFit(fs)
    ensures OpcodesOf(fs + [r]) == OpcodesOf(fs)
  {
    hide EntryFits, EntryOf, WithOpcode, OpcodeKeys, OpcodeKeyOf;
    OpcodesAppend(fs, r);
    assert OpcodeKeys(fs + [r]) == OpcodeKeys(fs);
    assert OpcodesOf(fs).Keys == OpcodesOf(fs + [r]).Keys;
  }

  lemma SomeOpcodeStep(fs: seq<Record>, r: Record, key: OpcodeKey)
    requires Countable(r) && OpcodesFit(fs) && OpcodeKeyOf(r) == Some(key)
    ensures
      var next := AdvanceOpcode(
        OpcodesOf(fs), key, r.body.value, r.event.s, OptionalText(r.body.value.outcome).value, r.keys.value.names);
      && (next.Success? <==>
            && OptionalText(r.body.value.opcodeName).Success? && OptionalText(r.body.value.direction).Success?
            && OpcodesFit(fs + [r]))
      && (next.Success? ==> next.value == OpcodesOf(fs + [r]))
  {
    hide AdvanceOpcode, EntryFits, EntryOf, WithOpcode, OpcodeKeys, OpcodeKeyOf;
    OpcodesAppend(fs, r);
    assert OpcodesOf(fs).Keys == OpcodeKeys(fs) && |OpcodesOf(fs)| == |OpcodesOf(fs).Keys|;
    KeysHaveRecords(fs, key);
    NoEntry();
    EntryStep(OpcodesOf(fs), key, WithOpcode(fs, key), r);
    KeyBound(OpcodeKeys(fs), key);
    var next := OpcodesOf(fs)[key := EntryOf(WithOpcode(fs, key) + [r])];
    assert next.Keys == OpcodesOf(fs + [r]).Keys;
    assert forall k :: k in next ==> next[k] == OpcodesOf(fs + [r])[k];
  }

  lemma KeyBound<K>(keys: set<K>, key: K)
    ensures |keys + {key}| == |keys| + (if key in keys then 0 else 1)
  {
    if key in keys {
      assert keys + {key} == keys;
    }
  }

  lemma ValuesAppend(fs: seq<Record>, r: Record)
    ensures Picked(fs + [r], EventOf) == Picked(fs, EventOf) + EventOf(r)
    ensures Picked(fs + [r], SeverityOf) == Picked(fs, SeverityOf) + SeverityOf(r)
    ensures Picked(fs + [r], OutcomeOf) == Picked(fs, OutcomeOf) + OutcomeOf(r)
    ensures Picked(fs + [r], KeyNamesOf) == Picked(fs, KeyNamesOf) + KeyNamesOf(r)
  {
    PickedAppend(fs, r, EventOf);
    PickedAppend(fs, r, SeverityOf);
    PickedAppend(fs, r, OutcomeOf);
    PickedAppend(fs, r, KeyNamesOf);
  }

  /** A family's counters take a record exactly when its values fit. */
  lemma CountStep(fs: seq<Record>, r: Record, stream: Span)
    requires r.body.Some? && r.keys.Some? && r.event.Text? && r.severity.Text? && FamilyFits(fs)
    ensures
      var next := CountRecord(FamilyOf(fs).(stream := stream), r.event.s, r.severity.s, r.body.value, r.keys.value);
      && (next.Success? <==>
            && (forall i :: 0 <= i < |r.keys.value.names| ==> r.keys.value.names[i] != "")
            && OptionalText(r.body.value.outcome).Success?
            && OpcodeFits(r)
            && (OpcodeKeyOf(r).Some? ==>
                  OptionalText(r.body.value.opcodeName).Success? && OptionalText(r.body.value.direction).Success?)
            && FamilyFits(fs + [r]))
      && (next.Success? ==> next.value == FamilyOf(fs + [r]).(stream := stream))
  {
    hide Tallied, Distinct, Picked, Increment, IncrementAll, IncrementOptional, CountOpcode, OpcodesOf, OpcodeOf;
    hide OptionalText;
    hide EntryFits, WithOpcode, OpcodeKeys, OpcodeKeyOf;
    ValuesAppend(fs, r);
    TallyAll(Picked(fs, KeyNamesOf), r.keys.value.names, MAX_KEYS);
    TallyOne(Picked(fs, EventOf), r.event.s, MAX_EVENTS);
    TallyOne(Picked(fs, SeverityOf), r.severity.s, MAX_OUTCOMES);
    if OptionalText(r.body.value.outcome).Success? {
      TallyOptional(Picked(fs, OutcomeOf), r.body.value.outcome, MAX_OUTCOMES);
      if Countable(r) {
        OpcodeStep(fs, r);
      }
    }
  }

  // ----- Counting one record in the index -------------------------------------------------------------

  lemma StreamStep(fs: seq<Record>, r: Record)
    requires Positive(r.streamSeq).Success?
    ensures AdvanceSequence(StreamOf(fs), Whole(r.streamSeq)).Success? <==> NextAfter(StreamOf(fs), Whole(r.streamSeq))
    ensures AdvanceSequence(StreamOf(fs), Whole(r.streamSeq)).Success? ==>
      AdvanceSequence(StreamOf(fs), Whole(r.streamSeq)).value == StreamOf(fs + [r])
  {
  }

  lemma ProcessStep(rs: seq<Record>, r: Record)
    requires Positive(r.seqNo).Success?
    ensures AdvanceSequence(ProcessOf(rs), Whole(r.seqNo)).Success? <==> NextAfter(ProcessOf(rs), Whole(r.seqNo))
    ensures AdvanceSequence(ProcessOf(rs), Whole(r.seqNo)).Success? ==>
      AdvanceSequence(ProcessOf(rs), Whole(r.seqNo)).value == ProcessOf(rs + [r])
  {
  }

  lemma SegmentStep(rs: seq<Record>, r: Record)
    requires NonNegative(r.segmentId).Success?
    ensures AdvanceSegment(SegmentsOf(rs), Whole(r.segmentId)).Success?
      <==> SameOrNext(SegmentsOf(rs), Whole(r.segmentId))
    ensures AdvanceSegment(SegmentsOf(rs), Whole(r.segmentId)).Success? ==>
      AdvanceSegment(SegmentsOf(rs), Whole(r.segmentId)).value == SegmentsOf(rs + [r])
  {
  }

  lemma FamilyAppend(rs: seq<Record>, r: Record, name: string)
    ensures InFamily(rs + [r], name) == if r.family == Text(name) then InFamily(rs, name) + [r] else InFamily(rs, name)
    ensures r.family.Text? ==> Names(rs + [r]) == Names(rs) + {r.family.s}
  {
    assert (rs + [r])[..|rs|] == rs;
  }

  lemma {:induction false} NamesHaveRecords(rs: seq<Record>, name: string)
    ensures name in Names(rs) <==> InFamily(rs, name) != []
  {
    if |rs| > 0 {
      NamesHaveRecords(rs[..|rs| - 1], name);
    }
  }

  lemma NoFamilyOf()
    ensures FamilyOf([]) == NO_FAMILY && FamilyFits([])
  {
    assert Tallied([]) == map[] && Distinct([]) == {} && OpcodesOf([]) == map[];
  }

  ghost predicate Bounded(rs: seq<Record>) {
    |Names(rs)| <= MAX_FAMILIES && forall name :: FamilyFits(InFamily(rs, name))
  }

  /** The family a record enters, with its stream moved on. */
  lemma EnterFamily(rs: seq<Record>, r: Record, name: string)
    requires Bounded(rs) && r.family == Text(name) && Positive(r.streamSeq).Success?
    ensures
      var f := AdvanceFamily(FamiliesOf(rs), name, Whole(r.streamSeq));
      && (f.Success? <==>
            |Names(rs + [r])| <= MAX_FAMILIES && NextAfter(StreamOf(InFamily(rs, name)), Whole(r.streamSeq)))
      && (f.Success? ==>
            f.value == FamilyOf(InFamily(rs, name)).(stream := StreamOf(InFamily(rs, name) + [r])))
  {
    hide InFamily, Names, OpcodesOf, Tallied, Picked, FamilyFits, StreamOf, AdvanceSequence;
    assert FamiliesOf(rs).Keys == Names(rs) && |FamiliesOf(rs)| == |FamiliesOf(rs).Keys|;
    FamilyAppend(rs, r, name);
    NamesHaveRecords(rs, name);
    KeyBound(Names(rs), name);
    NoFamilyOf();
    StreamStep(InFamily(rs, name), r);
  }

  lemma FamiliesNext(rs: seq<Record>, r: Record, name: string, f: Family)
    requires r.family == Text(name) && f == FamilyOf(InFamily(rs, name) + [r])
    ensures FamiliesOf(rs)[name := f] == FamiliesOf(rs + [r])
  {
    hide InFamily, Names, FamilyOf;
    FamilyAppend(rs, r, name);
    var next := FamiliesOf(rs)[name := f];
    assert next.Keys == FamiliesOf(rs + [r]).Keys;
    forall other | other in next
      ensures next[other] == FamiliesOf(rs + [r])[other]
    {
      FamilyAppend(rs, r, other);
    }
  }

  /** The record is counted exactly when it joins the ones before it, and then the
      index is that of all of them. */
  lemma RecordStep(client: string, processId: nat, runId: string, rs: seq<Record>, r: Record)
    requires Bounded(rs)
    ensures AdvanceRecord(IndexOf(client, processId, runId, rs), r).Success? <==> Joins(client, processId, runId, rs, r)
    ensures Joins(client, processId, runId, rs, r) ==>
      AdvanceRecord(IndexOf(client, processId, runId, rs), r).value == IndexOf(client, processId, runId, rs + [r])
  {
    hide AdvanceFamily, CountRecord, FamilyOf, FamiliesOf, AdvanceSequence, AdvanceSegment, ProcessOf, SegmentsOf;
    hide StreamOf;
    hide InFamily, Names, FamilyFits, OpcodeKeyOf, OpcodeOf, OptionalText, NextAfter, SameOrNext;
    hide FieldsOk, OfRun, SameRun, OpcodeFits;
    FieldsExactly(r);
    OfRunExactly(r, client, processId, runId);
    if Positive(r.seqNo).Success? {
      ProcessStep(rs, r);
    }
    if NonNegative(r.segmentId).Success? {
      SegmentStep(rs, r);
    }
    if NonEmpty(r.family).Success? && Positive(r.streamSeq).Success? {
      var name := r.family.s;
      var fs := InFamily(rs, name);
      FamilyAppend(rs, r, name);
      EnterFamily(rs, r, name);
      if NonEmpty(r.event).Success? && NonEmpty(r.severity).Success? && r.body.Some? && r.keys.Some? {
        CountStep(fs, r, StreamOf(fs + [r]));
        StreamKept(fs + [r]);
        FamiliesNext(rs, r, name, FamilyOf(fs + [r]));
      }
    }
  }

  lemma StreamKept(fs: seq<Record>)
    ensures FamilyOf(fs).(stream := StreamOf(fs)) == FamilyOf(fs)
  {
  }

  lemma BoundedNext(client: string, processId: nat, runId: string, rs: seq<Record>, r: Record)
    requires Bounded(rs) && Joins(client, processId, runId, rs, r)
    ensures Bounded(rs + [r])
  {
    hide FamilyFits, InFamily, Names;
    forall name
      ensures FamilyFits(InFamily(rs + [r], name))
    {
      FamilyAppend(rs, r, name);
    }
  }

  lemma AcceptableAppend(client: string, processId: nat, runId: string, rs: seq<Record>, r: Record)
    ensures Acceptable(client, processId, runId, rs + [r]) <==>
      Acceptable(client, processId, runId, rs) && Joins(client, processId, runId, rs, r)
  {
    hide Joins;
    var all := rs + [r];
    assert all[|rs|] == r && all[..|rs|] == rs;
    assert forall i :: 0 <= i < |rs| ==> all[i] == rs[i] && all[..i] == rs[..i];
  }

  /** Indexing records succeeds if and only if they are acceptable, and the index is
      then the one computed from them: every span and every counter of it. */
  lemma {:induction false} IndexIsHistory(client: string, processId: nat, runId: string, rs: seq<Record>)
    ensures AdvanceRecords(NewIndex(client, processId, runId), rs).Success?
      <==> Acceptable(client, processId, runId, rs)
    ensures Acceptable(client, processId, runId, rs) ==>
      && AdvanceRecords(NewIndex(client, processId, runId), rs) == Success(IndexOf(client, processId, runId, rs))
      && Bounded(rs)
  {
    hide AdvanceRecord, Joins, IndexOf, Bounded;
    if |rs| == 0 {
      EmptyIndex(client, processId, runId);
      assert rs == [];
    } else {
      var front, r := rs[..|rs| - 1], rs[|rs| - 1];
      assert rs == front + [r];
      IndexIsHistory(client, processId, runId, front);
      AcceptableAppend(client, processId, runId, front, r);
      if Acceptable(client, processId, runId, front) {
        RecordStep(client, processId, runId, front, r);
        if Joins(client, processId, runId, front, r) {
          BoundedNext(client, processId, runId, front, r);
        }
      }
    }
  }

  lemma EmptyIndex(client: string, processId: nat, runId: string)
    ensures NewIndex(client, processId, runId) == IndexOf(client, processId, runId, []) && Bounded([])
    ensures Acceptable(client, processId, runId, [])
  {
    NoFamilyOf();
    assert FamiliesOf([]) == map[];
  }
}
