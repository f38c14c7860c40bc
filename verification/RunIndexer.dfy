/** The index as it is built: fields and counters updated record by record. */
module RunIndexer {
  import opened Wrappers
  import opened JsonFields
  import opened RunIndex

  lemma {:induction false} KeysFailEarly(m: Counter, keys: seq<string>, i: nat, maximum: nat)
    requires i <= |keys| && IncrementAll(m, keys[..i], maximum).Failure?
    ensures IncrementAll(m, keys, maximum).Failure?
  {
    if i < |keys| {
      assert keys[..|keys| - 1][..i] == keys[..i];
      KeysFailEarly(m, keys[..|keys| - 1], i, maximum);
    } else {
      assert keys[..i] == keys;
    }
  }

  /** One presence counter per key name, in order. */
  method CountKeyNames(m: Counter, keys: seq<string>, maximum: nat) returns (ok: bool, counted: Counter)
    ensures ok == IncrementAll(m, keys, maximum).Success?
    ensures ok ==> counted == IncrementAll(m, keys, maximum).value
  {
    ok, counted := true, m;
    for i := 0 to |keys|
      invariant IncrementAll(m, keys[..i], maximum) == Success(counted)
    {
      assert keys[..i + 1][..i] == keys[..i];
      if keys[i] == "" || (keys[i] !in counted && |counted| >= maximum) {
        KeysFailEarly(m, keys, i + 1, maximum);
        return false, counted;
      }
      counted := counted[keys[i] := (if keys[i] in counted then counted[keys[i]] else 0) + 1];
    }
    assert keys[..|keys|] == keys;
  }

  class Indexer {
    var client: string
    var processId: nat
    var runId: string
    var records: nat
    var process: Span
    var segments: Span
    var families: map<string, Family>

    function Value(): Index
      reads this
    {
      Index(client, processId, runId, records, process, segments, families)
    }

    /** A working copy of an index. */
    constructor (x: Index)
      ensures Value() == x
    {
      client, processId, runId := x.client, x.processId, x.runId;
      records, process, segments, families := x.records, x.process, x.segments, x.families;
    }

    /** Checks and counts one record. After an integrity error the copy is discarded. */
    method AdvanceOne(r: Record) returns (ok: bool)
      modifies this
      ensures ok == AdvanceRecord(old(Value()), r).Success?
      ensures ok ==> Value() == AdvanceRecord(old(Value()), r).value
    {
      hide IncrementAll, CountOpcode;
      if !r.current || !SameRun(r, client, processId, runId) {
        return false;
      }
      var segment, seqNo, streamSeq := NonNegative(r.segmentId), Positive(r.seqNo), Positive(r.streamSeq);
      var name, event, severity := NonEmpty(r.family), NonEmpty(r.event), NonEmpty(r.severity);
      if segment.Failure? || seqNo.Failure? || streamSeq.Failure? || name.Failure? || event.Failure?
        || severity.Failure?
         || r.body.None? || r.keys.None? {
        return false;
      }
      ok := AdvanceSpans(seqNo.value, segment.value);
      if !ok {
        return;
      }
      var entry := AdvanceFamily(families, name.value, streamSeq.value);
      if entry.Failure? {
        return false;
      }
      var f: Family;
      ok, f := CountFamily(entry.value, event.value, severity.value, r.body.value, r.keys.value);
      if ok {
        families := families[name.value := f];
        records := records + 1;
      }
    }

    /** Moves the process sequence and the segment range on by one record. */
    method AdvanceSpans(seqNo: nat, segment: nat) returns (ok: bool)
      requires seqNo > 0
      modifies this`process, this`segments
      ensures ok == (AdvanceSequence(old(process), seqNo).Success? && AdvanceSegment(old(segments), segment).Success?)
      ensures ok ==> process == AdvanceSequence(old(process), seqNo).value
      ensures ok ==> segments == AdvanceSegment(old(segments), segment).value
    {
      if process.last.None? {
        process := process.(first := Some(seqNo), omitted := Some(seqNo - 1));
      } else if seqNo != process.last.value + 1 {
        return false;
      }
      process := process.(last := Some(seqNo));
      if segments.last.None? {
        segments := segments.(first := Some(segment), omitted := Some(segment));
      } else if segment < segments.last.value || segment > segments.last.value + 1 {
        return false;
      }
      segments := segments.(last := Some(segment));
      ok := true;
    }

    static method CountFamily(f: Family, event: string, severity: string, body: Body, keys: Keys)
      returns (ok: bool, counted: Family)
      ensures ok == CountRecord(f, event, severity, body, keys).Success?
      ensures ok ==> counted == CountRecord(f, event, severity, body, keys).value
    {
      hide IncrementAll, CountOpcode;
      counted := f.(records := f.records + 1);
      var presence: Counter;
      ok, presence := CountKeyNames(f.keyPresence, keys.names, MAX_KEYS);
      if !ok {
        return;
      }
      counted := counted.(keyPresence := presence);
      var events, severities := Increment(f.events, event, MAX_EVENTS), Increment(f.severities, severity, MAX_OUTCOMES);
      var outcome := OptionalText(body.outcome);
      if events.Failure? || severities.Failure? || outcome.Failure? {
        return false, counted;
      }
      counted := counted.(events := events.value, severities := severities.value);
      var outcomes := IncrementOptional(f.outcomes, outcome.value, MAX_OUTCOMES);
      if outcomes.Failure? {
        return false, counted;
      }
      counted := counted.(outcomes := outcomes.value);
      var opcodes := CountOpcode(f.opcodes, body, keys, event, outcome.value);
      if opcodes.Failure? {
        return false, counted;
      }
      counted := counted.(opcodes := opcodes.value);
    }

    /** Counts the records of one segment in order, stopping at the first error. */
    method AdvanceAll(rs: seq<Record>) returns (ok: bool)
      modifies this
      ensures ok == AdvanceRecords(old(Value()), rs).Success?
      ensures ok ==> Value() == AdvanceRecords(old(Value()), rs).value
    {
      hide AdvanceRecord;
      ok := true;
      for i := 0 to |rs|
        invariant AdvanceRecords(old(Value()), rs[..i]) == Success(Value())
      {
        ghost var before := Value();
        assert rs[..i + 1][..i] == rs[..i];
        assert rs[..i + 1] + rs[i + 1..] == rs;
        ok := AdvanceOne(rs[i]);
        if !ok {
          AdvanceInParts(old(Value()), rs[..i + 1], rs[i + 1..]);
          return;
        }
      }
      ok := true;
      assert rs[..|rs|] == rs;
    }
  }
}
