/** The query and method of each schedule slot. */
module ObserverSchedule {
  import opened Wrappers
  import opened Division
  import opened ObserverSummary

  const BOTH: seq<Parity> := [Server, Kad]

  function Unmet(g: Gate): seq<Parity> {
    (if g.successful.server < g.targets.server then [Server] else [])
    + (if g.successful.kad < g.targets.kad then [Kad] else [])
  }

  /** The methods the schedule rotates through under a given gate. */
  function Rotation(g: Gate): (ms: seq<Parity>)
    ensures 0 < |ms| <= 2
    ensures |ms| == 2 ==> ms == BOTH
  {
    if g.status == Pending && Unmet(g) != [] then Unmet(g) else BOTH
  }

  function TermIndex(slot: nat, methods: nat, terms: nat): (i: nat)
    requires slot > 0 && methods > 0 && terms > 0
    ensures i < terms
  {
    ((slot - 1) / methods) % terms
  }

  function ScheduledAction(terms: seq<string>, slot: nat, g: Gate): Result<(string, Parity)> {
    if slot == 0 then Failure("schedule slot must be positive")
    else if terms == [] then Failure("schedule must contain terms")
    else
      var ms := Rotation(g);
      Success((terms[TermIndex(slot, |ms|, |terms|)], ms[(slot - 1) % |ms|]))
  }

  /** While the gate is pending the scheduled method still misses its target. */
  lemma PendingGateSchedulesUnmet(terms: seq<string>, slot: nat, g: Gate)
    requires slot > 0 && terms != [] && ValidGate(g) && g.status == Pending
    ensures
      var m := ScheduledAction(terms, slot, g).value.1;
      g.successful.Get(m) < g.targets.Get(m)
  {
    var ms := Rotation(g);
    assert ms == Unmet(g);
    assert ms[(slot - 1) % |ms|] in Unmet(g);
  }

  // ----- Coverage ------------------------------------------------------------

  /** A slot offset is determined, within one period, by its term and method positions. */
  lemma OffsetCoordinates(k: nat, n: nat, o: nat)
    requires k > 0 && n > 0
    ensures k * n > 0
    ensures o % (k * n) == k * ((o / k) % n) + o % k
  {
    assert k * n > 0 by { MulMonotone(k, 1, n); }
    var i, r, q := (o / k) % n, o % k, (o / k) / n;
    assert o / k == n * q + i;
    assert o == k * (o / k) + r;
    calc {
      o;
      k * (n * q + i) + r;
      { assert k * (n * q + i) == k * (n * q) + k * i; assert k * (n * q) == (k * n) * q; }
      (k * n) * q + (k * i + r);
    }
    assert k * i + r < k * n by { MulMonotone(k, i + 1, n); assert k * (i + 1) == k * i + k; }
    assert 0 <= k * i + r by { MulMonotone(k, 0, i); }
    DivModUnique(k * n, q, k * i + r);
  }

  /** The slot of the window `[start, start + p)` whose offset has residue `r`. */
  function SlotWith(start: nat, p: nat, r: nat): (slot: nat)
    requires start > 0 && p > 0 && r < p
    ensures start <= slot < start + p
    ensures (slot - 1) % p == r
  {
    var first := (start - 1) % p;
    var base := start - 1 - first;
    assert base == p * ((start - 1) / p);
    DivModUnique(p, (start - 1) / p, r);
    DivModUnique(p, (start - 1) / p + 1, r);
    assert p * ((start - 1) / p + 1) == base + p;
    if r >= first then 1 + base + r else 1 + base + p + r
  }

  lemma SameResidueSameSlot(start: nat, p: nat, a: nat, b: nat)
    requires start > 0 && p > 0 && start <= a < start + p && start <= b < start + p
    requires (a - 1) % p == (b - 1) % p
    ensures a == b
  {
    var qa, qb := (a - 1) / p, (b - 1) / p;
    assert a - 1 == p * qa + (a - 1) % p && b - 1 == p * qb + (b - 1) % p;
    if qa < qb {
      MulMonotone(p, qa + 1, qb);
    } else if qb < qa {
      MulMonotone(p, qb + 1, qa);
    }
  }

  /** Over any window of as many slots as there are pairs, the rotation `ms` visits
      every pair of a term position and a method position exactly once. */
  lemma PeriodOfRotation(terms: seq<string>, ms: seq<Parity>, start: nat, i: nat, m: nat) returns (slot: nat)
    requires start > 0 && i < |terms| && m < |ms|
    ensures start <= slot < start + |ms| * |terms|
    ensures TermIndex(slot, |ms|, |terms|) == i && (slot - 1) % |ms| == m
    ensures forall other: nat ::
      start <= other < start + |ms| * |terms| && TermIndex(other, |ms|, |terms|) == i && (other - 1) % |ms| == m ==>
        other == slot
  {
    var k, n := |ms|, |terms|;
    var r := k * i + m;
    assert r < k * n by { MulMonotone(k, i + 1, n); assert k * (i + 1) == k * i + k; }
    slot := SlotWith(start, k * n, r);
    OffsetCoordinates(k, n, slot - 1);
    Coordinates(k, TermIndex(slot, k, n), (slot - 1) % k, i, m);
    forall other: nat | start <= other < start + k * n && TermIndex(other, k, n) == i && (other - 1) % k == m
      ensures other == slot
    {
      OffsetCoordinates(k, n, other - 1);
      SameResidueSameSlot(start, k * n, other, slot);
    }
  }

  /** Whether the slot asks for this term position and method. */
  predicate Asks(terms: seq<string>, slot: nat, g: Gate, i: nat, m: Parity): (asks: bool)
    requires slot > 0 && i < |terms|
    ensures asks ==> ScheduledAction(terms, slot, g) == Success((terms[i], m))
  {
    var ms := Rotation(g);
    TermIndex(slot, |ms|, |terms|) == i && ms[(slot - 1) % |ms|] == m
  }

  /** However the gate changes from slot to slot, as long as it is not pending at
      any of them, a window of twice as many slots as terms asks for every term
      position with every method exactly once. */
  lemma PeriodCoversEveryPair(terms: seq<string>, gates: nat -> Gate, start: nat, i: nat, m: Parity) returns (slot: nat)
    requires start > 0 && i < |terms|
    requires forall other: nat :: start <= other < start + 2 * |terms| ==> gates(other).status != Pending
    ensures start <= slot < start + 2 * |terms|
    ensures forall other: nat :: start <= other < start + 2 * |terms| ==>
      (Asks(terms, other, gates(other), i, m) <==> other == slot)
  {
    slot := PeriodOfRotation(terms, BOTH, start, i, if m == Server then 0 else 1);
    forall other: nat | start <= other < start + 2 * |terms|
      ensures Asks(terms, other, gates(other), i, m) <==> other == slot
    {
      assert Rotation(gates(other)) == BOTH;
    }
  }

  lemma Coordinates(k: nat, i: int, m: int, j: int, l: int)
    requires 0 <= m < k && 0 <= l < k && k * i + m == k * j + l
    ensures i == j && m == l
  {
    DivModUnique(k, i, m);
    DivModUnique(k, j, l);
  }
}
