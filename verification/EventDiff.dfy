/**
 Two diffs of a trace against its oracle: greedy matching of comparable event
 identities, and an edit script over packet keys.
 */
module EventDiff {
  import opened Wrappers
  import opened Division

  // ----- Events: greedy matching is multiset arithmetic ------------------------------

  /** Oracle identities already matched. */
  ghost function Matched<T>(oracle: seq<T>, used: seq<bool>): multiset<T>
    requires |used| == |oracle|
  {
    if |oracle| == 0 then multiset{}
    else
      Matched(oracle[..|oracle| - 1], used[..|oracle| - 1])
      + (if used[|oracle| - 1] then multiset{oracle[|oracle| - 1]} else multiset{})
  }

  lemma {:induction false} MarkOne<T>(oracle: seq<T>, used: seq<bool>, i: nat)
    requires |used| == |oracle| && i < |oracle| && !used[i]
    ensures Matched(oracle, used[i := true]) == Matched(oracle, used) + multiset{oracle[i]}
  {
    var n := |oracle| - 1;
    if i < n {
      assert used[i := true][..n] == used[..n][i := true];
      MarkOne(oracle[..n], used[..n], i);
    } else {
      assert used[i := true][..n] == used[..n];
    }
  }

  /** An identity whose occurrences are all used has been matched as often as it occurs. */
  lemma {:induction false} AllUsed<T>(oracle: seq<T>, used: seq<bool>, x: T)
    requires |used| == |oracle|
    ensures Matched(oracle, used)[x] <= multiset(oracle)[x]
    ensures (forall i :: 0 <= i < |oracle| && oracle[i] == x ==> used[i]) <==>
            Matched(oracle, used)[x] == multiset(oracle)[x]
  {
    if |oracle| > 0 {
      var n := |oracle| - 1;
      AllUsed(oracle[..n], used[..n], x);
      assert oracle == oracle[..n] + [oracle[n]];
      assert forall i :: 0 <= i < n ==> oracle[..n][i] == oracle[i] && used[..n][i] == used[i];
    }
  }

  function CountUsed(used: seq<bool>): nat {
    if |used| == 0 then 0 else CountUsed(used[..|used| - 1]) + (if used[|used| - 1] then 1 else 0)
  }

  lemma {:induction false} NoneUsed<T>(oracle: seq<T>, used: seq<bool>)
    requires |used| == |oracle| && forall i :: 0 <= i < |used| ==> !used[i]
    ensures Matched(oracle, used) == multiset{}
  {
    if |oracle| > 0 {
      NoneUsed(oracle[..|oracle| - 1], used[..|oracle| - 1]);
    }
  }

  lemma {:induction false} UsedAreMatched<T>(oracle: seq<T>, used: seq<bool>)
    requires |used| == |oracle|
    ensures CountUsed(used) == |Matched(oracle, used)|
    ensures CountUsed(used) <= |used|
  {
    if |oracle| > 0 {
      UsedAreMatched(oracle[..|oracle| - 1], used[..|oracle| - 1]);
    }
  }

  /** Matching one more event keeps the matched identities the intersection. */
  lemma MatchStep<T>(produced: seq<T>, oracle: seq<T>, used: seq<bool>, i: nat, j: nat)
    requires |used| == |oracle| && i < |produced| && j <= |oracle|
    requires Matched(oracle, used) == multiset(produced[..i]) * multiset(oracle)
    requires j < |oracle| ==> oracle[j] == produced[i] && !used[j]
    requires j == |oracle| ==> forall k :: 0 <= k < |oracle| && oracle[k] == produced[i] ==> used[k]
    ensures
      var next := if j < |oracle| then used[j := true] else used;
      && Matched(oracle, next) == multiset(produced[..i + 1]) * multiset(oracle)
      && |Matched(oracle, next)| == |Matched(oracle, used)| + (if j < |oracle| then 1 else 0)
  {
    hide Matched;
    var x := produced[i];
    var before, m := multiset(produced[..i]), multiset(oracle);
    assert produced[..i + 1] == produced[..i] + [x];
    AllUsed(oracle, used, x);
    if j < |oracle| {
      MarkOne(oracle, used, j);
      assert before[x] < m[x];
      assert (before + multiset{x}) * m == before * m + multiset{x};
    } else {
      assert before[x] >= m[x];
      assert (before + multiset{x}) * m == before * m;
    }
  }

  /** Matched, left over on the produced side, left over on the oracle's: a function
      of the two multisets, whatever the order of the traces. */
  function EventTotals<T(==)>(produced: multiset<T>, oracle: multiset<T>): (nat, nat, nat) {
    var matched := |produced * oracle|;
    IntersectionFits(produced, oracle);
    (matched, |produced| - matched, |oracle| - matched)
  }

  lemma IntersectionFits<T>(a: multiset<T>, b: multiset<T>)
    ensures |a * b| <= |a| && |a * b| <= |b|
  {
    assert a == a * b + (a - b) && b == a * b + (b - a);
  }

  /** Greedy matching is multiset arithmetic, and the diff is clean exactly when every
      oracle event, as often as it occurs, was produced. */
  method DiffEvents<T(==)>(produced: seq<T>, oracle: seq<T>)
      returns (ok: bool, matched: nat, onlyRust: nat, onlyMfc: nat)
    ensures (matched, onlyRust, onlyMfc) == EventTotals(multiset(produced), multiset(oracle))
    ensures matched + onlyRust == |produced| && matched + onlyMfc == |oracle|
    ensures ok <==> multiset(oracle) <= multiset(produced)
  {
    var used := new bool[|oracle|](_ => false);
    matched, onlyRust := 0, 0;
    NoneUsed(oracle, used[..]);
    for i := 0 to |produced|
      invariant Matched(oracle, used[..]) == multiset(produced[..i]) * multiset(oracle)
      invariant matched == |Matched(oracle, used[..])| && matched + onlyRust == i
    {
      hide Matched, CountUsed;
      var x := produced[i];
      ghost var before := used[..];
      var j := FirstFree(oracle, used, x);
      MatchStep(produced, oracle, before, i, j);
      if j < |oracle| {
        used[j] := true;
        assert used[..] == before[j := true];
        matched := matched + 1;
      } else {
        onlyRust := onlyRust + 1;
      }
    }
    assert produced[..|produced|] == produced;
    onlyMfc := CountFree(used);
    UsedAreMatched(oracle, used[..]);
    ok := onlyMfc == 0;
    InclusionBySize(multiset(produced), multiset(oracle));
    assert |multiset(produced)| == |produced| && |multiset(oracle)| == |oracle|;
  }

  /** The first unused oracle event with this identity. */
  method FirstFree<T(==)>(oracle: seq<T>, used: array<bool>, x: T) returns (j: nat)
    requires used.Length == |oracle|
    ensures j <= |oracle|
    ensures j < |oracle| ==> oracle[j] == x && !used[j]
    ensures forall k :: 0 <= k < j ==> used[k] || oracle[k] != x
  {
    j := 0;
    while j < |oracle| && (used[j] || oracle[j] != x)
      invariant j <= |oracle|
      invariant forall k :: 0 <= k < j ==> used[k] || oracle[k] != x
    {
      j := j + 1;
    }
  }

  method CountFree(used: array<bool>) returns (n: nat)
    ensures n == used.Length - CountUsed(used[..])
  {
    n := 0;
    for i := 0 to used.Length
      invariant n == i - CountUsed(used[..i])
    {
      assert used[..i + 1][..i] == used[..i];
      if !used[i] {
        n := n + 1;
      }
    }
    assert used[..used.Length] == used[..];
  }

  lemma InclusionBySize<T>(produced: multiset<T>, oracle: multiset<T>)
    ensures |produced * oracle| == |oracle| <==> oracle <= produced
  {
    var extra := oracle - produced;
    assert oracle == produced * oracle + extra;
    if |extra| == 0 {
      assert forall x :: x in oracle ==> extra[x] == 0;
    } else {
      var x :| x in extra;
      assert oracle[x] > produced[x];
    }
  }

  // ----- Packets: an edit script over wire keys --------------------------------------

  /** A packet with its comparison keys; the payload is part of the wire key only. */
  datatype Packet<W, O> = Packet(wire: W, opcode: O)

  /** One block of an edit script. */
  datatype Block = Block(equal: bool, i1: nat, i2: nat, j1: nat, j2: nat)

  ghost predicate BlockFits<W, O>(b: Block, rust: seq<Packet<W, O>>, mfc: seq<Packet<W, O>>) {
    && b.i1 <= b.i2 <= |rust| && b.j1 <= b.j2 <= |mfc|
    && (b.equal ==>
          && b.i2 - b.i1 == b.j2 - b.j1
          && forall k, l :: b.i1 <= k < b.i2 && l == b.j1 + (k - b.i1) ==> rust[k].wire == mfc[l].wire)
  }

  /** The blocks follow each other from the start and cover both sequences up to
      the two given ends. */
  ghost predicate ValidScript<W, O>(
    script: seq<Block>, rust: seq<Packet<W, O>>, mfc: seq<Packet<W, O>>, i: nat, j: nat)
  {
    if |script| == 0 then i == 0 && j == 0
    else
      var b := script[|script| - 1];
      BlockFits(b, rust, mfc) && b.i2 == i && b.j2 == j && ValidScript(script[..|script| - 1], rust, mfc, b.i1, b.j1)
  }

  datatype DiffCounts = DiffCounts(matched: nat, payload: nat, onlyRust: nat, onlyMfc: nat)

  predicate Clean(t: DiffCounts) {
    t.payload == 0 && t.onlyRust == 0 && t.onlyMfc == 0
  }

  /** Positions among the first `n` at which the two blocks carry one opcode. */
  function SameOpcodes<W, O(==)>(rust: seq<Packet<W, O>>, mfc: seq<Packet<W, O>>, n: nat): nat
    requires n <= |rust| && n <= |mfc|
  {
    if n == 0 then 0 else SameOpcodes(rust, mfc, n - 1) + (if rust[n - 1].opcode == mfc[n - 1].opcode then 1 else 0)
  }

  lemma {:induction false} SameOpcodesFit<W, O>(rust: seq<Packet<W, O>>, mfc: seq<Packet<W, O>>, n: nat)
    requires n <= |rust| && n <= |mfc|
    ensures SameOpcodes(rust, mfc, n) <= n
  {
    if n > 0 {
      SameOpcodesFit(rust, mfc, n - 1);
    }
  }

  /** What one block adds: its length when equal, else a payload mismatch for each
      position with one opcode on both sides and a leftover for everything else. */
  function BlockCounts<W, O(==)>(equal: bool, rust: seq<Packet<W, O>>, mfc: seq<Packet<W, O>>): DiffCounts {
    if equal then DiffCounts(|rust|, 0, 0, 0)
    else
      var same := SameOpcodes(rust, mfc, Least(|rust|, |mfc|));
      SameOpcodesFit(rust, mfc, Least(|rust|, |mfc|));
      DiffCounts(0, same, |rust| - same, |mfc| - same)
  }

  function Added(t: DiffCounts, u: DiffCounts): DiffCounts {
    DiffCounts(t.matched + u.matched, t.payload + u.payload, t.onlyRust + u.onlyRust, t.onlyMfc + u.onlyMfc)
  }

  predicate InRange<W, O>(script: seq<Block>, rust: seq<Packet<W, O>>, mfc: seq<Packet<W, O>>) {
    forall n :: 0 <= n < |script| ==> script[n].i1 <= script[n].i2 <= |rust| && script[n].j1 <= script[n].j2 <= |mfc|
  }

  function ScriptCounts<W, O(==)>(script: seq<Block>, rust: seq<Packet<W, O>>, mfc: seq<Packet<W, O>>): DiffCounts
    requires InRange(script, rust, mfc)
  {
    if |script| == 0 then DiffCounts(0, 0, 0, 0)
    else
      var b := script[|script| - 1];
      Added(ScriptCounts(script[..|script| - 1], rust, mfc), BlockCounts(b.equal, rust[b.i1..b.i2], mfc[b.j1..b.j2]))
  }

  lemma {:induction false} ValidInRange<W,
      O>(script: seq<Block>, rust: seq<Packet<W, O>>, mfc: seq<Packet<W, O>>, i: nat, j: nat)
    requires ValidScript(script, rust, mfc, i, j)
    ensures InRange(script, rust, mfc)
  {
    if |script| > 0 {
      var front, b := script[..|script| - 1], script[|script| - 1];
      ValidInRange(front, rust, mfc, b.i1, b.j1);
      assert forall n :: 0 <= n < |front| ==> front[n] == script[n];
    }
  }

  /** Whatever valid edit script is used, every packet of each side is counted
      once, and a clean result means the two key sequences are equal. */
  lemma {:induction false} ScriptConserves<W, O>(
    script: seq<Block>, rust: seq<Packet<W, O>>, mfc: seq<Packet<W, O>>, i: nat, j: nat)
    requires ValidScript(script, rust, mfc, i, j) && InRange(script, rust, mfc) && i <= |rust| && j <= |mfc|
    ensures
      var t := ScriptCounts(script, rust, mfc);
      && t.matched + t.payload + t.onlyRust == i && t.matched + t.payload + t.onlyMfc == j
      && (Clean(t) ==> i == j && forall k :: 0 <= k < i ==> rust[k].wire == mfc[k].wire)
  {
    if |script| > 0 {
      var front, b := script[..|script| - 1], script[|script| - 1];
      ValidInRange(front, rust, mfc, b.i1, b.j1);
      ScriptConserves(front, rust, mfc, b.i1, b.j1);
    }
  }

  // ----- Which packets are counted as what ------------------------------------------

  /** Positions that two blocks share and at which both carry one opcode. */
  function SamePositions<W, O(==)>(rust: seq<Packet<W, O>>, mfc: seq<Packet<W, O>>): set<nat> {
    set k: nat | 0 <= k < |rust| && k < |mfc| && rust[k].opcode == mfc[k].opcode
  }

  lemma {:induction false} SameOpcodesAre<W, O>(rust: seq<Packet<W, O>>, mfc: seq<Packet<W, O>>, n: nat)
    requires n <= |rust| && n <= |mfc|
    ensures SameOpcodes(rust, mfc, n) == |set k: nat | 0 <= k < n && rust[k].opcode == mfc[k].opcode|
  {
    var all := set k: nat | 0 <= k < n && rust[k].opcode == mfc[k].opcode;
    if n == 0 {
      assert all == {};
    } else {
      var front := set k: nat | 0 <= k < n - 1 && rust[k].opcode == mfc[k].opcode;
      SameOpcodesAre(rust, mfc, n - 1);
      assert all == front + (if rust[n - 1].opcode == mfc[n - 1].opcode then {n - 1} else {});
    }
  }

  /** A block that is not equal pairs its packets off by position: pairs with one opcode
      are payload mismatches and everything else is left over. */
  lemma BlockExactly<W, O>(rust: seq<Packet<W, O>>, mfc: seq<Packet<W, O>>)
    ensures
      var same := |SamePositions(rust, mfc)|;
      same <= |rust| && same <= |mfc|
      && BlockCounts(false, rust, mfc) == DiffCounts(0, same, |rust| - same, |mfc| - same)
  {
    var n := Least(|rust|, |mfc|);
    SameOpcodesAre(rust, mfc, n);
    SameOpcodesFit(rust, mfc, n);
    assert SamePositions(rust, mfc) == set k: nat | 0 <= k < n && rust[k].opcode == mfc[k].opcode;
  }

  /** Blocks of the script, by number, and offsets in them that an equal block matches. */
  function MatchedAt(script: seq<Block>): set<(nat, nat)> {
    set n: nat, k: nat |
      0 <= n < |script| && script[n].equal && 0 <= k < script[n].i2 - script[n].i1 :: (n, k)
  }

  /** Offsets of blocks that are not equal at which both sides carry one opcode. */
  function MismatchedAt<W, O(==)>(
    script: seq<Block>, rust: seq<Packet<W, O>>, mfc: seq<Packet<W, O>>): set<(nat, nat)>
    requires InRange(script, rust, mfc)
  {
    set n: nat, k: nat |
      0 <= n < |script| && !script[n].equal && 0 <= k < script[n].i2 - script[n].i1
      && k < script[n].j2 - script[n].j1 && rust[script[n].i1 + k].opcode == mfc[script[n].j1 + k].opcode :: (n, k)
  }

  lemma {:induction false} Numbered(n: nat, ks: set<nat>)
    ensures |set k: nat | k in ks :: (n, k)| == |ks|
  {
    if ks == {} {
      assert (set k: nat | k in ks :: (n, k)) == {};
    } else {
      var x :| x in ks;
      Numbered(n, ks - {x});
      assert (set k: nat | k in ks :: (n, k)) == (set k: nat | k in ks - {x} :: (n, k)) + {(n, x)};
      assert (n, x) !in set k: nat | k in ks - {x} :: (n, k);
    }
  }

  function UpTo(n: nat): (ks: set<nat>)
    ensures |ks| == n && forall k: nat :: k in ks <==> k < n
  {
    if n == 0 then {} else UpTo(n - 1) + {n - 1}
  }

  lemma MatchedNext(script: seq<Block>)
    requires |script| > 0 && script[|script| - 1].i1 <= script[|script| - 1].i2
    ensures
      var b := script[|script| - 1];
      |MatchedAt(script)| == |MatchedAt(script[..|script| - 1])| + (if b.equal then b.i2 - b.i1 else 0)
  {
    var n := |script| - 1;
    var front, b := script[..n], script[n];
    var ks := if b.equal then UpTo(b.i2 - b.i1) else {};
    var last: set<(nat, nat)> := set k: nat | k in ks :: (n, k);
    assert MatchedAt(script) == MatchedAt(front) + last;
    assert MatchedAt(front) !! last;
    Numbered(n, ks);
  }

  /** Offset `k` of a block: both sides have a packet there, with one opcode. */
  predicate Mismatch<W, O(==)>(b: Block, rust: seq<Packet<W, O>>, mfc: seq<Packet<W, O>>, k: nat)
    requires b.i1 <= b.i2 <= |rust| && b.j1 <= b.j2 <= |mfc|
  {
    !b.equal && k < b.i2 - b.i1 && k < b.j2 - b.j1 && rust[b.i1 + k].opcode == mfc[b.j1 + k].opcode
  }

  lemma MismatchedIn<W, O>(script: seq<Block>, rust: seq<Packet<W, O>>, mfc: seq<Packet<W, O>>, n: nat, k: nat)
    requires InRange(script, rust, mfc)
    ensures (n, k) in MismatchedAt(script, rust, mfc) <==> n < |script| && Mismatch(script[n], rust, mfc, k)
  {
  }

  lemma SameIn<W, O>(b: Block, rust: seq<Packet<W, O>>, mfc: seq<Packet<W, O>>, k: nat)
    requires b.i1 <= b.i2 <= |rust| && b.j1 <= b.j2 <= |mfc|
    ensures !b.equal && k in SamePositions(rust[b.i1..b.i2], mfc[b.j1..b.j2]) <==> Mismatch(b, rust, mfc, k)
  {
  }

  lemma MismatchedNext<W, O>(script: seq<Block>, rust: seq<Packet<W, O>>, mfc: seq<Packet<W, O>>)
    requires InRange(script, rust, mfc) && |script| > 0
    ensures InRange(script[..|script| - 1], rust, mfc)
    ensures
      var b := script[|script| - 1];
      |MismatchedAt(script, rust, mfc)|
      == |MismatchedAt(script[..|script| - 1], rust, mfc)|
         + (if b.equal then 0 else |SamePositions(rust[b.i1..b.i2], mfc[b.j1..b.j2])|)
  {
    hide MismatchedAt, SamePositions, Mismatch;
    var n := |script| - 1;
    var front, b := script[..n], script[n];
    assert forall m :: 0 <= m < n ==> front[m] == script[m];
    var ks: set<nat> := if b.equal then {} else SamePositions(rust[b.i1..b.i2], mfc[b.j1..b.j2]);
    var last: set<(nat, nat)> := set k: nat | k in ks :: (n, k);
    var all, before := MismatchedAt(script, rust, mfc), MismatchedAt(front, rust, mfc);
    forall m: nat, k: nat
      ensures (m, k) in all <==> (m, k) in before || (m, k) in last
      ensures !((m, k) in before && (m, k) in last)
    {
      MismatchedIn(script, rust, mfc, m, k);
      MismatchedIn(front, rust, mfc, m, k);
      SameIn(b, rust, mfc, k);
    }
    assert forall x :: x in all <==> x in before + last by {
      forall x
        ensures x in all <==> x in before + last
      {
        assert x == (x.0, x.1);
      }
    }
    assert all == before + last && before !! last;
    Numbered(n, ks);
  }

  /** The counts of a script, read off its blocks: what equal blocks cover is matched, and
      of the others a pair of packets with one opcode is a payload mismatch. */
  lemma {:induction false} ScriptExactly<W, O>(script: seq<Block>, rust: seq<Packet<W, O>>, mfc: seq<Packet<W, O>>)
    requires InRange(script, rust, mfc)
    requires forall n :: 0 <= n < |script| && script[n].equal ==>
      script[n].i2 - script[n].i1 == script[n].j2 - script[n].j1
    ensures ScriptCounts(script, rust, mfc).matched == |MatchedAt(script)|
    ensures ScriptCounts(script, rust, mfc).payload == |MismatchedAt(script, rust, mfc)|
  {
    hide BlockCounts, SamePositions, MatchedAt, MismatchedAt;
    if |script| == 0 {
      NothingAt(rust, mfc);
      assert script == [];
    } else {
      var front, b := script[..|script| - 1], script[|script| - 1];
      MatchedNext(script);
      MismatchedNext(script, rust, mfc);
      assert forall m :: 0 <= m < |front| ==> front[m] == script[m];
      ScriptExactly(front, rust, mfc);
      if b.equal {
        EqualBlock(rust[b.i1..b.i2], mfc[b.j1..b.j2]);
      } else {
        BlockExactly(rust[b.i1..b.i2], mfc[b.j1..b.j2]);
      }
    }
  }

  lemma EqualBlock<W, O>(rust: seq<Packet<W, O>>, mfc: seq<Packet<W, O>>)
    ensures BlockCounts(true, rust, mfc) == DiffCounts(|rust|, 0, 0, 0)
  {
  }

  lemma NothingAt<W, O>(rust: seq<Packet<W, O>>, mfc: seq<Packet<W, O>>)
    ensures MatchedAt([]) == {} && InRange([], rust, mfc) && MismatchedAt([], rust, mfc) == {}
  {
  }

  lemma {:induction false} EqualBlocksFit<W, O>(
    script: seq<Block>, rust: seq<Packet<W, O>>, mfc: seq<Packet<W, O>>, i: nat, j: nat)
    requires ValidScript(script, rust, mfc, i, j)
    ensures forall n :: 0 <= n < |script| && script[n].equal ==>
      script[n].i2 - script[n].i1 == script[n].j2 - script[n].j1
  {
    if |script| > 0 {
      var front, b := script[..|script| - 1], script[|script| - 1];
      EqualBlocksFit(front, rust, mfc, b.i1, b.j1);
      assert forall n :: 0 <= n < |front| ==> front[n] == script[n];
    }
  }

  /** Follows an edit script block by block. */
  method DiffPackets<W, O(==)>(rust: seq<Packet<W, O>>, mfc: seq<Packet<W, O>>, script: seq<Block>)
      returns (t: DiffCounts)
    requires ValidScript(script, rust, mfc, |rust|, |mfc|)
    ensures InRange(script, rust, mfc) && t == ScriptCounts(script, rust, mfc)
    ensures t.matched + t.payload + t.onlyRust == |rust|
    ensures t.matched + t.payload + t.onlyMfc == |mfc|
    ensures t.matched == |MatchedAt(script)| && t.payload == |MismatchedAt(script, rust, mfc)|
    ensures Clean(t) ==> |rust| == |mfc| && forall k :: 0 <= k < |rust| ==> rust[k].wire == mfc[k].wire
  {
    hide MatchedAt, MismatchedAt;
    ValidInRange(script, rust, mfc, |rust|, |mfc|);
    t := DiffCounts(0, 0, 0, 0);
    for n := 0 to |script|
      invariant InRange(script[..n], rust, mfc) && t == ScriptCounts(script[..n], rust, mfc)
    {
      var b := script[n];
      assert script[..n + 1][..n] == script[..n];
      if b.equal {
        t := t.(matched := t.matched + (b.i2 - b.i1));
      } else {
        t := ReplaceBlock(t, rust[b.i1..b.i2], mfc[b.j1..b.j2]);
      }
    }
    assert script[..|script|] == script;
    ScriptConserves(script, rust, mfc, |rust|, |mfc|);
    EqualBlocksFit(script, rust, mfc, |rust|, |mfc|);
    ScriptExactly(script, rust, mfc);
  }

  /** A block that is not equal: packets are paired off by position, and a pair
      with one opcode is a payload mismatch. */
  method ReplaceBlock<W, O(==)>(t: DiffCounts, rust: seq<Packet<W, O>>, mfc: seq<Packet<W, O>>) returns (u: DiffCounts)
    ensures u == Added(t, BlockCounts(false, rust, mfc))
    ensures u.payload == t.payload + |SamePositions(rust, mfc)| && u.matched == t.matched
  {
    BlockExactly(rust, mfc);
    u := t;
    var paired := if |rust| <= |mfc| then |rust| else |mfc|;
    for k := 0 to paired
      invariant SameOpcodes(rust, mfc, k) <= k
      invariant u == t.(payload := t.payload + SameOpcodes(rust, mfc, k),
                        onlyRust := t.onlyRust + k - SameOpcodes(rust, mfc, k),
                        onlyMfc := t.onlyMfc + k - SameOpcodes(rust, mfc, k))
    {
      if rust[k].opcode == mfc[k].opcode {
        u := u.(payload := u.payload + 1);
      } else {
        u := u.(onlyRust := u.onlyRust + 1, onlyMfc := u.onlyMfc + 1);
      }
    }
    u := u.(onlyRust := u.onlyRust + (|rust| - paired), onlyMfc := u.onlyMfc + (|mfc| - paired));
  }

  datatype Direction = Sent | Received

  /** A record of a packet family; one that is no wire packet has no direction. */
  datatype PacketRecord<W, O> = PacketRecord(direction: Option<Direction>, packet: Packet<W, O>)

  function InDirection<W, O>(rs: seq<PacketRecord<W, O>>, d: Direction): seq<Packet<W, O>> {
    if |rs| == 0 then []
    else
      var front, r := InDirection(rs[..|rs| - 1], d), rs[|rs| - 1];
      if r.direction == Some(d) then front + [r.packet] else front
  }

  /** The positions of the records that go in this direction, in order. */
  ghost predicate Lists<W, O>(rs: seq<PacketRecord<W, O>>, d: Direction, at: seq<nat>) {
    && (forall k :: 0 <= k < |at| ==> at[k] < |rs| && rs[at[k]].direction.Some? && rs[at[k]].direction.value == d)
    && (forall k, l :: 0 <= k < l < |at| ==> at[k] < at[l])
    && (forall i: nat :: i < |rs| && rs[i].direction.Some? && rs[i].direction.value == d ==> i in at)
  }

  /** The packets of one direction are those of exactly its records, in their order. */
  lemma {:induction false} DirectionExactly<W, O>(rs: seq<PacketRecord<W, O>>, d: Direction) returns (at: seq<nat>)
    ensures Lists(rs, d, at) && |InDirection(rs, d)| == |at|
    ensures forall k :: 0 <= k < |at| ==> InDirection(rs, d)[k] == rs[at[k]].packet
  {
    if |rs| == 0 {
      at := [];
    } else {
      var front, n := rs[..|rs| - 1], |rs| - 1;
      var before := DirectionExactly(front, d);
      at := before;
      if rs[n].direction == Some(d) {
        at := before + [n];
        assert at[|before|] == n;
      }
      forall i: nat | i < |rs| && rs[i].direction.Some? && rs[i].direction.value == d
        ensures i in at
      {
        if i < n {
          assert front[i] == rs[i];
          assert i in before;
        }
      }
    }
  }

  method Select<W, O>(rs: seq<PacketRecord<W, O>>, d: Direction) returns (ps: seq<Packet<W, O>>)
    ensures ps == InDirection(rs, d)
  {
    ps := [];
    for i := 0 to |rs|
      invariant ps == InDirection(rs[..i], d)
    {
      assert rs[..i + 1][..i] == rs[..i];
      if rs[i].direction == Some(d) {
        ps := ps + [rs[i].packet];
      }
    }
    assert rs[..|rs|] == rs;
  }

  ghost predicate SameKeys<W, O>(rust: seq<Packet<W, O>>, mfc: seq<Packet<W, O>>) {
    |rust| == |mfc| && forall k :: 0 <= k < |rust| ==> rust[k].wire == mfc[k].wire
  }

  /** A whole packet family: each direction is diffed on its own, every wire packet
      is counted once, and the family passes only if both directions carry the
      same keys in the same order. */
  method DiffPacketFamily<W, O(==)>(
    rust: seq<PacketRecord<W, O>>, mfc: seq<PacketRecord<W, O>>, sent: seq<Block>, received: seq<Block>)
    returns (ok: bool, t: DiffCounts)
    requires ValidScript(sent, InDirection(rust, Sent), InDirection(mfc, Sent), |InDirection(rust, Sent)|,
      |InDirection(mfc, Sent)|)
    requires ValidScript(received, InDirection(rust, Received), InDirection(mfc, Received),
                         |InDirection(rust, Received)|, |InDirection(mfc, Received)|)
    ensures InRange(sent, InDirection(rust, Sent), InDirection(mfc, Sent))
    ensures InRange(received, InDirection(rust, Received), InDirection(mfc, Received))
    ensures t == Added(ScriptCounts(sent, InDirection(rust, Sent), InDirection(mfc, Sent)),
                       ScriptCounts(received, InDirection(rust, Received), InDirection(mfc, Received)))
    ensures ok <==> t.payload == 0 && t.onlyRust == 0 && t.onlyMfc == 0
    ensures t.matched + t.payload + t.onlyRust == |InDirection(rust, Sent)| + |InDirection(rust, Received)|
    ensures t.matched + t.payload + t.onlyMfc == |InDirection(mfc, Sent)| + |InDirection(mfc, Received)|
    ensures ok ==> SameKeys(InDirection(rust, Sent), InDirection(mfc, Sent))
    ensures ok ==> SameKeys(InDirection(rust, Received), InDirection(mfc, Received))
  {
    var rustSent := Select(rust, Sent);
    var mfcSent := Select(mfc, Sent);
    var a := DiffPackets(rustSent, mfcSent, sent);
    var rustReceived := Select(rust, Received);
    var mfcReceived := Select(mfc, Received);
    var b := DiffPackets(rustReceived, mfcReceived, received);
    t := DiffCounts(a.matched + b.matched, a.payload + b.payload, a.onlyRust + b.onlyRust, a.onlyMfc + b.onlyMfc);
    ok := Clean(t);
  }
}
