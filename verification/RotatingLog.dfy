/**
 A process log over a bounded number of whole-file segments. Generation 0 is
 the file being written, generation k the one renamed k times.
 */
module RotatingLog {
  import opened Wrappers
  import opened Tally
  import opened Division

  type Bytes = seq<bv8>

  function Flat(chunks: seq<Bytes>): Bytes {
    if |chunks| == 0 then [] else Flat(chunks[..|chunks| - 1]) + chunks[|chunks| - 1]
  }

  lemma {:induction false} FlatAppend(a: seq<Bytes>, b: seq<Bytes>)
    ensures Flat(a + b) == Flat(a) + Flat(b)
  {
    if |b| == 0 {
      assert a + b == a;
    } else {
      assert (a + b)[..|a + b| - 1] == a + b[..|b| - 1];
      FlatAppend(a, b[..|b| - 1]);
    }
  }

  lemma FlatNone()
    ensures Flat([]) == []
  {
  }

  lemma FlatOne(c: Bytes)
    ensures Flat([c]) == c
  {
    assert [c][..0] == [];
  }

  /** Every generation renamed to the next one, the last dropped. */
  function Shifted<T>(files: map<nat, T>, retained: nat): map<nat, T> {
    map i | i in ShiftedKeys(files, retained) :: files[i - 1]
  }

  function ShiftedKeys<T>(files: map<nat, T>, retained: nat): (keys: set<nat>)
    ensures forall i :: i in keys <==> 1 <= i < retained && i - 1 in files
  {
    set j | j in files && j + 1 < retained :: j + 1
  }

  lemma ShiftedAt<T>(files: map<nat, T>, retained: nat)
    ensures forall i: nat :: i in Shifted(files, retained) <==> 1 <= i < retained && i - 1 in files
    ensures forall i: nat :: i in Shifted(files, retained) ==> Shifted(files, retained)[i] == files[i - 1]
  {
  }

  ghost predicate Generations<T>(files: map<nat, T>, n: nat) {
    forall i: nat :: i in files <==> i < n
  }

  /** The contents of the first `n` generations, oldest first. */
  ghost function Gathered(groups: map<nat, seq<Bytes>>, n: nat): seq<Bytes>
    requires Generations(groups, n)
    decreases n
  {
    GatheredFrom(groups, 0, n)
  }

  /** Generations `lo` and older, oldest first. */
  ghost function GatheredFrom<T>(groups: map<nat, seq<T>>, lo: nat, n: nat): seq<T>
    requires forall i: nat :: lo <= i < n ==> i in groups
    decreases n - lo
  {
    if lo >= n then [] else GatheredFrom(groups, lo + 1, n) + groups[lo]
  }

  lemma Newest<T>(groups: map<nat, seq<T>>, n: nat)
    requires n > 0 && forall i: nat :: i < n ==> i in groups
    ensures GatheredFrom(groups, 0, n) == GatheredFrom(groups, 1, n) + groups[0]
  {
  }

  lemma {:induction false} GatheredShift<T>(groups: map<nat, seq<T>>, after: map<nat, seq<T>>, lo: nat, n: nat)
    requires forall i: nat :: lo <= i < n ==> i in groups
    requires forall i: nat :: lo + 1 <= i < n + 1 ==> i in after && after[i] == groups[i - 1]
    ensures GatheredFrom(after, lo + 1, n + 1) == GatheredFrom(groups, lo, n)
    decreases n - lo
  {
    if lo < n {
      GatheredShift(groups, after, lo + 1, n);
    }
  }

  /** Dropping the oldest generation drops its contents from the front. */
  lemma {:induction false} GatheredDrop<T>(groups: map<nat, seq<T>>, lo: nat, n: nat)
    requires lo < n && forall i: nat :: lo <= i < n ==> i in groups
    ensures GatheredFrom(groups, lo, n) == groups[n - 1] + GatheredFrom(groups, lo, n - 1)
    decreases n - lo
  {
    if lo + 1 < n {
      GatheredDrop(groups, lo + 1, n);
      assert GatheredFrom(groups, lo, n) == groups[n - 1] + GatheredFrom(groups, lo + 1, n - 1) + groups[lo];
    }
  }

  lemma {:induction false} GatheredSame<T>(a: map<nat, seq<T>>, b: map<nat, seq<T>>, lo: nat, n: nat)
    requires forall i: nat :: lo <= i < n ==> i in a && i in b && a[i] == b[i]
    ensures GatheredFrom(a, lo, n) == GatheredFrom(b, lo, n)
    decreases n - lo
  {
    if lo < n {
      GatheredSame(a, b, lo + 1, n);
    }
  }

  /** One more piece in the newest group is one more piece at the end. */
  lemma AddToNewest(groups: map<nat, seq<Bytes>>, piece: Bytes, m: nat)
    requires m > 0 && forall i: nat :: 1 <= i < m ==> i in groups
    ensures
      var newest := if 0 in groups then groups[0] else [];
      var after := groups[0 := newest + [piece]];
      && GatheredFrom(after, 0, m) == GatheredFrom(groups, 1, m) + newest + [piece]
      && Flat(newest + [piece]) == Flat(newest) + piece
  {
    hide Flat, GatheredFrom;
    var newest := if 0 in groups then groups[0] else [];
    FlatAppend(newest, [piece]);
    FlatOne(piece);
    Newest(groups[0 := newest + [piece]], m);
    GatheredSame(groups, groups[0 := newest + [piece]], 1, m);
  }

  /** Reading the files oldest to newest is reading their chunks in that order. */
  lemma {:induction false} FilesAreChunks(files: map<nat, Bytes>, groups: map<nat, seq<Bytes>>, lo: nat, n: nat)
    requires forall i: nat :: lo <= i < n ==> i in files && i in groups && files[i] == Flat(groups[i])
    ensures GatheredFrom(files, lo, n) == Flat(GatheredFrom(groups, lo, n))
    decreases n - lo
  {
    if lo < n {
      FilesAreChunks(files, groups, lo + 1, n);
      FlatAppend(GatheredFrom(groups, lo + 1, n), groups[lo]);
    }
  }

  lemma {:induction false} FullLength(files: map<nat, Bytes>, lo: nat, n: nat, s: nat)
    requires 0 < lo <= n && forall i: nat :: lo <= i < n ==> i in files && |files[i]| == s
    ensures |GatheredFrom(files, lo, n)| == (n - lo) * s
    decreases n - lo
  {
    if lo < n {
      FullLength(files, lo + 1, n, s);
      assert (n - lo) * s == (n - lo - 1) * s + s;
    }
  }

  function At<T>(files: map<nat, T>, i: int): Option<T> {
    if i >= 0 && i in files then Some(files[i]) else None
  }

  /** Where generation `i` comes from once every one above `index` was renamed. */
  function Origin<T>(files: map<nat, T>, index: int, i: int): Option<T> {
    if i <= index then At(files, i) else if i == index + 1 then None else At(files, i - 1)
  }

  ghost predicate Renamed<T>(files: map<nat, T>, now: map<nat, T>, index: int, retained: nat) {
    && (forall i :: i in now ==> i < retained)
    && forall i :: 0 <= i < retained ==> At(now, i) == Origin(files, index, i)
  }

  function Rename<T>(now: map<nat, T>, index: nat): map<nat, T> {
    if index in now then now[index + 1 := now[index]] - {index} else now
  }

  lemma RenameAt<T>(now: map<nat, T>, index: nat)
    requires index + 1 !in now
    ensures forall i :: At(Rename(now, index), i) ==
                        (if i == index then None else if i == index + 1 then At(now, index) else At(now, i))
  {
  }

  lemma RenameOne<T>(files: map<nat, T>, now: map<nat, T>, index: nat, retained: nat)
    requires index + 1 < retained && Renamed(files, now, index, retained)
    ensures Renamed(files, Rename(now, index), index - 1, retained)
  {
    assert At(now, index + 1) == None;
    RenameAt(now, index);
    hide At;
  }

  lemma AllRenamed<T>(files: map<nat, T>, now: map<nat, T>, retained: nat)
    requires Renamed(files, now, -1, retained)
    ensures now == Shifted(files, retained)
  {
    forall i: nat
      ensures i in now <==> i in Shifted(files, retained)
      ensures i in now ==> now[i] == Shifted(files, retained)[i]
    {
      assert i < retained ==> At(now, i) == Origin(files, -1, i);
    }
  }

  lemma {:induction false} CountGenerations<T>(files: map<nat, T>, n: nat)
    requires Generations(files, n)
    ensures |files| == n
  {
    if n > 0 {
      CountGenerations(files - {n - 1}, n - 1);
    } else {
      assert files.Keys == {};
    }
  }

  /** The files hold the last pieces written, in at most `retained` files of at
      most `s` bytes, the newest of them generation 0. */
  ghost predicate Keeps(
    files: map<nat, Bytes>, groups: map<nat, seq<Bytes>>, chunks: seq<Bytes>, dropped: nat, size: nat, s: nat,
      retained: nat)
  {
    && |files| <= retained
    && Generations(files, |files|) && Generations(groups, |files|)
    && (forall i :: i in files ==> files[i] == Flat(groups[i]) && |files[i]| <= s)
    && size == (if 0 in files then |files[0]| else 0)
    && dropped <= |chunks| && chunks[dropped..] == Gathered(groups, |files|)
  }

  /** The same of `m` generations, the newest of which may still be missing. */
  ghost predicate HasRoom(
    files: map<nat, Bytes>, groups: map<nat, seq<Bytes>>, chunks: seq<Bytes>, dropped: nat, size: nat, s: nat, m: nat)
  {
    && m > 0
    && (forall i: nat :: i > 0 ==> (i in files <==> i < m) && (i in groups <==> i < m))
    && (0 in files <==> 0 in groups)
    && (forall i :: i in files ==> files[i] == Flat(groups[i]) && |files[i]| <= s)
    && size == (if 0 in files then |files[0]| else 0)
    && dropped <= |chunks|
    && chunks[dropped..] == GatheredFrom(groups, 1, m) + (if 0 in groups then groups[0] else [])
  }

  lemma KeepsMore(
    files: map<nat, Bytes>, groups: map<nat, seq<Bytes>>, chunks: seq<Bytes>, dropped: nat, size: nat, s: nat, m: nat,
      retained: nat)
    requires Keeps(files, groups, chunks, dropped, size, s, m) && m <= retained
    ensures Keeps(files, groups, chunks, dropped, size, s, retained)
  {
  }

  /** Adding a piece that fits to the newest file. */
  lemma PieceFits(
    files: map<nat, Bytes>, groups: map<nat, seq<Bytes>>, chunks: seq<Bytes>, dropped: nat, size: nat, s: nat, m: nat,
      piece: Bytes)
    requires HasRoom(files, groups, chunks, dropped, size, s, m) && size + |piece| <= s
    ensures
      var after := files[0 := (if 0 in files then files[0] else []) + piece];
      && |after| == m
      && Keeps(after, groups[0 := (if 0 in groups then groups[0] else []) + [piece]], chunks + [piece], dropped,
        size + |piece|, s, m)
  {
    hide Flat, GatheredFrom, Generations;
    var newest := if 0 in groups then groups[0] else [];
    var after, next := files[0 := (if 0 in files then files[0] else []) + piece], groups[0 := newest + [piece]];
    NewestPresent(files, m, after[0]);
    NewestPresent(groups, m, next[0]);
    CountGenerations(after, m);
    FlatNone();
    AddToNewest(groups, piece, m);
    assert forall i :: i in after ==> after[i] == Flat(next[i]) && |after[i]| <= s;
    assert (chunks + [piece])[dropped..] == chunks[dropped..] + [piece];
    assert (chunks + [piece])[dropped..] == GatheredFrom(next, 0, m);
  }

  lemma NewestPresent<T>(files: map<nat, T>, m: nat, v: T)
    requires m > 0 && forall i: nat :: i > 0 ==> (i in files <==> i < m)
    ensures Generations(files[0 := v], m)
  {
  }

  ghost predicate PackedAs(files: map<nat, Bytes>, size: nat, t: nat, s: nat, retained: nat) {
    && s > 0
    && if t == 0 then files == map[] && size == 0
       else
         && files != map[] && size == (t - 1) % s + 1
         && |files| == Least(retained, (t - 1) / s + 1)
         && forall i :: i in files && i > 0 ==> |files[i]| == s
  }

  /** One more piece that fits, in the newest file or, when that is full, in a new one. */
  lemma PackedAfter(
      files: map<nat, Bytes>, size: nat, t: nat, s: nat, retained: nat, piece: Bytes, after: map<nat, Bytes>)
    requires PackedAs(files, size, t, s, retained) && retained > 0 && piece != []
    requires size == (if 0 in files then |files[0]| else 0) && Generations(files, |files|)
    requires
      if size >= s then
        |piece| <= s && after == Shifted(files, retained)[0 := piece] && |after| == Least(retained, |files| + 1)
      else
        && size + |piece| <= s && |after| == (if files == map[] then 1 else |files|)
        && after == files[0 := (if 0 in files then files[0] else []) + piece]
    ensures PackedAs(after, if size >= s then |piece| else size + |piece|, t + |piece|, s, retained)
  {
    if t > 0 {
      PackedStep(t, |piece|, s);
    } else {
      DivSmall(|piece| - 1, s);
    }
  }

  class RotatingBinaryLog {
    const maxSegmentBytes: nat
    const retainedSegments: nat
    var size: nat
    /** The segment files on disk. */
    var files: map<nat, Bytes>
    /** Everything written, as the pieces it was written in. */
    ghost var chunks: seq<Bytes>
    /** The pieces in each file, and how many pieces are no longer in any. */
    ghost var groups: map<nat, seq<Bytes>>
    ghost var dropped: nat

    ghost predicate Valid()
      reads this
    {
      && maxSegmentBytes > 0 && retainedSegments > 0
      && Keeps(files, groups, chunks, dropped, size, maxSegmentBytes, retainedSegments)
    }

    ghost function Written(): Bytes
      reads this
    {
      Flat(chunks)
    }

    /** The retained files, oldest to newest. */
    ghost function Retained(): Bytes
      requires Valid()
      reads this
    {
      GatheredFrom(files, 0, |files|)
    }

    /** Only the newest file is not full: so it is when `Write` alone was used. */
    ghost predicate Packed()
      reads this
    {
      PackedAs(files, size, |Written()|, maxSegmentBytes, retainedSegments)
    }

    /** A log on a path where nothing was written before. */
    constructor (maxSegmentBytes: nat, retainedSegments: nat)
      requires maxSegmentBytes > 0 && retainedSegments > 0
      ensures Valid() && Packed() && files == map[] && chunks == []
      ensures this.maxSegmentBytes == maxSegmentBytes && this.retainedSegments == retainedSegments
    {
      this.maxSegmentBytes, this.retainedSegments := maxSegmentBytes, retainedSegments;
      size, files, chunks, groups, dropped := 0, map[], [], map[], 0;
    }

    /** Renames every file to the next generation, oldest first, and drops the last. */
    method Rotate()
      requires retainedSegments > 0 && forall i :: i in files ==> i < retainedSegments
      modifies this`files, this`size
      ensures files == Shifted(old(files), retainedSegments) && size == 0
    {
      size := 0;
      if retainedSegments == 1 {
        files := files - {0};
        return;
      }
      ghost var before := files;
      files := files - {retainedSegments - 1};
      var index := retainedSegments - 2;
      while index > 0
        invariant 0 <= index <= retainedSegments - 2 && size == 0
        invariant Renamed(before, files, index, retainedSegments)
      {
        hide At;
        RenameOne(before, files, index, retainedSegments);
        if index in files {
          files := files[index + 1 := files[index]] - {index};
        }
        index := index - 1;
      }
      RenameOne(before, files, 0, retainedSegments);
      if 0 in files {
        files := files[1 := files[0]] - {0};
      }
      AllRenamed(before, files, retainedSegments);
    }

    /** `Valid`, but for a newest file that may be missing after a rotation. */
    ghost predicate Ready(m: nat)
      reads this
    {
      && maxSegmentBytes > 0 && m <= retainedSegments
      && HasRoom(files, groups, chunks, dropped, size, maxSegmentBytes, m)
    }

    lemma ValidIsReady()
      requires Valid()
      ensures Ready(if files == map[] then 1 else |files|)
    {
      if files != map[] {
        assert files.Keys != {};
      }
    }

    /** Makes room for a new file. */
    method MakeRoom()
      requires Valid() && 0 in files
      modifies this`files, this`size, this`groups, this`dropped
      ensures Ready(Least(retainedSegments, |old(files)| + 1)) && 0 !in files
      ensures files == Shifted(old(files), retainedSegments)
    {
      hide Flat, GatheredFrom, Shifted;
      ghost var n := |files|;
      Newest(groups, n);
      ShiftedAt(files, retainedSegments);
      ShiftedAt(groups, retainedSegments);
      Rotate();
      if n == retainedSegments {
        dropped := dropped + |groups[n - 1]|;
        GatheredDrop(groups, 0, n);
      }
      GatheredShift(groups, Shifted(groups, retainedSegments), 0, Least(retainedSegments - 1, n));
      groups := Shifted(groups, retainedSegments);
    }

    /** Writes one piece whole at the end of the newest file. */
    method Extend(piece: Bytes, ghost m: nat)
      requires Ready(m) && piece != [] && size + |piece| <= maxSegmentBytes
      modifies this`files, this`size, this`groups, this`chunks
      ensures Valid() && |files| == m && chunks == old(chunks) + [piece] && size == old(size) + |piece|
      ensures files == old(files)[0 := (if 0 in old(files) then old(files)[0] else []) + piece]
    {
      hide HasRoom, Keeps;
      PieceFits(files, groups, chunks, dropped, size, maxSegmentBytes, m, piece);
      KeepsMore(files[0 := (if 0 in files then files[0] else []) + piece],
                groups[0 := (if 0 in groups then groups[0] else []) + [piece]], chunks + [piece],
                dropped, size + |piece|, maxSegmentBytes, m, retainedSegments);
      files := files[0 := (if 0 in files then files[0] else []) + piece];
      size := size + |piece|;
      groups := groups[0 := (if 0 in groups then groups[0] else []) + [piece]];
      chunks := chunks + [piece];
    }

    /** Writes as much of the data as the newest file takes, after a rotation when it is full. */
    method WritePiece(remaining: Bytes) returns (n: nat)
      requires Valid() && remaining != []
      modifies this
      ensures Valid() && 0 < n <= |remaining| && chunks == old(chunks) + [remaining[..n]]
      ensures size == (if old(size) >= maxSegmentBytes then n else old(size) + n) && old(size) <= maxSegmentBytes
      ensures |files| == (if old(size) >= maxSegmentBytes then Least(retainedSegments, old(|files|) + 1)
                          else if old(files) == map[] then 1 else old(|files|))
      ensures
        if old(size) >= maxSegmentBytes then
          && n <= maxSegmentBytes
          && files == Shifted(old(files), retainedSegments)[0 := remaining[..n]]
        else
          && size <= maxSegmentBytes
          && files == old(files)[0 := (if 0 in old(files) then old(files)[0] else []) + remaining[..n]]
    {
      hide Flat, GatheredFrom;
      ValidIsReady();
      ghost var m := if files == map[] then 1 else |files|;
      if size >= maxSegmentBytes {
        MakeRoom();
        m := Least(retainedSegments, m + 1);
      }
      var available := maxSegmentBytes - size;
      n := if |remaining| <= available then |remaining| else available;
      Extend(remaining[..n], m);
      assert [] + remaining[..n] == remaining[..n];
    }

    lemma SizeFits()
      requires Valid()
      ensures retainedSegments > 0 && Generations(files, |files|)
      ensures size == (if 0 in files then |files[0]| else 0)
    {
    }

    /** Writes every byte, rotating only between exact slices. */
    method Write(data: Bytes)
      requires Valid()
      modifies this
      ensures Valid() && Written() == old(Written()) + data
      ensures old(Packed()) ==> Packed()
    {
      hide Flat, GatheredFrom, Valid, PackedAs;
      var remaining := data;
      ghost var done: Bytes := [];
      while |remaining| > 0
        invariant Valid() && data == done + remaining
        invariant Written() == old(Written()) + done
        invariant old(Packed()) ==> Packed()
        decreases |remaining|
      {
        ghost var before, files0, size0, t := chunks, files, size, |Written()|;
        SizeFits();
        var n := WritePiece(remaining);
        FlatAppend(before, [remaining[..n]]);
        FlatOne(remaining[..n]);
        if old(Packed()) {
          PackedAfter(files0, size0, t, maxSegmentBytes, retainedSegments, remaining[..n], files);
        }
        done := done + remaining[..n];
        remaining := remaining[n..];
      }
      assert done == data;
    }

    /** Writes one indivisible record, rotating before it when it does not fit;
        `false` is the refusal of an empty or oversized record. */
    method WriteRecord(data: Bytes) returns (ok: bool)
      requires Valid()
      modifies this
      ensures Valid() && ok == (0 < |data| <= maxSegmentBytes)
      ensures chunks == old(chunks) + (if ok then [data] else [])
      ensures ok ==>
        if 0 < old(size) && old(size) + |data| > maxSegmentBytes then
          size == |data| && files == Shifted(old(files), retainedSegments)[0 := data]
        else
          && size == old(size) + |data|
          && files == old(files)[0 := (if 0 in old(files) then old(files)[0] else []) + data]
      ensures !ok ==> files == old(files) && size == old(size)
    {
      hide Flat, GatheredFrom, Shifted;
      assert [] + data == data;
      if |data| == 0 || |data| > maxSegmentBytes {
        return false;
      }
      ValidIsReady();
      ghost var m := if files == map[] then 1 else |files|;
      if size > 0 && size + |data| > maxSegmentBytes {
        MakeRoom();
        m := Least(retainedSegments, m + 1);
      }
      Extend(data, m);
      ok := true;
    }

    // ----- What is retained -----------------------------------------------------------

    /** The retained files are exactly the last pieces written, none of them split
        over two files, in at most the retained number of bounded files. */
    lemma RetainedIsSuffix()
      requires Valid()
      ensures dropped <= |chunks| && Retained() == Flat(chunks[dropped..])
      ensures Written() == Flat(chunks[..dropped]) + Retained()
      ensures |files| <= retainedSegments && forall i :: i in files ==> |files[i]| <= maxSegmentBytes
    {
      FilesAreChunks(files, groups, 0, |files|);
      FlatAppend(chunks[..dropped], chunks[dropped..]);
      assert chunks[..dropped] + chunks[dropped..] == chunks;
    }

    /** The exact law of a log on a fresh path written with `Write` alone: of T
        bytes it retains the last, a full window less what the newest file has
        still room for. */
    lemma RetainedExactly()
      requires Valid() && Packed() && Written() != []
      ensures Retained() == LastN(Written(), Window(|Written()|, maxSegmentBytes, retainedSegments))
    {
      hide Flat, GatheredFrom, Valid, Packed;
      RetainedIsSuffix();
      PackedLength();
      SuffixIsLast(Flat(chunks[..dropped]), Retained());
    }

    lemma PackedLength()
      requires Valid() && Packed() && Written() != []
      ensures |Retained()| == Window(|Written()|, maxSegmentBytes, retainedSegments)
    {
      hide Flat, GatheredFrom;
      var n := |files|;
      assert files.Keys != {};
      Newest(files, n);
      FullLength(files, 1, n, maxSegmentBytes);
      WindowLength(|Written()|, maxSegmentBytes, retainedSegments);
    }
  }

  /** How many of `t` bytes a packed log retains: min(t, (R - 1) * S + (t - 1) mod S + 1). */
  function Window(t: nat, s: nat, retained: nat): nat {
    if t == 0 || s == 0 || retained == 0 then 0 else Least(t, (retained - 1) * s + (t - 1) % s + 1)
  }

  lemma SuffixIsLast<T>(a: seq<T>, b: seq<T>)
    ensures LastN(a + b, |b|) == b
  {
  }

  lemma DivSmall(a: nat, s: nat)
    requires a < s
    ensures a / s == 0 && a % s == a
  {
  }

  /** Position of the last byte after `p` more bytes that fit, or that start a new file. */
  lemma PackedStep(t: nat, p: nat, s: nat)
    requires t > 0 && 0 < p <= s
    ensures
      var size := (t - 1) % s + 1;
      if size == s then (t + p - 1) % s + 1 == p && (t + p - 1) / s == (t - 1) / s + 1
      else p <= s - size ==> (t + p - 1) % s + 1 == size + p && (t + p - 1) / s == (t - 1) / s
  {
    var q, r := (t - 1) / s, (t - 1) % s;
    assert t - 1 == s * q + r;
    if r + 1 == s {
      assert s * (q + 1) == s * q + s;
      DivModUnique(s, q + 1, p - 1);
    } else if p <= s - (r + 1) {
      DivModUnique(s, q, r + p);
    }
  }

  lemma WindowLength(t: nat, s: nat, retained: nat)
    requires t > 0 && s > 0 && retained > 0
    ensures
      var size := (t - 1) % s + 1;
      (Least(retained, (t - 1) / s + 1) - 1) * s + size == Least(t, (retained - 1) * s + size)
  {
    var q := (t - 1) / s;
    assert t == s * q + (t - 1) % s + 1;
    assert s * q == q * s && s * (retained - 1) == (retained - 1) * s;
    if retained <= q + 1 {
      MulMonotone(s, retained - 1, q);
    } else {
      MulMonotone(s, q, retained - 1);
    }
  }
}
