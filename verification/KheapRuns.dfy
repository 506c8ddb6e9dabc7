/** Every run of kmalloc and kfree from the initial heap. The state is the tiling with its free
    list; the methods Kmalloc and Kfree of module Kheap take exactly the steps below. */
module KheapRuns {
  import opened Common
  import opened KheapTiling
  import opened KheapMemory
  import opened KheapLists

  datatype State = State(tiles: Tiles, fl: seq<int>)
  datatype Op = Malloc(n: int) | Free(p: int)

  const Initial := State(map[0 := Tile(END, false)], [0])

  ghost predicate Good(st: State) {
    Tiling(st.tiles) && Spread(st.fl) && ListsFree(st.tiles, st.fl)
  }

  // kfree takes a pointer to a live block.
  ghost predicate Legal(st: State, op: Op) {
    op.Free? ==> op.p - 2 in st.tiles && st.tiles[op.p - 2].alloc
  }

  ghost function Step(st: State, op: Op): State
    requires Legal(st, op)
  {
    match op
    case Malloc(n) => State(MallocTiles(st.tiles, st.fl, n), MallocList(st.tiles, st.fl, n))
    case Free(p) => State(Release(st.tiles, p - 2), FreedList(st.tiles, st.fl, p - 2))
  }

  // From (t, fl) the call op leads to (t', fl').
  ghost predicate Takes(t: Tiles, fl: seq<int>, op: Op, t': Tiles, fl': seq<int>) {
    Legal(State(t, fl), op) && State(t', fl') == Step(State(t, fl), op)
  }

  ghost predicate LegalRun(st: State, ops: seq<Op>)
    decreases |ops|
  {
    ops == [] || (Legal(st, ops[0]) && LegalRun(Step(st, ops[0]), ops[1..]))
  }

  ghost function Run(st: State, ops: seq<Op>): State
    requires LegalRun(st, ops)
    decreases |ops|
  {
    if ops == [] then st else Run(Step(st, ops[0]), ops[1..])
  }

  // ---- one step ----

  lemma PlacedSpread(t: Tiles, fl: seq<int>, s: int, n: int)
    requires Covering(t) && Aligned(t) && Spread(fl) && ListsFree(t, fl) && CanPlace(t, s, n)
    ensures Spread(PlacedList(t, fl, s, n))
  {
    hide Spread, Covering, Aligned, Drop;
    DropSpread(fl, s);
    DropMembers(fl, s);
    FreeFits(t, Drop(fl, s), s);
    ConsSpread(Drop(fl, s), s);
  }

  lemma FreedSpread(t: Tiles, fl: seq<int>, s: int)
    requires Tiling(t) && Spread(fl) && ListsFree(t, fl) && s in t && t[s].alloc
    ensures Spread(FreedList(t, fl, s))
  {
    hide Spread, Covering, Aligned, Coalesced, Drop, MergeLo;
    var lo, r := MergeLo(t, s), Right(t, s);
    DropSpread(fl, lo);
    DropSpread(Drop(fl, lo), r);
    DropMembers(fl, lo);
    DropMembers(Drop(fl, lo), r);
    NeighboursOfMerge(t, s);
    FreeFits(t, Drop(Drop(fl, lo), r), lo);
    ConsSpread(Drop(Drop(fl, lo), r), lo);
  }

  lemma StepKeepsGood(st: State, op: Op)
    requires Good(st) && Legal(st, op)
    ensures Good(Step(st, op))
  {
    hide Spread, Covering, Coalesced, Aligned, ListsFree, Drop, MergeLo;
    var t, fl := st.tiles, st.fl;
    match op
    case Malloc(n) =>
      if 0 < n <= MAX_ALLOC && FirstFit(t, fl, RequestSize(n)) < |fl| {
        var s := fl[FirstFit(t, fl, RequestSize(n))];
        FitCanPlace(t, fl, n);
        PlaceKeepsTiling(t, s, RequestSize(n));
        PlacedListsFree(t, fl, s, RequestSize(n));
        PlacedSpread(t, fl, s, RequestSize(n));
      }
    case Free(p) =>
      ReleaseKeepsTiling(t, p - 2);
      FreedListsFree(t, fl, p - 2);
      FreedSpread(t, fl, p - 2);
  }

  lemma FitCanPlace(t: Tiles, fl: seq<int>, n: int)
    requires Tiling(t) && ListsFree(t, fl) && 0 < n && FirstFit(t, fl, RequestSize(n)) < |fl|
    ensures CanPlace(t, fl[FirstFit(t, fl, RequestSize(n))], RequestSize(n))
    ensures Covering(t) && Aligned(t) && Coalesced(t)
  {
    var s := fl[FirstFit(t, fl, RequestSize(n))];
    assert s in fl;
  }

  // ---- every run ----

  lemma {:induction false} RunKeepsGood(st: State, ops: seq<Op>)
    requires Good(st) && LegalRun(st, ops)
    ensures Good(Run(st, ops))
    decreases |ops|
  {
    if ops != [] {
      StepKeepsGood(st, ops[0]);
      RunKeepsGood(Step(st, ops[0]), ops[1..]);
    }
  }

  lemma InitialGood()
    ensures Good(Initial)
  {
    InitialTiling();
  }

  ghost predicate Live(st: State, s: int) {
    s in st.tiles && st.tiles[s].alloc
  }

  // After any run the heap is tiled end to end without adjacent free blocks, the free list holds
  // exactly the free blocks, live blocks never overlap, and the live bytes fit in 16 bits.
  lemma AfterAnyRun(ops: seq<Op>)
    requires LegalRun(Initial, ops)
    ensures var st := Run(Initial, ops);
            && Tiling(st.tiles) && ListsFree(st.tiles, st.fl)
            && (forall i, j | 0 <= i < j < |st.fl| :: st.fl[i] != st.fl[j])
            && (forall s, u | Live(st, s) && Live(st, u) && s < u :: Right(st.tiles, s) <= u)
            && 0 <= AllocatedFrom(st.tiles, 0) <= END < 65536
  {
    InitialGood();
    RunKeepsGood(Initial, ops);
    AllocatedBounds(Run(Initial, ops).tiles, 0);
  }

  // Freeing every live block, in any order, leaves the initial free block.
  lemma DrainedIsInitial(ops: seq<Op>)
    requires LegalRun(Initial, ops)
    requires forall s :: !Live(Run(Initial, ops), s)
    ensures Run(Initial, ops).tiles == Initial.tiles
  {
    InitialGood();
    RunKeepsGood(Initial, ops);
    var st := Run(Initial, ops);
    forall s | s in st.tiles ensures !st.tiles[s].alloc {
      assert !Live(st, s);
    }
    AllFreeIsInitial(st.tiles);
  }

  // A step leaves every live block alone, except the one it frees.
  lemma LiveBlocksStay(st: State, op: Op, s: int)
    requires Good(st) && Legal(st, op) && Live(st, s) && op != Free(s + 2)
    ensures Live(Step(st, op), s) && Step(st, op).tiles[s] == st.tiles[s]
  {
    hide Spread, Covering, Aligned, Coalesced, Place, Release, PlacedList, FreedList;
    var t, fl := st.tiles, st.fl;
    match op
    case Malloc(n) =>
      if 0 < n <= MAX_ALLOC && FirstFit(t, fl, RequestSize(n)) < |fl| {
        FitCanPlace(t, fl, n);
        PlaceKeepsLive(t, fl[FirstFit(t, fl, RequestSize(n))], RequestSize(n), s);
      }
    case Free(p) =>
      ReleaseKeepsLive(t, p - 2, s);
  }

  lemma PlacedFresh(t: Tiles, s: int, n: int)
    requires Covering(t) && CanPlace(t, s, n)
    ensures PlacedAt(t, s, n) == s || PlacedAt(t, s, n) !in t
  {
  }

  // What kmalloc answers: null exactly when the request is empty, too large, or no free block
  // holds it; otherwise a new live block with room for the n bytes after its header.
  lemma MallocAnswer(st: State, n: int)
    requires Good(st)
    ensures MallocResult(st.tiles, st.fl, n).None? <==>
              n <= 0 || n > MAX_ALLOC
              || forall s | s in st.tiles && !st.tiles[s].alloc :: st.tiles[s].size < RequestSize(n)
    ensures MallocResult(st.tiles, st.fl, n).Some? ==>
              var p, st' := MallocResult(st.tiles, st.fl, n).value, Step(st, Malloc(n));
              !Live(st, p - 2) && Live(st', p - 2) && p + n <= Right(st'.tiles, p - 2)
    ensures MallocResult(st.tiles, st.fl, n).None? ==> Step(st, Malloc(n)) == st
  {
    hide Spread, Covering, Aligned, Coalesced;
    var t, fl := st.tiles, st.fl;
    if 0 < n <= MAX_ALLOC {
      var k := FirstFit(t, fl, RequestSize(n));
      if k < |fl| {
        FitCanPlace(t, fl, n);
        assert fl[k] in fl;
        PlacedFresh(t, fl[k], RequestSize(n));
      } else {
        forall s | s in t && !t[s].alloc ensures t[s].size < RequestSize(n) {
          assert s in fl;
        }
      }
    }
  }

  // The same in bytes. A request is refused exactly when it is empty, above 65535, or no free block
  // holds it with its header; otherwise exactly one block comes into use, at the end of a free block,
  // and at most 15 bytes, or 12 more than the request, are taken for it.
  lemma MallocBytes(st: State, n: int)
    requires Good(st)
    ensures var r, t, t' := MallocResult(st.tiles, st.fl, n), st.tiles, Step(st, Malloc(n)).tiles;
            && (r.None? <==> n <= 0 || n > 65535 || forall s | s in t && !t[s].alloc :: t[s].size < n + 2)
            && (r.None? ==> t' == t)
            && (r.Some? ==>
                  && (forall s :: s != r.value - 2 ==> LiveSize(t', s) == LiveSize(t, s)) && LiveSize(t, r.value - 2) == 0
                  && n + 2 <= LiveSize(t', r.value - 2) < (if n < 3 then 16 else n + 13)
                  && exists s :: s in t && !t[s].alloc && r.value - 2 + LiveSize(t', r.value - 2) == s + t[s].size)
  {
    hide Spread, Covering, Aligned, Coalesced, Place, PlacedAt, PlacedList, RequestSize;
    var t, fl := st.tiles, st.fl;
    if 0 < n <= 65535 {
      forall s | s in t ensures t[s].size < RequestSize(n) <==> t[s].size < n + 2 { FitsInBytes(t, s, n); }
      var k := FirstFit(t, fl, RequestSize(n));
      if k < |fl| {
        FitCanPlace(t, fl, n);
        assert fl[k] in fl;
        PlacedSizes(t, fl[k], RequestSize(n));
        RequestBound(n);
      } else {
        forall s | s in t && !t[s].alloc ensures t[s].size < RequestSize(n) {
          assert s in fl;
        }
      }
    }
  }

  // What the caller of a call sees of it: the answer of kmalloc, the blocks in use and their bytes.
  ghost predicate SeenMalloc(t: Tiles, t': Tiles, n: int, p: Option<int>, bytes: int) {
    && (p.None? <==> n <= 0 || n > 65535 || forall s | s in t && !t[s].alloc :: t[s].size < n + 2)
    && (p.Some? ==> LiveSize(t, p.value - 2) == 0 && n + 2 <= LiveSize(t', p.value - 2) < (if n < 3 then 16 else n + 13))
    && (forall s | p != Some(s + 2) :: LiveSize(t', s) == LiveSize(t, s))
    && bytes == if p.Some? then LiveSize(t', p.value - 2) else 0
  }

  // The sizes of all live blocks together.
  ghost function LiveBytes(t: Tiles): int {
    if Covering(t) then AllocatedFrom(t, 0) else 0
  }

  ghost predicate SeenFree(t: Tiles, t': Tiles, p: int, bytes: int) {
    && LiveSize(t, p - 2) > 0
    && (forall s :: LiveSize(t', s) == if s == p - 2 then 0 else LiveSize(t, s))
    && bytes == -LiveSize(t, p - 2)
  }

  lemma MallocSeen(st: State, n: int)
    requires Good(st)
    ensures var st' := Step(st, Malloc(n));
            && Good(st') && Takes(st.tiles, st.fl, Malloc(n), st'.tiles, st'.fl)
            && var d := LiveBytes(st'.tiles) - LiveBytes(st.tiles);
            SeenMalloc(st.tiles, st'.tiles, n, MallocResult(st.tiles, st.fl, n), d)
  {
    hide Spread, Covering, Aligned, Coalesced, ListsFree, MallocTiles, MallocList, MallocResult, AllocatedFrom;
    MallocBytes(st, n);
    BytesMove(st, Malloc(n));
    if MallocResult(st.tiles, st.fl, n).Some? { AnswerIsLive(st, n); }
  }

  lemma AnswerIsLive(st: State, n: int)
    requires Good(st) && MallocResult(st.tiles, st.fl, n).Some?
    ensures var p, t' := MallocResult(st.tiles, st.fl, n).value, Step(st, Malloc(n)).tiles;
            p - 2 in t' && LiveSize(t', p - 2) == t'[p - 2].size
  {
    hide Good, MallocTiles, MallocList, MallocResult;
    MallocAnswer(st, n);
  }

  lemma FreeSeen(st: State, p: int)
    requires Good(st) && Legal(st, Free(p))
    ensures var st' := Step(st, Free(p));
            && Good(st') && Takes(st.tiles, st.fl, Free(p), st'.tiles, st'.fl)
            && var d := LiveBytes(st'.tiles) - LiveBytes(st.tiles);
            SeenFree(st.tiles, st'.tiles, p, d)
  {
    hide Spread, Covering, Aligned, Coalesced, ListsFree, AllocatedFrom, Release, FreedList, LiveSize;
    FreedSizes(st, p);
    BytesMove(st, Free(p));
  }

  // The merged block goes to the front of the list, so the next request looks there first.
  lemma FreedIsFirst(st: State, p: int)
    requires Good(st) && Legal(st, Free(p))
    ensures var st' := Step(st, Free(p));
            && st'.fl != [] && st'.fl[0] in st'.tiles && !st'.tiles[st'.fl[0]].alloc
            && st'.fl[0] <= p - 2 && p - 2 + st.tiles[p - 2].size <= st'.fl[0] + st'.tiles[st'.fl[0]].size
  {
    hide Covering, Coalesced, MergeLo, MergeHi, Spread, Drop;
    MergeStretch(st.tiles, p - 2);
  }

  lemma FreedSizes(st: State, p: int)
    requires Good(st) && Legal(st, Free(p))
    ensures LiveSize(st.tiles, p - 2) == st.tiles[p - 2].size > 0
    ensures forall s :: LiveSize(Release(st.tiles, p - 2), s) == if s == p - 2 then 0 else LiveSize(st.tiles, s)
  {
    hide Spread, Covering, Aligned, Coalesced, Release, ListsFree;
    ReleasedSizes(st.tiles, p - 2);
    BlockAt(st.tiles, p - 2);
  }

  lemma RequestBound(n: nat)
    ensures RequestSize(n) + 8 <= if n < 3 then 16 else n + 13
  {
  }

  lemma FitsInBytes(t: Tiles, s: int, n: nat)
    requires Tiling(t) && s in t && 0 < n
    ensures t[s].size < RequestSize(n) <==> t[s].size < n + 2
  {
    BlockAt(t, s);
    assert t[s].size % 4 == 0;
  }

  // kfree straight after kmalloc restores the tiling.
  lemma FreeUndoesMalloc(st: State, n: int)
    requires Good(st) && MallocResult(st.tiles, st.fl, n).Some?
    ensures var free := Free(MallocResult(st.tiles, st.fl, n).value);
            && Legal(Step(st, Malloc(n)), free)
            && Step(Step(st, Malloc(n)), free).tiles == st.tiles
  {
    hide Spread, Covering, Aligned, Coalesced, Drop, MergeLo, Merge, MergeHi;
    var t, fl := st.tiles, st.fl;
    FitCanPlace(t, fl, n);
    var s := fl[FirstFit(t, fl, RequestSize(n))];
    PlaceKeepsTiling(t, s, RequestSize(n));
    ReleaseUndoesPlace(t, s, RequestSize(n));
  }

  // bytes_allocated moves by the size of the block handed out or taken back.
  lemma BytesMove(st: State, op: Op)
    requires Good(st) && Legal(st, op)
    ensures Good(Step(st, op))
    ensures var d := AllocatedFrom(Step(st, op).tiles, 0) - AllocatedFrom(st.tiles, 0);
            match op
            case Malloc(n) =>
              (match MallocResult(st.tiles, st.fl, n)
               case None => d == 0
               case Some(p) => p - 2 in Step(st, op).tiles && d == Step(st, op).tiles[p - 2].size)
            case Free(p) => d == -st.tiles[p - 2].size
  {
    hide Spread, Covering, Aligned, Coalesced, Place, Release, PlacedList, FreedList, AllocatedFrom, ListsFree;
    StepKeepsGood(st, op);
    var t, fl := st.tiles, st.fl;
    match op
    case Malloc(n) =>
      if 0 < n <= MAX_ALLOC && FirstFit(t, fl, RequestSize(n)) < |fl| {
        FitCanPlace(t, fl, n);
        AllocatedAfterPlace(t, fl[FirstFit(t, fl, RequestSize(n))], RequestSize(n));
      }
    case Free(p) =>
      AllocatedAfterRelease(t, p - 2);
  }
}
