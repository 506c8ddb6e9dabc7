/** What kernel/memory/kmalloc.cpp does as written, where module Kheap repairs it: for each slip the
    exact condition under which the code still meets the property, and an input at which it fails. */
module KheapAsWritten {
  import opened Common
  import opened KheapTiling
  import opened KheapMemory
  import opened KheapTags
  import opened KheapLists
  import opened KheapRuns

  // ---- the request size ----

  // Rounded first, raised to sizeof(free_block) after, with no room added for the header.
  function RequestSizeAsWritten(n: nat): int {
    var up := (n + 3) / 4 * 4;
    if up < 6 then 6 else up
  }

  lemma AsWrittenSizes(n: nat)
    requires 0 < n
    ensures var r := RequestSizeAsWritten(n);
            && n <= r
            && ((r % 4 == 0 && r >= MIN_BLOCK_SIZE && r >= n + 2) <==> n >= 5 && (n % 4 == 1 || n % 4 == 2))
  {
  }

  // place, given the size as written and a free block that passes the test of kmalloc, keeps the
  // tiling and hands out room for header and payload exactly when it takes the whole block, or the
  // request is at least 5 and leaves remainder 1 or 2 modulo 4.
  lemma AsWrittenPlaceExact(t: Tiles, s: int, n: nat)
    requires Tiling(t) && s in t && !t[s].alloc && 0 < n <= MAX_ALLOC
    requires RequestSizeAsWritten(n) + 2 <= t[s].size
    ensures var r := RequestSizeAsWritten(n); var t' := Place(t, s, r);
            && PlacedAt(t, s, r) in t'
            && ((Tiling(t') && n + 2 <= t'[PlacedAt(t, s, r)].size) <==>
                  t[s].size - r < MIN_BLOCK_SIZE || (n >= 5 && (n % 4 == 1 || n % 4 == 2)))
  {
    var r := RequestSizeAsWritten(n);
    AsWrittenSizes(n);
    var t', a := Place(t, s, r), PlacedAt(t, s, r);
    if t[s].size - r < MIN_BLOCK_SIZE {
      WholePlaceKeepsTiling(t, s, r);
    } else if r % 4 == 0 && r >= MIN_BLOCK_SIZE {
      PlaceKeepsTiling(t, s, r);
    } else {
      assert t'[a].size == r;
    }
  }

  lemma WholePlaceKeepsTiling(t: Tiles, s: int, r: int)
    requires Tiling(t) && s in t && !t[s].alloc && t[s].size - r < MIN_BLOCK_SIZE
    ensures Tiling(Place(t, s, r))
  {
    assert Place(t, s, r) == Place(t, s, t[s].size);
    PlaceKeepsTiling(t, s, t[s].size);
  }

  // In the initial heap a request of 3 bytes breaks the tiling; one of 8 keeps it and gets a block
  // whose payload runs into the next header.
  lemma AsWrittenPlaceFails()
    ensures !Tiling(Place(Initial.tiles, 0, RequestSizeAsWritten(3)))
    ensures var t' := Place(Initial.tiles, 0, RequestSizeAsWritten(8));
            Tiling(t') && t'[PlacedAt(Initial.tiles, 0, RequestSizeAsWritten(8))].size == 8
  {
    InitialTiling();
    PlaceKeepsTiling(Initial.tiles, 0, 8);
    var t' := Place(Initial.tiles, 0, 6);
    assert t'[PlacedAt(Initial.tiles, 0, 6)].size == 6;
  }

  // ---- the free list with 0 for null ----

  // What the prev and next words of the i-th listed block should hold: 0 stands for the end of the
  // list, and is also the index of the first block of the heap.
  ghost function PrevWord(fl: seq<int>, i: int): int
    requires 0 <= i < |fl|
  {
    if i == 0 then 0 else fl[i - 1]
  }

  ghost function NextWord(fl: seq<int>, i: int): int
    requires 0 <= i < |fl|
  {
    if i + 1 == |fl| then 0 else fl[i + 1]
  }

  ghost predicate ZeroLinksAt(m: Words, fl: seq<int>, i: int)
    requires |m| == WORDS && Spread(fl) && 0 <= i < |fl|
  {
    W(m, fl[i] + 2) == PrevWord(fl, i) && W(m, fl[i] + 4) == NextWord(fl, i)
  }

  function HeadOf(fl: seq<int>): Option<int> {
    if fl == [] then None else Some(fl[0])
  }

  // freelist, null or a block, and the words of the blocks in fl spell fl in both directions.
  ghost predicate ZeroLinks(m: Words, fl: seq<int>, head: Option<int>)
    requires |m| == WORDS
  {
    && Spread(fl) && head == HeadOf(fl)
    && (forall i {:trigger ZeroLinksAt(m, fl, i)} | 0 <= i < |fl| :: ZeroLinksAt(m, fl, i))
  }

  // ---- insertion ----

  // block_idx: what is left of the distance from kmem in 16 bits. The null pointer is address 0.
  function BlockIdx(kmem: nat, block: Option<int>): u16 {
    match block
    case None => (0 - kmem) % 65536
    case Some(b) => b % 65536
  }

  // insert_into_free_list as written stores only the next link.
  function InsertAsWritten(m: Words, kmem: nat, head: Option<int>, b: int): (m': Words)
    requires |m| == WORDS && 0 <= b <= END - 8
    ensures |m'| == WORDS
  {
    Put(m, b + 4, BlockIdx(kmem, head))
  }

  // It leaves the links of the longer list exactly when the prev word of the block already reads 0
  // and either the list was empty and kmem lies at a multiple of 2^16, or it was not and the block is
  // block 0.
  lemma InsertAsWrittenExact(m: Words, kmem: nat, fl: seq<int>, head: Option<int>, b: int)
    requires |m| == WORDS && ZeroLinks(m, fl, head) && Fits(fl, b)
    ensures ZeroLinks(InsertAsWritten(m, kmem, head, b), [b] + fl, Some(b)) <==>
            W(m, b + 2) == 0 && if fl == [] then kmem % 65536 == 0 else b == 0
  {
    hide W, Put, Even, Fits, ZeroLinksAt;
    FitsAt(fl, b);
    var m', fl' := InsertAsWritten(m, kmem, head, b), [b] + fl;
    PutFrame(m, b + 4, BlockIdx(kmem, head));
    ConsSpread(fl, b);
    InsertedFirst(m, kmem, fl, head, b);
    forall i {:trigger ZeroLinksAt(m', fl', i)} | 0 < i < |fl'|
      ensures ZeroLinksAt(m', fl', i) <==> i > 1 || b == 0
    {
      assert ZeroLinksAt(m, fl, i - 1);
      InsertedAt(m, m', fl, b, i);
    }
    if fl != [] { assert ZeroLinksAt(m', fl', 1) <==> b == 0; }
    assert ZeroLinksAt(m', fl', 0) <==> W(m, b + 2) == 0 && (fl == [] ==> kmem % 65536 == 0);
  }

  lemma InsertedFirst(m: Words, kmem: nat, fl: seq<int>, head: Option<int>, b: int)
    requires |m| == WORDS && Spread(fl) && head == HeadOf(fl) && Fits(fl, b) && Spread([b] + fl)
    ensures ZeroLinksAt(InsertAsWritten(m, kmem, head, b), [b] + fl, 0) <==>
            W(m, b + 2) == 0 && (fl == [] ==> kmem % 65536 == 0)
  {
    hide W, Put, Even, Fits;
    FitsAt(fl, b);
    PutFrame(m, b + 4, BlockIdx(kmem, head));
    NullIdx(kmem);
    if fl != [] { SpreadAt(fl, 0); }
  }

  lemma NullIdx(kmem: nat)
    ensures BlockIdx(kmem, None) == 0 <==> kmem % 65536 == 0
  {
  }

  lemma InsertedAt(m: Words, m': Words, fl: seq<int>, b: int, i: int)
    requires |m| == WORDS && |m'| == WORDS && Spread(fl) && Fits(fl, b) && Spread([b] + fl) && 0 < i <= |fl|
    requires Same(m, m', {b + 4}) && ZeroLinksAt(m, fl, i - 1)
    ensures ZeroLinksAt(m', [b] + fl, i) <==> i > 1 || b == 0
  {
    hide W, Even;
    var fl' := [b] + fl;
    assert fl'[i] == fl[i - 1] && PrevWord(fl', i) == (if i == 1 then b else fl[i - 2]);
    assert NextWord(fl', i) == NextWord(fl, i - 1);
    SpreadAt(fl, i - 1);
  }

  // ---- removal ----

  // A store to a word of kmem.
  function Store(m: Words, o: int, x: u16): (m': Words)
    requires |m| == WORDS
    ensures |m'| == WORDS
  {
    if 0 <= o <= END then Put(m, o, x) else m
  }

  // remove_from_free_list as written: the memory and freelist after it.
  function RemoveAsWritten(m: Words, head: Option<int>, b: int): (r: (Words, Option<int>))
    requires |m| == WORDS && 0 <= b <= END - 8
    ensures |r.0| == WORDS
  {
    var prev, next := W(m, b + 2), W(m, b + 4);
    var head' := if prev != 0 then head else if next == 0 then None else Some(next);
    var m1 := if prev != 0 then Store(m, prev + 4, next) else m;
    (if W(m1, b + 4) != 0 then Store(m1, W(m1, b + 4) + 2, W(m1, b + 2)) else m1, head')
  }

  // The removed block is next to block 0 in the list.
  predicate BesideZero(fl: seq<int>, k: int)
    requires 0 <= k < |fl|
  {
    (0 < k && fl[k - 1] == 0) || (k + 1 < |fl| && fl[k + 1] == 0)
  }

  // It leaves the links and the head of the shorter list exactly when neither neighbour in the list is
  // block 0.
  lemma RemoveAsWrittenExact(m: Words, fl: seq<int>, head: Option<int>, k: int)
    requires |m| == WORDS && ZeroLinks(m, fl, head) && 0 <= k < |fl|
    ensures 0 <= fl[k] <= END - 8
    ensures var r := RemoveAsWritten(m, head, fl[k]);
            ZeroLinks(r.0, Without(fl, k), r.1) <==> !BesideZero(fl, k)
  {
    hide W, Even, RemoveAsWritten, ZeroLinksAt;
    SpreadAt(fl, k);
    assert ZeroLinksAt(m, fl, k);
    var r, fl' := RemoveAsWritten(m, head, fl[k]), Without(fl, k);
    WithoutSpread(fl, k);
    RemovedHead(m, fl, head, k);
    if k + 1 < |fl| && fl[k + 1] == 0 {
      assert ZeroLinksAt(m, fl, k + 1);
      RemovedBeforeZero(m, fl, head, k);
      assert !ZeroLinksAt(r.0, fl', k);
    } else if !BesideZero(fl, k) {
      forall i {:trigger ZeroLinksAt(r.0, fl', i)} | 0 <= i < |fl'| ensures ZeroLinksAt(r.0, fl', i) {
        var j := if i < k then i else i + 1;
        assert ZeroLinksAt(m, fl, j);
        RemovedAt(m, fl, head, k, j);
      }
    }
  }

  // freelist after the removal.
  lemma RemovedHead(m: Words, fl: seq<int>, head: Option<int>, k: int)
    requires |m| == WORDS && Spread(fl) && head == HeadOf(fl) && 0 <= k < |fl| && ZeroLinksAt(m, fl, k)
    requires Spread(Without(fl, k))
    ensures var r := RemoveAsWritten(m, head, fl[k]);
            r.1 == HeadOf(Without(fl, k)) <==> !((0 < k && fl[k - 1] == 0) || (k == 0 && 1 < |fl| && fl[1] == 0))
  {
    hide Put, Store;
  }

  // The words of a block that stays.
  lemma RemovedWords(m: Words, fl: seq<int>, head: Option<int>, k: int, j: int)
    requires |m| == WORDS && Spread(fl) && 0 <= k < |fl| && 0 <= j < |fl| && j != k && ZeroLinksAt(m, fl, k)
    ensures var r := RemoveAsWritten(m, head, fl[k]);
            && W(r.0, fl[j] + 2) == (if j == k + 1 && fl[j] != 0 then PrevWord(fl, k) else W(m, fl[j] + 2))
            && (fl[j] != 0 ==> W(r.0, fl[j] + 4) == (if j + 1 == k then NextWord(fl, k) else W(m, fl[j] + 4)))
            && (fl[j] == 0 ==> W(r.0, fl[j] + 4) == W(m, fl[j] + 4))
  {
    hide W, Even, Put;
    SpreadAt(fl, j);
    SpreadAt(fl, k);
    var b, prev, next := fl[k], PrevWord(fl, k), NextWord(fl, k);
    Neighbours(fl, k, j);
    var m1 := m;
    if prev != 0 {
      SpreadAt(fl, k - 1);
      PutFrame(m, prev + 4, next);
      m1 := Store(m, prev + 4, next);
    }
    assert W(m1, b + 2) == prev && W(m1, b + 4) == next;
    if next != 0 {
      SpreadAt(fl, k + 1);
      PutFrame(m1, next + 2, prev);
    }
  }

  // Where the words written lie with respect to those of fl[k] and of fl[j].
  lemma Neighbours(fl: seq<int>, k: int, j: int)
    requires Spread(fl) && 0 <= k < |fl| && 0 <= j < |fl| && j != k
    ensures var b, prev, next := fl[k], PrevWord(fl, k), NextWord(fl, k);
            && (prev != 0 ==> 0 < k && prev == fl[k - 1] && prev + 4 != b + 2 && prev + 4 != b + 4 && prev + 4 != fl[j] + 2)
            && (prev != 0 ==> (prev + 4 == fl[j] + 4 <==> j + 1 == k))
            && (next != 0 ==> k + 1 < |fl| && next == fl[k + 1] && next + 2 != fl[j] + 4)
            && (next != 0 ==> (next + 2 == fl[j] + 2 <==> j == k + 1))
  {
  }

  lemma RemovedAt(m: Words, fl: seq<int>, head: Option<int>, k: int, j: int)
    requires |m| == WORDS && Spread(fl) && 0 <= k < |fl| && 0 <= j < |fl| && j != k && !BesideZero(fl, k)
    requires ZeroLinksAt(m, fl, k) && ZeroLinksAt(m, fl, j) && Spread(Without(fl, k))
    ensures ZeroLinksAt(RemoveAsWritten(m, head, fl[k]).0, Without(fl, k), if j < k then j else j - 1)
  {
    hide W, RemoveAsWritten;
    RemovedWords(m, fl, head, k, j);
  }

  lemma RemovedBeforeZero(m: Words, fl: seq<int>, head: Option<int>, k: int)
    requires |m| == WORDS && Spread(fl) && 0 <= k && k + 1 < |fl| && fl[k + 1] == 0
    requires ZeroLinksAt(m, fl, k) && ZeroLinksAt(m, fl, k + 1) && Spread(Without(fl, k))
    ensures !ZeroLinksAt(RemoveAsWritten(m, head, fl[k]).0, Without(fl, k), k)
  {
    hide W, RemoveAsWritten;
    RemovedWords(m, fl, head, k, k + 1);
    assert Without(fl, k)[k] == fl[k + 1];
  }

  // ---- the two on runs ----

  // The first call removes block 0, the only one, and inserts it again once the right part is split
  // off: whatever was written outside its link words, the list is [0] again exactly when kmem lies at a
  // multiple of 2^16.
  lemma FirstInsertAsWritten(m: Words, m1: Words, kmem: nat)
    requires InitialAsWritten(m) && |m1| == WORDS && W(m1, 2) == W(m, 2) && W(m1, 4) == W(m, 4)
    ensures ZeroLinks(m, [0], Some(0)) && RemoveAsWritten(m, Some(0), 0) == (m, None)
    ensures ZeroLinks(InsertAsWritten(m1, kmem, None, 0), [0], Some(0)) <==> kmem % 65536 == 0
  {
    assert W(m, 2) == 0 && W(m, 4) == 0;
    assert ZeroLinks(m1, [], None) && Fits([], 0);
    InsertAsWrittenExact(m1, kmem, [], None, 0);
    assert [0] + [] == [0];
  }

  // Malloc(100), Malloc(100), Free(65430) leave block 65428 free at the head and block 0 behind it.
  const Split1: Tiles := map[0 := Tile(65428, false), 65428 := Tile(104, true)]
  const Split2: Tiles := map[0 := Tile(65324, false), 65324 := Tile(104, true), 65428 := Tile(104, true)]
  const Split3: Tiles := map[0 := Tile(65324, false), 65324 := Tile(104, true), 65428 := Tile(104, false)]

  lemma SplitOnce()
    ensures Step(Initial, Malloc(100)) == State(Split1, [0])
  {
    assert RequestSize(100) == 104 && Drop([0], 0) == [];
    assert FirstFit(Initial.tiles, [0], 104) == 0;
    assert Place(Initial.tiles, 0, 104) == Split1;
  }

  lemma SplitTwice()
    ensures Step(State(Split1, [0]), Malloc(100)) == State(Split2, [0])
  {
    assert RequestSize(100) == 104 && Drop([0], 0) == [];
    assert FirstFit(Split1, [0], 104) == 0;
    assert Place(Split1, 0, 104) == Split2;
  }

  lemma SplitFreed()
    ensures Legal(State(Split2, [0]), Free(65430)) && Step(State(Split2, [0]), Free(65430)) == State(Split3, [65428, 0])
  {
    NoFreeLeft(Split2, 65428);
    assert Merge(Split2, 65428, END) == Split3;
  }

  lemma SplitRun()
    ensures LegalRun(Initial, [Malloc(100), Malloc(100), Free(65430)])
    ensures Run(Initial, [Malloc(100), Malloc(100), Free(65430)]) == State(Split3, [65428, 0])
  {
    hide Step;
    SplitOnce();
    SplitTwice();
    SplitFreed();
    var ops := [Malloc(100), Malloc(100), Free(65430)];
    assert ops[1..] == [Malloc(100), Free(65430)] && ops[1..][1..] == [Free(65430)] && [Free(65430)][1..] == [];
    assert LegalRun(State(Split3, [65428, 0]), []) && LegalRun(State(Split2, [0]), [Free(65430)]);
  }

  // There removing the head as written sets freelist to null: block 0 is free and on no list.
  lemma RemoveAsWrittenFails(m: Words)
    requires |m| == WORDS && ZeroLinks(m, [65428, 0], Some(65428))
    ensures var ops := [Malloc(100), Malloc(100), Free(65430)];
            LegalRun(Initial, ops) && Run(Initial, ops) == State(Split3, [65428, 0])
    ensures RemoveAsWritten(m, Some(65428), 65428) == (m, None) && FreeAndFits(Split3, 0, 104)
  {
    hide Run, LegalRun;
    SplitRun();
    assert ZeroLinksAt(m, [65428, 0], 0);
  }

  // ---- the search ----

  datatype Found = NullHead | Nothing | Block(s: int)

  // The loop of kmalloc as written. It starts at the next word of the head, takes 0 for the end of
  // the list, and tests block 0 before it stops there; an empty list has no head to start from.
  function SearchAsWritten(t: Tiles, fl: seq<int>, need: int): Found {
    if fl == [] then NullHead else SearchFrom(t, fl, 1, need)
  }

  function SearchFrom(t: Tiles, fl: seq<int>, i: int, need: int): Found
    requires 0 <= i <= |fl|
    decreases |fl| - i
  {
    var b := if i < |fl| then fl[i] else 0;
    if b in t && t[b].size >= need then Block(b)
    else if b == 0 || i == |fl| then Nothing
    else SearchFrom(t, fl, i + 1, need)
  }

  predicate FreeAndFits(t: Tiles, s: int, need: int) {
    s in t && !t[s].alloc && t[s].size >= need
  }

  // What kmalloc needs of its search: a free block that fits, or nothing when there is none.
  ghost predicate GoodAnswer(t: Tiles, r: Found, need: int) {
    match r
    case NullHead => false
    case Nothing => forall s :: !FreeAndFits(t, s, need)
    case Block(s) => FreeAndFits(t, s, need)
  }

  // A listed block that fits, with the loop not stopped at block 0 on the way to it.
  ghost predicate ListedFit(t: Tiles, fl: seq<int>, from: int, need: int)
    requires 0 <= from <= |fl|
  {
    exists j | from <= j < |fl| :: FreeAndFits(t, fl[j], need) && 0 !in fl[from..j]
  }

  lemma {:induction false} SearchFromExact(t: Tiles, fl: seq<int>, i: int, need: int)
    requires Covering(t) && ListsFree(t, fl) && 0 <= i <= |fl|
    ensures var r := SearchFrom(t, fl, i, need);
            && r != NullHead
            && (r.Block? ==> r.s in t && t[r.s].size >= need && (r.s == 0 || r.s in fl))
            && (ListedFit(t, fl, i, need) ==> r.Block? && FreeAndFits(t, r.s, need))
            && (!ListedFit(t, fl, i, need) ==> r == if t[0].size >= need then Block(0) else Nothing)
    decreases |fl| - i
  {
    hide Covering;
    assert 0 in t by { CoveringZero(t); }
    if i < |fl| {
      var b := fl[i];
      assert b in fl;
      if t[b].size >= need {
        assert FreeAndFits(t, fl[i], need) && 0 !in fl[i..i];
      } else if b == 0 {
        forall j | i <= j < |fl| && FreeAndFits(t, fl[j], need) ensures 0 in fl[i..j] {
          assert fl[i..j][0] == 0;
        }
      } else {
        SearchFromExact(t, fl, i + 1, need);
        forall j | i < j < |fl| ensures fl[i..j] == [b] + fl[i + 1..j] {}
        assert ListedFit(t, fl, i, need) <==> ListedFit(t, fl, i + 1, need) by {
          if ListedFit(t, fl, i, need) {
            var j :| i <= j < |fl| && FreeAndFits(t, fl[j], need) && 0 !in fl[i..j];
            assert j > i && 0 !in fl[i + 1..j];
          }
          if ListedFit(t, fl, i + 1, need) {
            var j :| i + 1 <= j < |fl| && FreeAndFits(t, fl[j], need) && 0 !in fl[i + 1..j];
            assert 0 !in fl[i..j];
          }
        }
      }
    }
  }

  lemma CoveringZero(t: Tiles)
    requires Covering(t)
    ensures 0 in t
  {
  }

  // The search as written answers as it should exactly when the list has a head and a listed block
  // past the head fits before the loop meets block 0, or block 0 is free and fits, or neither block
  // 0 nor any free block fits.
  lemma SearchAsWrittenExact(t: Tiles, fl: seq<int>, need: int)
    requires Covering(t) && ListsFree(t, fl)
    ensures GoodAnswer(t, SearchAsWritten(t, fl, need), need) <==>
            && fl != []
            && (|| ListedFit(t, fl, 1, need)
                || FreeAndFits(t, 0, need)
                || (0 in t && t[0].size < need && forall s :: !FreeAndFits(t, s, need)))
  {
    hide Covering;
    CoveringZero(t);
    if fl != [] {
      SearchFromExact(t, fl, 1, need);
    }
  }

  // Three calls reach a heap with block 0 in use and one free block, which is the head of the list.
  const Tiles1: Tiles := map[0 := Tile(8, false), 8 := Tile(65524, true)]
  const Tiles2: Tiles := map[0 := Tile(8, true), 8 := Tile(65524, true)]
  const Tiles3: Tiles := map[0 := Tile(8, true), 8 := Tile(65524, false)]

  lemma FirstCall()
    ensures Step(Initial, Malloc(65522)) == State(Tiles1, [0])
  {
    assert RequestSize(65522) == 65524 && Drop([0], 0) == [];
    assert FirstFit(Initial.tiles, [0], 65524) == 0;
    assert Place(Initial.tiles, 0, 65524) == Tiles1;
  }

  lemma SecondCall()
    ensures Step(State(Tiles1, [0]), Malloc(6)) == State(Tiles2, [])
  {
    assert RequestSize(6) == 8 && Drop([0], 0) == [];
    assert FirstFit(Tiles1, [0], 8) == 0;
    assert Place(Tiles1, 0, 8) == Tiles2;
  }

  lemma ThirdCall()
    ensures Step(State(Tiles2, []), Free(10)) == State(Tiles3, [8])
  {
    NoFreeLeft(Tiles2, 8);
    assert Merge(Tiles2, 8, END) == Tiles3;
  }

  lemma ThreeCalls()
    ensures LegalRun(Initial, [Malloc(65522), Malloc(6), Free(10)])
    ensures Run(Initial, [Malloc(65522), Malloc(6), Free(10)]) == State(Tiles3, [8])
  {
    hide Step;
    FirstCall();
    SecondCall();
    ThirdCall();
    var ops := [Malloc(65522), Malloc(6), Free(10)];
    assert ops[1..] == [Malloc(6), Free(10)] && [Malloc(6), Free(10)][1..] == [Free(10)] && [Free(10)][1..] == [];
    assert LegalRun(State(Tiles3, [8]), []) && LegalRun(State(Tiles2, []), [Free(10)]);
  }

  // There a request that needs 8 bytes is given block 0, which is in use, and one that needs 100 is
  // refused although the free block has room.
  lemma SearchAsWrittenFails()
    ensures var st := State(Tiles3, [8]);
            && LegalRun(Initial, [Malloc(65522), Malloc(6), Free(10)])
            && Run(Initial, [Malloc(65522), Malloc(6), Free(10)]) == st
            && SearchAsWritten(st.tiles, st.fl, 8) == Block(0) && Live(st, 0)
            && SearchAsWritten(st.tiles, st.fl, 100) == Nothing && FreeAndFits(st.tiles, 8, 100)
  {
    hide Run, LegalRun;
    ThreeCalls();
  }

  // ---- the end header ----

  // The words after init_kheap as written: a size for the first block, and nothing else.
  ghost predicate InitialAsWritten(m: Words) {
    |m| == WORDS && m[0] == WithSize(0, MAX_ALLOC) && forall i | 0 < i < WORDS :: m[i] == 0
  }

  // With an end header that reads free, coalesce sees the state of the right neighbour of s exactly
  // when s is not the last block.
  lemma EndHeaderAsWrittenExact(f: Tags, t: Tiles, s: int)
    requires Covering(t) && Headers(f, t) && !f(END).alloc && s in t
    ensures (f(Right(t, s)).alloc <==> MergeHi(t, s) == Right(t, s)) <==> Right(t, s) != END
  {
    var r := Right(t, s);
    assert Boundary(t, r);
    if r in t {
      assert Boundary(t, Right(t, r));
    }
  }

  lemma InitialEndTag(m: Words)
    requires InitialAsWritten(m)
    ensures TagView(m)(END) == Tag(0, false, false)
  {
    assert W(m, END) == 0;
  }

  // The block of the first request is the last one.
  lemma FirstBlock(n: int)
    requires MallocResult(Initial.tiles, [0], n).Some?
    ensures var s := MallocResult(Initial.tiles, [0], n).value - 2; var t := MallocTiles(Initial.tiles, [0], n);
            s in t && t[s].alloc && Right(t, s) == END && END !in t
  {
    hide RequestSize;
  }

  // Whatever the first request is, freeing its block takes the end header for a free block, whose
  // link words lie past the end of kmem.
  lemma FirstFreeAsWritten(m: Words, n: int, f: Tags)
    requires InitialAsWritten(m) && MallocResult(Initial.tiles, [0], n).Some?
    requires SplitTags(TagView(m), f, Initial.tiles, 0, RequestSize(n)) || WholeTags(TagView(m), f, Initial.tiles, 0)
    ensures var s := MallocResult(Initial.tiles, [0], n).value - 2; var t := MallocTiles(Initial.tiles, [0], n);
            s in t && t[s].alloc && Right(t, s) == END && MergeHi(t, s) == END
    ensures !f(END).alloc && (END + 2) / 2 >= WORDS
  {
    hide RequestSize, TagView, SameTags, MallocResult, MallocTiles;
    FirstBlock(n);
    InitialEndTag(m);
    assert Right(Initial.tiles, 0) == END;
  }
}
