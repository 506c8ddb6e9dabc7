/** The abstract heap behind kernel/memory/kmalloc.cpp: a map from block offset to
    block, the two rewrites that `place` and `coalesce` perform on it, and what
    those rewrites keep, undo and conserve. */
module KheapTiling {

  // Offset of the allocated end header; also the size of the initial free block
  // (MAX_ALLOC with the two flag bits masked off).
  const END := 65532
  const MIN_BLOCK_SIZE := 8

  datatype Tile = Tile(size: int, alloc: bool)
  type Tiles = map<int, Tile>

  function Right(t: Tiles, s: int): int
    requires s in t
  {
    s + t[s].size
  }

  ghost predicate Boundary(t: Tiles, x: int) {
    x == END || x in t
  }

  ghost predicate Shaped(t: Tiles) {
    forall s | s in t :: 0 <= s && MIN_BLOCK_SIZE <= t[s].size && s + t[s].size <= END
  }

  ghost predicate Chained(t: Tiles) {
    forall s {:trigger Right(t, s)} | s in t :: Boundary(t, Right(t, s))
  }

  ghost predicate Disjoint(t: Tiles) {
    forall s, u | s in t && u in t && s < u :: s + t[s].size <= u
  }

  // The blocks of t lie end to end from 0 to END.
  ghost predicate Covering(t: Tiles) {
    0 in t && Shaped(t) && Chained(t) && Disjoint(t)
  }

  predicate Quad(x: int) { x % 4 == 0 }

  ghost predicate Aligned(t: Tiles) {
    forall s | s in t :: Quad(s) && Quad(t[s].size)
  }

  lemma QuadSum(a: int, b: int)
    requires Quad(a) && Quad(b)
    ensures Quad(a + b) && Quad(a - b)
  {
    var i, j := a / 4, b / 4;
    assert a + b == 4 * (i + j) && a - b == 4 * (i - j);
    QuadTimes(i + j);
    QuadTimes(i - j);
  }

  lemma QuadTimes(i: int)
    ensures Quad(4 * i)
  {
  }

  // ---- single facts about a tiling ----

  lemma BlockAt(t: Tiles, s: int)
    requires Covering(t) && s in t
    ensures 0 <= s && MIN_BLOCK_SIZE <= t[s].size && Right(t, s) <= END && Boundary(t, Right(t, s))
  {
  }

  lemma InOrder(t: Tiles, s: int, u: int)
    requires Covering(t) && s in t && u in t
    ensures s < u ==> Right(t, s) <= u
    ensures u < s ==> Right(t, u) <= s
    ensures s != u ==> Right(t, s) != Right(t, u)
  {
    hide Chained;
  }

  lemma NotBothFree(t: Tiles, s: int)
    requires Coalesced(t) && s in t && Right(t, s) in t
    ensures t[s].alloc || t[Right(t, s)].alloc
  {
  }

  // No two adjacent free blocks.
  ghost predicate Coalesced(t: Tiles) {
    forall s, u | s in t && u in t && u == s + t[s].size :: t[s].alloc || t[u].alloc
  }

  ghost predicate Tiling(t: Tiles) {
    Covering(t) && Aligned(t) && Coalesced(t)
  }

  // Every byte below END belongs to exactly one block.
  lemma {:induction false} EveryByteCovered(t: Tiles, from: int, x: int) returns (s: int)
    requires Covering(t)
    requires from in t && from <= x < END
    ensures s in t && s <= x < Right(t, s)
    ensures forall u :: u in t && u <= x < u + t[u].size ==> u == s
    decreases END - from
  {
    if x < Right(t, from) {
      s := from;
    } else {
      assert Boundary(t, Right(t, from));
      s := EveryByteCovered(t, Right(t, from), x);
    }
  }

  // ---- replacing the blocks of one region ----

  // t and t' have the same blocks outside [lo, hi).
  ghost predicate AgreeOutside(t: Tiles, t': Tiles, lo: int, hi: int) {
    forall u | u < lo || hi <= u :: (u in t <==> u in t') && (u in t ==> t[u] == t'[u])
  }

  ghost predicate ShapedInside(t: Tiles, lo: int, hi: int) {
    forall u | u in t && lo <= u < hi :: MIN_BLOCK_SIZE <= t[u].size && u + t[u].size <= hi
  }

  ghost predicate ChainedInside(t: Tiles, lo: int, hi: int) {
    forall u {:trigger Right(t, u)} | u in t && lo <= u < hi :: Right(t, u) == hi || Right(t, u) in t
  }

  ghost predicate DisjointInside(t: Tiles, lo: int, hi: int) {
    forall u, v | u in t && v in t && lo <= u < v < hi :: u + t[u].size <= v
  }

  // t' arises from t by giving the region [lo, hi) other blocks that tile it.
  ghost predicate Spliced(t: Tiles, t': Tiles, lo: int, hi: int) {
    && lo in t && lo in t' && 0 <= lo < hi <= END && Boundary(t, hi)
    && AgreeOutside(t, t', lo, hi)
    && ShapedInside(t', lo, hi) && ChainedInside(t', lo, hi) && DisjointInside(t', lo, hi)
  }

  lemma SpliceChained(t: Tiles, t': Tiles, lo: int, hi: int)
    requires Covering(t) && Spliced(t, t', lo, hi)
    ensures Chained(t')
  {
    hide Covering, ShapedInside, DisjointInside;
    forall u {:trigger Right(t', u)} | u in t' ensures Boundary(t', Right(t', u)) {
      if u < lo || hi <= u {
        BlockAt(t, u);
        InOrder(t, u, lo);
      }
    }
  }

  lemma SpliceDisjoint(t: Tiles, t': Tiles, lo: int, hi: int)
    requires Covering(t) && Spliced(t, t', lo, hi)
    ensures Disjoint(t')
  {
    hide Covering, ChainedInside;
    forall u, v | u in t' && v in t' && u < v ensures Right(t', u) <= v {
      if u < lo {
        InOrder(t, u, lo);
        if v < lo { InOrder(t, u, v); }
      } else if hi <= u {
        InOrder(t, u, v);
      }
    }
  }

  lemma SpliceShaped(t: Tiles, t': Tiles, lo: int, hi: int)
    requires Covering(t) && Spliced(t, t', lo, hi)
    ensures Shaped(t') && 0 in t'
  {
    hide Chained, Disjoint, ChainedInside, DisjointInside;
  }

  lemma SpliceCovering(t: Tiles, t': Tiles, lo: int, hi: int)
    requires Covering(t) && Spliced(t, t', lo, hi)
    ensures Covering(t')
  {
    hide Spliced, Shaped, Chained, Disjoint;
    SpliceShaped(t, t', lo, hi);
    SpliceChained(t, t', lo, hi);
    SpliceDisjoint(t, t', lo, hi);
  }

  // No two free neighbours around u.
  ghost predicate CoalescedAt(t: Tiles, u: int) {
    u in t && Right(t, u) in t ==> t[u].alloc || t[Right(t, u)].alloc
  }

  // Across a splice only the pairs that touch the region need looking at.
  lemma SpliceCoalesced(t: Tiles, t': Tiles, lo: int, hi: int)
    requires Covering(t) && Coalesced(t) && Spliced(t, t', lo, hi)
    requires forall u | u in t && Right(t, u) == lo :: t[u].alloc || t'[lo].alloc
    requires forall u {:trigger CoalescedAt(t', u)} | lo <= u < hi :: CoalescedAt(t', u)
    ensures Coalesced(t')
  {
    hide Covering, Coalesced, ShapedInside, ChainedInside, DisjointInside;
    forall u | u in t' ensures CoalescedAt(t', u) {
      if u < lo {
        InOrder(t, u, lo);
        if Right(t, u) in t { NotBothFree(t, u); }
      } else if hi <= u {
        BlockAt(t, u);
        if Right(t, u) in t { NotBothFree(t, u); }
      }
    }
    CoalescedEach(t');
  }

  lemma CoalescedEach(t: Tiles)
    requires forall u | u in t :: CoalescedAt(t, u)
    ensures Coalesced(t)
  {
    forall s, u | s in t && u in t && u == s + t[s].size ensures t[s].alloc || t[u].alloc {
      assert CoalescedAt(t, s);
    }
  }

  // ---- place ----

  // Allocates n bytes at the right end of free block s, or all of s when the rest is too small.
  function Place(t: Tiles, s: int, n: int): Tiles
    requires s in t
  {
    if t[s].size - n >= MIN_BLOCK_SIZE
    then t[s := Tile(t[s].size - n, false)][Right(t, s) - n := Tile(n, true)]
    else t[s := Tile(t[s].size, true)]
  }

  function PlacedAt(t: Tiles, s: int, n: int): int
    requires s in t
  {
    if t[s].size - n >= MIN_BLOCK_SIZE then Right(t, s) - n else s
  }

  ghost predicate CanPlace(t: Tiles, s: int, n: int) {
    s in t && !t[s].alloc && MIN_BLOCK_SIZE <= n <= t[s].size
  }

  // The blocks of the stretch of s afterwards.
  lemma PlaceStretch(t: Tiles, s: int, n: int, u: int)
    requires Covering(t) && CanPlace(t, s, n) && u in Place(t, s, n) && s <= u < Right(t, s)
    ensures u == s || u == PlacedAt(t, s, n)
  {
    hide Covering;
    if u in t { InOrder(t, s, u); }
  }

  lemma PlaceInside(t: Tiles, s: int, n: int)
    requires Covering(t) && CanPlace(t, s, n)
    ensures var t', r := Place(t, s, n), Right(t, s);
            ShapedInside(t', s, r) && ChainedInside(t', s, r) && DisjointInside(t', s, r)
  {
    hide Covering;
    var t', r := Place(t, s, n), Right(t, s);
    forall u | u in t' && s <= u < r ensures u == s || u == PlacedAt(t, s, n) { PlaceStretch(t, s, n, u); }
  }

  lemma PlaceSplices(t: Tiles, s: int, n: int)
    requires Covering(t) && CanPlace(t, s, n)
    ensures Spliced(t, Place(t, s, n), s, Right(t, s))
  {
    hide Covering, ShapedInside, ChainedInside, DisjointInside;
    BlockAt(t, s);
    PlaceInside(t, s, n);
    assert AgreeOutside(t, Place(t, s, n), s, Right(t, s));
  }

  lemma PlaceAligned(t: Tiles, s: int, n: int)
    requires Aligned(t) && s in t && Quad(n)
    ensures Aligned(Place(t, s, n))
  {
    hide Quad;
    QuadSum(t[s].size, n);
    QuadSum(s, t[s].size);
    QuadSum(Right(t, s), n);
  }

  lemma PlaceCoalesced(t: Tiles, s: int, n: int)
    requires Covering(t) && Coalesced(t) && CanPlace(t, s, n)
    ensures Covering(Place(t, s, n)) && Coalesced(Place(t, s, n))
  {
    hide Covering, Coalesced, Spliced;
    var t', r := Place(t, s, n), Right(t, s);
    PlaceSplices(t, s, n);
    SpliceCovering(t, t', s, r);
    forall u {:trigger CoalescedAt(t', u)} | s <= u < r ensures CoalescedAt(t', u) {
      if u in t' { PlaceStretch(t, s, n, u); }
      if r in t { NotBothFree(t, s); }
    }
    forall u | u in t && Right(t, u) == s ensures t[u].alloc || t'[s].alloc { NotBothFree(t, u); }
    SpliceCoalesced(t, t', s, r);
  }

  lemma PlaceKeepsTiling(t: Tiles, s: int, n: int)
    requires Tiling(t) && CanPlace(t, s, n) && Quad(n)
    ensures Tiling(Place(t, s, n))
    ensures PlacedAt(t, s, n) in Place(t, s, n)
  {
    hide Covering, Coalesced, Aligned, Quad;
    PlaceAligned(t, s, n);
    PlaceCoalesced(t, s, n);
  }

  // ---- coalesce ----

  ghost predicate FreeLeft(t: Tiles, s: int, l: int) {
    l in t && Right(t, l) == s && !t[l].alloc
  }

  // Where the free block made by freeing s starts and ends.
  ghost function MergeLo(t: Tiles, s: int): int {
    if exists l :: FreeLeft(t, s, l) then var l :| FreeLeft(t, s, l); l else s
  }

  ghost function MergeHi(t: Tiles, s: int): int
    requires s in t
  {
    var r := Right(t, s);
    if r in t && !t[r].alloc then Right(t, r) else r
  }

  ghost function Merge(t: Tiles, lo: int, hi: int): Tiles {
    (map s | s in t && !(lo <= s < hi) :: t[s])[lo := Tile(hi - lo, false)]
  }

  ghost function Release(t: Tiles, s: int): Tiles
    requires s in t
  {
    Merge(t, MergeLo(t, s), MergeHi(t, s))
  }

  lemma FreeLeftUnique(t: Tiles, s: int, l: int)
    requires Covering(t) && FreeLeft(t, s, l)
    ensures MergeLo(t, s) == l
  {
    assert FreeLeft(t, s, MergeLo(t, s));
  }

  lemma NoFreeLeft(t: Tiles, s: int)
    requires forall l | l in t && l + t[l].size == s :: t[l].alloc
    ensures MergeLo(t, s) == s
  {
  }

  lemma NeighboursOfMerge(t: Tiles, s: int)
    requires Covering(t) && Coalesced(t) && s in t && t[s].alloc
    ensures var lo, hi := MergeLo(t, s), MergeHi(t, s);
            && lo in t && lo <= s < hi <= END && Boundary(t, hi)
            && (forall u | u in t && u + t[u].size == lo :: t[u].alloc)
            && (hi in t ==> t[hi].alloc)
  {
    var lo, r := MergeLo(t, s), Right(t, s);
    assert Boundary(t, r);
    if lo != s { assert FreeLeft(t, s, lo); }
    forall u | u in t && u + t[u].size == lo ensures t[u].alloc {
      if lo == s && !t[u].alloc { assert FreeLeft(t, s, u); }
    }
    if r in t { assert Boundary(t, Right(t, r)); }
  }

  lemma MergeSplices(t: Tiles, lo: int, hi: int)
    requires Covering(t) && lo in t && lo < hi <= END && Boundary(t, hi)
    ensures Spliced(t, Merge(t, lo, hi), lo, hi)
  {
    hide Covering;
    BlockAt(t, lo);
    if hi in t { InOrder(t, lo, hi); }
    assert MIN_BLOCK_SIZE <= hi - lo;
  }

  lemma MergeKeepsTiling(t: Tiles, lo: int, hi: int)
    requires Covering(t) && Coalesced(t) && lo in t && lo < hi <= END && Boundary(t, hi)
    requires forall u | u in t && u + t[u].size == lo :: t[u].alloc
    requires hi in t ==> t[hi].alloc
    ensures Covering(Merge(t, lo, hi)) && Coalesced(Merge(t, lo, hi))
  {
    hide Covering, Coalesced, Spliced;
    var t' := Merge(t, lo, hi);
    MergeSplices(t, lo, hi);
    SpliceCovering(t, t', lo, hi);
    SpliceCoalesced(t, t', lo, hi);
  }

  lemma MergeAligned(t: Tiles, lo: int, hi: int)
    requires Aligned(t) && lo in t && Boundary(t, hi)
    ensures Aligned(Merge(t, lo, hi))
  {
    hide Quad;
    assert Quad(END) by { QuadTimes(16383); }
    QuadSum(hi, lo);
  }

  lemma ReleaseKeepsTiling(t: Tiles, s: int)
    requires Tiling(t) && s in t && t[s].alloc
    ensures Tiling(Release(t, s))
  {
    hide Covering, Coalesced, Aligned, MergeLo, MergeHi;
    NeighboursOfMerge(t, s);
    MergeKeepsTiling(t, MergeLo(t, s), MergeHi(t, s));
    MergeAligned(t, MergeLo(t, s), MergeHi(t, s));
  }

  // kfree straight after kmalloc restores the tiling it started from.
  lemma ReleaseUndoesPlace(t: Tiles, s: int, n: int)
    requires Covering(t) && Coalesced(t) && CanPlace(t, s, n)
    ensures PlacedAt(t, s, n) in Place(t, s, n)
    ensures Release(Place(t, s, n), PlacedAt(t, s, n)) == t
  {
    hide Covering, Coalesced, MergeLo, MergeHi;
    PlacedStretch(t, s, n);
    assert Merge(Place(t, s, n), s, Right(t, s)) == t by { MergePlaced(t, s, n); }
  }

  // Freeing the placed block takes back the stretch of the block it was cut from.
  lemma PlacedStretch(t: Tiles, s: int, n: int)
    requires Covering(t) && Coalesced(t) && CanPlace(t, s, n)
    ensures var t', a := Place(t, s, n), PlacedAt(t, s, n);
            a in t' && MergeHi(t', a) == Right(t, s) && MergeLo(t', a) == s
  {
    hide Covering, Coalesced, MergeLo;
    var t', a, r := Place(t, s, n), PlacedAt(t, s, n), Right(t, s);
    BlockAt(t, s);
    if r in t { NotBothFree(t, s); }
    if a != s {
      PlaceCoalesced(t, s, n);
      FreeLeftUnique(t', a, s);
    } else {
      forall l | l in t' && l + t'[l].size == s ensures t'[l].alloc {
        BlockAt(t, l);
        NotBothFree(t, l);
      }
      NoFreeLeft(t', s);
    }
  }

  lemma MergePlaced(t: Tiles, s: int, n: int)
    requires Covering(t) && CanPlace(t, s, n)
    ensures Merge(Place(t, s, n), s, Right(t, s)) == t
  {
  }

  // With nothing allocated the heap is the single free block it started as.
  lemma AllFreeIsInitial(t: Tiles)
    requires Covering(t) && Coalesced(t)
    requires forall s | s in t :: !t[s].alloc
    ensures t == map[0 := Tile(END, false)]
  {
    assert Boundary(t, Right(t, 0));
    assert Right(t, 0) == END;
    assert forall s | s in t :: s == 0;
  }

  // Neither rewrite touches another allocated block.
  lemma PlaceKeepsLive(t: Tiles, s: int, n: int, u: int)
    requires Covering(t) && CanPlace(t, s, n) && u in t && t[u].alloc
    ensures u in Place(t, s, n) && Place(t, s, n)[u] == t[u]
  {
    hide Chained;
    assert u != PlacedAt(t, s, n);
  }

  lemma ReleaseKeepsLive(t: Tiles, s: int, u: int)
    requires Covering(t) && Coalesced(t) && s in t && t[s].alloc && u in t && t[u].alloc && u != s
    ensures u in Release(t, s) && Release(t, s)[u] == t[u]
  {
    hide Chained, MergeLo;
    NeighboursOfMerge(t, s);
    var lo, hi := MergeLo(t, s), MergeHi(t, s);
    assert lo == s || FreeLeft(t, s, lo) by { MergeLoCases(t, s); }
    assert !(lo <= u < hi);
  }

  lemma MergeLoCases(t: Tiles, s: int)
    ensures MergeLo(t, s) == s || FreeLeft(t, s, MergeLo(t, s))
  {
  }

  // ---- bytes_allocated ----

  // The sizes of the allocated blocks from boundary x on, met in address order.
  ghost function AllocatedFrom(t: Tiles, x: int): int
    requires Covering(t) && Boundary(t, x)
    decreases END - x
  {
    if x !in t then 0
    else
      assert Boundary(t, Right(t, x));
      (if t[x].alloc then t[x].size else 0) + AllocatedFrom(t, Right(t, x))
  }

  lemma {:induction false} AllocatedBounds(t: Tiles, x: int)
    requires Covering(t) && Boundary(t, x)
    ensures 0 <= AllocatedFrom(t, x) <= END - x
    decreases END - x
  {
    if x in t {
      assert Boundary(t, Right(t, x));
      AllocatedBounds(t, Right(t, x));
    }
  }

  // Two tilings that agree from x on have the same total from x on.
  lemma {:induction false} AllocatedSameFrom(t: Tiles, t': Tiles, x: int)
    requires Covering(t) && Covering(t') && Boundary(t, x)
    requires forall u | u >= x :: (u in t <==> u in t') && (u in t ==> t[u] == t'[u])
    ensures Boundary(t', x) && AllocatedFrom(t', x) == AllocatedFrom(t, x)
    decreases END - x
  {
    if x in t {
      assert Boundary(t, Right(t, x));
      AllocatedSameFrom(t, t', Right(t, x));
    }
  }

  // Two tilings that agree below s, both with a block at s, differ in total as they do from s on.
  lemma {:induction false} AllocatedDiff(t: Tiles, t': Tiles, x: int, s: int)
    requires Covering(t) && Covering(t') && s in t && s in t'
    requires x in t && x <= s
    requires forall u | u < s :: (u in t <==> u in t') && (u in t ==> t[u] == t'[u])
    ensures x in t'
    ensures AllocatedFrom(t', x) - AllocatedFrom(t, x) == AllocatedFrom(t', s) - AllocatedFrom(t, s)
    decreases END - x
  {
    if x < s {
      var y := Right(t, x);
      assert Boundary(t, y) && y <= s;
      AllocatedDiff(t, t', y, s);
      assert Right(t', x) == y;
      assert AllocatedFrom(t', x) - AllocatedFrom(t, x) == AllocatedFrom(t', y) - AllocatedFrom(t, y);
    }
  }

  // A splice changes the total by what it changes inside the region.
  lemma AllocatedAfterSplice(t: Tiles, t': Tiles, lo: int, hi: int)
    requires Covering(t) && Covering(t') && Spliced(t, t', lo, hi)
    ensures Boundary(t', hi) && AllocatedFrom(t, hi) == AllocatedFrom(t', hi)
    ensures AllocatedFrom(t', 0) - AllocatedFrom(t, 0) == AllocatedFrom(t', lo) - AllocatedFrom(t, lo)
  {
    AllocatedSameFrom(t, t', hi);
    AllocatedDiff(t, t', 0, lo);
  }

  lemma AllocatedAfterPlace(t: Tiles, s: int, n: int)
    requires Covering(t) && CanPlace(t, s, n)
    ensures Covering(Place(t, s, n)) && PlacedAt(t, s, n) in Place(t, s, n)
    ensures AllocatedFrom(Place(t, s, n), 0)
            == AllocatedFrom(t, 0) + Place(t, s, n)[PlacedAt(t, s, n)].size
  {
    var t', a, r := Place(t, s, n), PlacedAt(t, s, n), Right(t, s);
    PlaceSplices(t, s, n);
    SpliceCovering(t, t', s, r);
    AllocatedAfterSplice(t, t', s, r);
    assert AllocatedFrom(t, s) == AllocatedFrom(t, r);
    assert Right(t', a) == r;
    if a != s { assert Right(t', s) == a; }
  }

  lemma AllocatedInMerge(t: Tiles, s: int)
    requires Covering(t) && Coalesced(t) && s in t && t[s].alloc
    ensures var lo, hi := MergeLo(t, s), MergeHi(t, s);
            lo in t && Boundary(t, hi) && AllocatedFrom(t, lo) == t[s].size + AllocatedFrom(t, hi)
  {
    NeighboursOfMerge(t, s);
    var lo, r := MergeLo(t, s), Right(t, s);
    assert Boundary(t, r);
    if lo != s {
      assert FreeLeft(t, s, lo);
      assert AllocatedFrom(t, lo) == AllocatedFrom(t, s);
    }
    if r in t && !t[r].alloc { assert AllocatedFrom(t, r) == AllocatedFrom(t, Right(t, r)); }
  }

  lemma AllocatedAfterRelease(t: Tiles, s: int)
    requires Covering(t) && Coalesced(t) && s in t && t[s].alloc
    ensures Covering(Release(t, s))
    ensures AllocatedFrom(Release(t, s), 0) == AllocatedFrom(t, 0) - t[s].size
  {
    var t', lo, hi := Release(t, s), MergeLo(t, s), MergeHi(t, s);
    NeighboursOfMerge(t, s);
    MergeSplices(t, lo, hi);
    SpliceCovering(t, t', lo, hi);
    AllocatedAfterSplice(t, t', lo, hi);
    AllocatedInMerge(t, s);
    assert Right(t', lo) == hi && AllocatedFrom(t', lo) == AllocatedFrom(t', hi);
  }
}
