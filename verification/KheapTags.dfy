/** Boundary tags: headers, left bits, footers and the end header, and how the writes of
    `place` and `coalesce` keep them in step with the tiling. Tags are read through a
    function from offset to decoded header. */
module KheapTags {
  import opened KheapTiling

  datatype Tag = Tag(size: int, alloc: bool, left: bool)
  type Tags = int -> Tag

  ghost predicate Headers(f: Tags, t: Tiles) {
    forall s | s in t :: f(s).size == t[s].size && f(s).alloc == t[s].alloc
  }

  // The left-allocated bit of each block, and of the end header, is its left neighbour's state.
  ghost predicate LeftBits(f: Tags, t: Tiles) {
    && (forall s {:trigger Right(t, s)} | s in t :: f(Right(t, s)).left == t[s].alloc)
    && (0 in t && t[0].alloc ==> f(0).left)
  }

  // A free block's footer is a copy of its header.
  ghost predicate Footers(f: Tags, t: Tiles) {
    forall s | s in t && !t[s].alloc :: f(s + t[s].size - 2) == f(s)
  }

  ghost predicate Tagged(f: Tags, t: Tiles) {
    Headers(f, t) && LeftBits(f, t) && Footers(f, t) && f(END).alloc
  }

  lemma TaggedAt(f: Tags, t: Tiles, s: int)
    requires Tagged(f, t) && s in t
    ensures f(s).size == t[s].size && f(s).alloc == t[s].alloc && f(Right(t, s)).left == t[s].alloc
    ensures !t[s].alloc ==> f(s + t[s].size - 2) == f(s)
  {
  }

  // f and f' agree on every header and footer of t except those at the offsets in x.
  ghost predicate SameTags(f: Tags, f': Tags, t: Tiles, x: set<int>) {
    && (forall u | u in t && u !in x :: f'(u) == f(u))
    && (forall u | u in t && !t[u].alloc && u + t[u].size - 2 !in x ::
          f'(u + t[u].size - 2) == f(u + t[u].size - 2))
    && (END !in x ==> f'(END) == f(END))
  }

  lemma TagsSurvive(f: Tags, f': Tags, t: Tiles)
    requires Covering(t) && Tagged(f, t) && SameTags(f, f', t, {})
    ensures Tagged(f', t)
  {
    forall u {:trigger Right(t, u)} | u in t ensures f'(Right(t, u)).left == t[u].alloc {
      assert Boundary(t, Right(t, u));
    }
  }

  // ---- place ----

  // What `place` leaves behind when it splits s and allocates its last n bytes.
  ghost predicate SplitTags(f: Tags, f': Tags, t: Tiles, s: int, n: int)
    requires s in t
  {
    var r := Right(t, s);
    && f'(r - n) == Tag(n, true, false)
    && f'(s) == Tag(t[s].size - n, false, f(s).left)
    && f'(r - n - 2) == f'(s)
    && f'(r) == f(r).(left := true)
    && SameTags(f, f', t, {s, r - n, r - n - 2, r, r - 2})
  }

  lemma SplitTagged(f: Tags, f': Tags, t: Tiles, s: int, n: int)
    requires Covering(t) && Coalesced(t) && Tagged(f, t) && CanPlace(t, s, n)
    requires t[s].size - n >= MIN_BLOCK_SIZE && SplitTags(f, f', t, s, n)
    ensures Tagged(f', Place(t, s, n))
  {
    hide Covering, Coalesced, Headers, LeftBits, Footers, Place;
    SplitHeaders(f, f', t, s, n);
    SplitLeftBits(f, f', t, s, n);
    SplitFooters(f, f', t, s, n);
    BlockAt(t, s);
  }

  // A block other than s starts before s, or at or after its end.
  lemma Elsewhere(t: Tiles, s: int, u: int)
    requires Covering(t) && s in t && u in t && u != s
    ensures MIN_BLOCK_SIZE <= t[u].size && MIN_BLOCK_SIZE <= t[s].size && Right(t, s) <= END
    ensures (u < s && Right(t, u) <= s) || Right(t, s) <= u
    ensures Right(t, u) != Right(t, s) && Boundary(t, Right(t, u))
  {
    hide Covering;
    BlockAt(t, s);
    BlockAt(t, u);
    InOrder(t, s, u);
  }

  lemma SplitHeaders(f: Tags, f': Tags, t: Tiles, s: int, n: int)
    requires Covering(t) && Headers(f, t) && CanPlace(t, s, n)
    requires t[s].size - n >= MIN_BLOCK_SIZE && SplitTags(f, f', t, s, n)
    ensures Headers(f', Place(t, s, n))
  {
    hide Covering;
    forall u | u in t && u != s && u != Right(t, s) ensures f'(u) == f(u) {
      Elsewhere(t, s, u);
    }
  }

  // A boundary other than s and its end keeps its tag in a split.
  lemma SplitBoundary(f: Tags, f': Tags, t: Tiles, s: int, n: int, v: int)
    requires Covering(t) && CanPlace(t, s, n) && SplitTags(f, f', t, s, n) && t[s].size - n >= MIN_BLOCK_SIZE
    requires Boundary(t, v) && v != s && v != Right(t, s)
    ensures f'(v) == f(v)
  {
    hide Covering;
    BlockAt(t, s);
    if v in t { Elsewhere(t, s, v); }
  }

  lemma LeftBitAt(f: Tags, t: Tiles, u: int)
    requires LeftBits(f, t) && u in t
    ensures f(Right(t, u)).left == t[u].alloc
  {
  }

  lemma SplitLeftBit(f: Tags, f': Tags, t: Tiles, s: int, n: int, u: int)
    requires Covering(t) && LeftBits(f, t) && CanPlace(t, s, n)
    requires t[s].size - n >= MIN_BLOCK_SIZE && SplitTags(f, f', t, s, n) && u in Place(t, s, n)
    ensures f'(Right(Place(t, s, n), u)).left == Place(t, s, n)[u].alloc
  {
    hide Covering, LeftBits;
    if u != s && u != Right(t, s) - n {
      Elsewhere(t, s, u);
      LeftBitAt(f, t, u);
      if Right(t, u) != s { SplitBoundary(f, f', t, s, n, Right(t, u)); }
    }
  }

  lemma SplitLeftBits(f: Tags, f': Tags, t: Tiles, s: int, n: int)
    requires Covering(t) && LeftBits(f, t) && CanPlace(t, s, n)
    requires t[s].size - n >= MIN_BLOCK_SIZE && SplitTags(f, f', t, s, n)
    ensures LeftBits(f', Place(t, s, n))
  {
    hide Covering, SplitTags;
    var t' := Place(t, s, n);
    forall u {:trigger Right(t', u)} | u in t' ensures f'(Right(t', u)).left == t'[u].alloc {
      SplitLeftBit(f, f', t, s, n, u);
    }
    if 0 in t' && t'[0].alloc {
      SplitFirst(f, f', t, s, n);
    }
  }

  // Block 0, if allocated, keeps its tag.
  lemma SplitFirst(f: Tags, f': Tags, t: Tiles, s: int, n: int)
    requires Covering(t) && LeftBits(f, t) && CanPlace(t, s, n)
    requires t[s].size - n >= MIN_BLOCK_SIZE && SplitTags(f, f', t, s, n)
    requires 0 in Place(t, s, n) && Place(t, s, n)[0].alloc
    ensures f'(0).left
  {
    hide Covering;
    BlockAt(t, s);
    if 0 in t && s != 0 { Elsewhere(t, s, 0); }
  }

  lemma SplitFooters(f: Tags, f': Tags, t: Tiles, s: int, n: int)
    requires Covering(t) && Coalesced(t) && Footers(f, t) && CanPlace(t, s, n)
    requires t[s].size - n >= MIN_BLOCK_SIZE && SplitTags(f, f', t, s, n)
    ensures Footers(f', Place(t, s, n))
  {
    hide Covering, Coalesced, SameTags;
    var t' := Place(t, s, n);
    forall u | u in t' && !t'[u].alloc && u != s ensures f'(u + t'[u].size - 2) == f'(u) {
      SplitFooter(f, f', t, s, n, u);
    }
  }

  // The footer of another free block, which does not start at the end of the free block s.
  lemma SplitFooter(f: Tags, f': Tags, t: Tiles, s: int, n: int, u: int)
    requires Covering(t) && Coalesced(t) && Footers(f, t) && CanPlace(t, s, n)
    requires t[s].size - n >= MIN_BLOCK_SIZE && SplitTags(f, f', t, s, n) && u in t && !t[u].alloc && u != s
    ensures f'(u + t[u].size - 2) == f'(u)
  {
    hide Covering, Coalesced;
    if Right(t, s) in t { NotBothFree(t, s); }
    Elsewhere(t, s, u);
  }

  // What `place` leaves behind when it allocates all of s.
  ghost predicate WholeTags(f: Tags, f': Tags, t: Tiles, s: int)
    requires s in t
  {
    var r := Right(t, s);
    && f'(s) == Tag(t[s].size, true, true)
    && f'(r) == f(r).(left := true)
    && SameTags(f, f', t, {s, r, r - 2})
  }

  lemma WholeLeftBits(f: Tags, f': Tags, t: Tiles, s: int)
    requires Covering(t) && Coalesced(t) && LeftBits(f, t) && s in t && !t[s].alloc && WholeTags(f, f', t, s)
    ensures LeftBits(f', t[s := Tile(t[s].size, true)])
  {
    hide Covering, Coalesced;
    var t', r := t[s := Tile(t[s].size, true)], Right(t, s);
    BlockAt(t, s);
    forall u {:trigger Right(t', u)} | u in t' && u != s ensures f'(Right(t', u)).left == t'[u].alloc {
      WholeLeftBit(f, f', t, s, u);
    }
    if 0 in t && s != 0 { Elsewhere(t, s, 0); }
  }

  // The left bit behind u; a block that ends at the free block s is allocated.
  lemma WholeLeftBit(f: Tags, f': Tags, t: Tiles, s: int, u: int)
    requires Covering(t) && Coalesced(t) && LeftBits(f, t) && s in t && !t[s].alloc && WholeTags(f, f', t, s)
    requires u in t && u != s
    ensures f'(Right(t, u)).left == t[u].alloc
  {
    hide Covering, Coalesced, LeftBits;
    var v := Right(t, u);
    Elsewhere(t, s, u);
    LeftBitAt(f, t, u);
    if v == s {
      NotBothFree(t, u);
    } else if v in t {
      Elsewhere(t, s, v);
    }
  }

  lemma WholeFooters(f: Tags, f': Tags, t: Tiles, s: int)
    requires Covering(t) && Coalesced(t) && Footers(f, t) && s in t && !t[s].alloc && WholeTags(f, f', t, s)
    ensures Footers(f', t[s := Tile(t[s].size, true)])
  {
    hide Covering, Coalesced;
    var t', r := t[s := Tile(t[s].size, true)], Right(t, s);
    if r in t { NotBothFree(t, s); }
    forall u | u in t' && !t'[u].alloc ensures f'(u + t'[u].size - 2) == f'(u) {
      Elsewhere(t, s, u);
    }
  }

  lemma WholeHeaders(f: Tags, f': Tags, t: Tiles, s: int)
    requires Covering(t) && Headers(f, t) && s in t && WholeTags(f, f', t, s)
    ensures Headers(f', t[s := Tile(t[s].size, true)])
  {
    hide Covering;
    forall u | u in t && u != s && u != Right(t, s) ensures f'(u) == f(u) { Elsewhere(t, s, u); }
  }

  lemma WholeTagged(f: Tags, f': Tags, t: Tiles, s: int)
    requires Covering(t) && Coalesced(t) && Tagged(f, t)
    requires s in t && !t[s].alloc && WholeTags(f, f', t, s)
    ensures Tagged(f', t[s := Tile(t[s].size, true)])
  {
    hide Covering, Coalesced, Headers, LeftBits, Footers;
    BlockAt(t, s);
    WholeHeaders(f, f', t, s);
    WholeLeftBits(f, f', t, s);
    WholeFooters(f, f', t, s);
  }

  // ---- coalesce ----

  // What `coalesce` leaves behind: one free block on [lo, hi).
  ghost predicate MergedTags(f: Tags, f': Tags, t: Tiles, lo: int, hi: int) {
    && f'(lo) == Tag(hi - lo, false, true)
    && f'(hi - 2) == f'(lo)
    && f'(hi) == f(hi).(left := false)
    && (forall u | u in t && !(lo <= u <= hi) :: f'(u) == f(u))
    && (forall u | u in t && !(lo <= u < hi) && !t[u].alloc ::
          f'(u + t[u].size - 2) == f(u + t[u].size - 2))
    && (hi != END ==> f'(END) == f(END))
  }

  lemma MergedLeftBit(f: Tags, f': Tags, t: Tiles, lo: int, hi: int, u: int)
    requires Covering(t) && LeftBits(f, t) && lo in t && lo < hi && Boundary(t, hi)
    requires u in t && !(lo <= u < hi) && (Right(t, u) == lo ==> t[u].alloc)
    requires MergedTags(f, f', t, lo, hi)
    ensures f'(Right(t, u)).left == t[u].alloc
  {
    hide Covering, LeftBits;
    BlockAt(t, u);
    InOrder(t, u, lo);
    LeftBitAt(f, t, u);
    if hi in t { BlockAt(t, hi); }
  }

  lemma MergedLeftBits(f: Tags, f': Tags, t: Tiles, lo: int, hi: int)
    requires Covering(t) && LeftBits(f, t) && lo in t && lo < hi && Boundary(t, hi)
    requires forall u | u in t && u + t[u].size == lo :: t[u].alloc
    requires MergedTags(f, f', t, lo, hi)
    ensures LeftBits(f', Merge(t, lo, hi))
  {
    hide Covering;
    var t' := Merge(t, lo, hi);
    forall u {:trigger Right(t', u)} | u in t' && u != lo ensures f'(Right(t', u)).left == t'[u].alloc {
      MergedLeftBit(f, f', t, lo, hi, u);
    }
    BlockAt(t, lo);
  }

  lemma MergedFooters(f: Tags, f': Tags, t: Tiles, lo: int, hi: int)
    requires Footers(f, t) && lo in t && MergedTags(f, f', t, lo, hi)
    requires hi in t ==> t[hi].alloc
    ensures Footers(f', Merge(t, lo, hi))
  {
  }

  lemma MergedHeaders(f: Tags, f': Tags, t: Tiles, lo: int, hi: int)
    requires Headers(f, t) && lo in t && MergedTags(f, f', t, lo, hi)
    ensures Headers(f', Merge(t, lo, hi))
  {
  }

  lemma MergedTagged(f: Tags, f': Tags, t: Tiles, lo: int, hi: int)
    requires Covering(t) && Tagged(f, t)
    requires lo in t && lo < hi <= END && Boundary(t, hi)
    requires forall u | u in t && u + t[u].size == lo :: t[u].alloc
    requires hi in t ==> t[hi].alloc
    requires MergedTags(f, f', t, lo, hi)
    ensures Tagged(f', Merge(t, lo, hi))
  {
    hide Covering, Headers, LeftBits, Footers, Merge;
    MergedLeftBits(f, f', t, lo, hi);
    MergedFooters(f, f', t, lo, hi);
    MergedHeaders(f, f', t, lo, hi);
  }
}
