/** Facts that tie the three views of the kernel heap together (tiling, tags, free list), used
    by the methods of module Kheap: which words the links, tags and payloads occupy, and what
    `place`, `coalesce` and `kmalloc` make of a tiling and its free list. */
module KheapLists {
  import opened Common
  import opened KheapTiling
  import opened KheapMemory
  import opened KheapTags

  function DecodeTag(w: u16): Tag {
    Tag(SizeOf(w), IsAlloc(w), LeftAlloc(w))
  }

  ghost function TagView(m: Words): Tags {
    (o: int) => if |m| == WORDS && 0 <= o <= END && Even(o) then DecodeTag(W(m, o)) else Tag(0, false, false)
  }

  // f and f' agree at every offset outside x.
  ghost predicate SameAt(f: Tags, f': Tags, x: set<int>) {
    forall o | o !in x :: f'(o) == f(o)
  }

  lemma ViewOfSame(m: Words, m': Words, x: set<int>)
    requires |m| == WORDS && |m'| == WORDS && Same(m, m', x)
    ensures SameAt(TagView(m), TagView(m'), x)
  {
    forall o | o !in x ensures TagView(m')(o) == TagView(m)(o) {
      if 0 <= o <= END && Even(o) { assert W(m', o) == W(m, o); }
    }
  }

  // A store outside the link words leaves the list linked.
  lemma StoreKeepsLinks(m: Words, fl: seq<int>, head: int, o: int, x: u16)
    requires |m| == WORDS && Links(m, fl, head) && 0 <= o <= END && Even(o) && o !in LinkWords(fl)
    ensures Links(Put(m, o, x), fl, head)
  {
    hide W, Put, Even, Spread;
    PutFrame(m, o, x);
    forall i {:trigger LinksAt(Put(m, o, x), fl, i)} | 0 <= i < |fl| ensures LinksAt(Put(m, o, x), fl, i) {
      assert LinksAt(m, fl, i);
      assert fl[i] + 2 in LinkWords(fl) && fl[i] + 4 in LinkWords(fl);
      SpreadAt(fl, i);
    }
  }

  // Link words lie inside free blocks, clear of headers, footers and everything past them.
  lemma LinksMiss(t: Tiles, fl: seq<int>, s: int, o: int)
    requires Shaped(t) && Disjoint(t) && (forall u | u in fl :: u in t && !t[u].alloc)
    requires s in t && (o == s || s + 6 <= o <= Right(t, s))
    ensures o !in LinkWords(fl)
  {
    forall i | 0 <= i < |fl| ensures o != fl[i] + 2 && o != fl[i] + 4 {
      assert fl[i] in fl;
      if fl[i] < s { assert fl[i] + t[fl[i]].size <= s; }
    }
  }

  ghost predicate OnlyFree(t: Tiles, fl: seq<int>) {
    forall u | u in fl :: u in t && !t[u].alloc
  }

  // No header or footer of t lies at an offset in x.
  ghost predicate MissesTags(t: Tiles, x: set<int>) {
    (forall u | u in t :: u !in x && u + t[u].size - 2 !in x) && END !in x
  }

  lemma BlockBounds(t: Tiles, s: int)
    requires Covering(t) && Aligned(t) && s in t
    ensures 0 <= s && s + MIN_BLOCK_SIZE <= Right(t, s) <= END
    ensures s % 4 == 0 && t[s].size % 4 == 0 && Right(t, s) % 4 == 0
    ensures Even(s) && Even(s - 2) && Even(Right(t, s)) && Even(Right(t, s) - 2)
  {
    hide Chained, Disjoint, Even;
    EvenSum(s, t[s].size);
  }

  lemma EvenSum(s: int, z: int)
    requires s % 4 == 0 && z % 4 == 0
    ensures Even(s) && Even(s - 2) && Even(s + z) && Even(s + z - 2) && (s + z) % 4 == 0
  {
    hide Even;
    EvenOfMultiple(s);
    assert (s + z) % 4 == 0;
    EvenOfMultiple(s + z);
  }

  lemma LinksMissTags(t: Tiles, fl: seq<int>)
    requires Covering(t) && OnlyFree(t, fl)
    ensures MissesTags(t, LinkWords(fl))
  {
    forall u | u in t ensures u !in LinkWords(fl) && u + t[u].size - 2 !in LinkWords(fl) {
      LinksMiss(t, fl, u, u);
      LinksMiss(t, fl, u, u + t[u].size - 2);
    }
    forall i | 0 <= i < |fl| ensures fl[i] + 4 < END { assert fl[i] in fl; }
  }

  // Nothing inside the allocated blocks of t, past their headers, changed.
  ghost predicate PayloadsSame(f: Tags, f': Tags, t: Tiles) {
    forall u, o | u in t && t[u].alloc && u + 2 <= o < u + t[u].size :: f'(o) == f(o)
  }

  // No payload of an allocated block of t meets x.
  ghost predicate MissesPayloads(t: Tiles, x: set<int>) {
    forall u, o | u in t && t[u].alloc && u + 2 <= o < u + t[u].size :: o !in x
  }

  lemma LinksMissPayloads(t: Tiles, fl: seq<int>)
    requires Covering(t) && OnlyFree(t, fl)
    ensures MissesPayloads(t, LinkWords(fl))
  {
    forall u, o | u in t && t[u].alloc && u + 2 <= o < u + t[u].size ensures o !in LinkWords(fl) {
      forall i | 0 <= i < |fl| ensures o != fl[i] + 2 && o != fl[i] + 4 {
        assert fl[i] in fl;
      }
    }
  }

  lemma PlaceMissesPayloads(t: Tiles, s: int, n: int)
    requires Covering(t) && CanPlace(t, s, n)
    ensures var r := Right(t, s); MissesPayloads(t, {s, r})
    ensures var r := Right(t, s); t[s].size - n >= MIN_BLOCK_SIZE ==> MissesPayloads(t, {s, r - n, r - n - 2, r})
  {
    assert Boundary(t, Right(t, s));
  }

  lemma LinksMissPlace(t: Tiles, fl: seq<int>, s: int, n: int)
    requires Covering(t) && OnlyFree(t, fl) && CanPlace(t, s, n)
    ensures var r, x := Right(t, s), LinkWords(fl);
            && MissesTags(t, x) && MissesPayloads(t, x) && s !in x && r !in x
            && (t[s].size - n >= MIN_BLOCK_SIZE ==> r - n !in x && r - n - 2 !in x)
  {
    hide LinkWords, MissesPayloads;
    var r := Right(t, s);
    LinksMissPayloads(t, fl);
    LinksMissTags(t, fl);
    LinksMiss(t, fl, s, r);
    if t[s].size - n >= MIN_BLOCK_SIZE {
      LinksMiss(t, fl, s, r - n);
      LinksMiss(t, fl, s, r - n - 2);
    }
  }

  // The list with block b taken out.
  ghost function Drop(fl: seq<int>, b: int): seq<int> {
    if b in fl then Without(fl, IndexOf(fl, b)) else fl
  }

  lemma WithoutMembers(fl: seq<int>, k: int)
    requires Spread(fl) && 0 <= k < |fl|
    ensures forall x :: x in Without(fl, k) <==> x in fl && x != fl[k]
  {
    var fl' := Without(fl, k);
    forall x | x in fl && x != fl[k] ensures x in fl' {
      var j :| 0 <= j < |fl| && fl[j] == x;
      assert fl'[if j < k then j else j - 1] == x;
    }
    forall x | x in fl' ensures x in fl && x != fl[k] {
      var i :| 0 <= i < |fl'| && fl'[i] == x;
      assert x == fl[if i < k then i else i + 1];
    }
  }

  lemma DropMembers(fl: seq<int>, b: int)
    requires Spread(fl)
    ensures forall x :: x in Drop(fl, b) <==> x in fl && x != b
  {
    hide Without;
    if b in fl { WithoutMembers(fl, IndexOf(fl, b)); }
  }

  // A block of t outside the list can join it.
  lemma FreeFits(t: Tiles, fl: seq<int>, s: int)
    requires Covering(t) && Aligned(t) && OnlyFree(t, fl) && s in t && s !in fl
    ensures Fits(fl, s)
  {
    forall i | 0 <= i < |fl| ensures fl[i] + 8 <= s || s + 8 <= fl[i] {
      assert fl[i] in fl;
    }
  }

  lemma SizeOfDifference(a: int, b: int)
    requires a % 4 == 0 && b % 4 == 0 && 0 <= b - a < 65536
    ensures SizeOf(b - a) == b - a
  {
  }

  // ---- request sizes ----

  // Bytes of the block that serves a request of n bytes: header included, rounded up to 4, at least
  // the minimum block.
  function RequestSize(n: nat): (r: int)
    ensures n + 2 <= r && MIN_BLOCK_SIZE <= r && r % 4 == 0
    ensures r > MIN_BLOCK_SIZE ==> r < n + 6
  {
    var up := (n + 2 + 3) / 4 * 4;
    if up < MIN_BLOCK_SIZE then MIN_BLOCK_SIZE else up
  }

  // ---- the free list as a sequence ----

  ghost function IndexOf(fl: seq<int>, b: int): (k: int)
    requires b in fl
    ensures 0 <= k < |fl| && fl[k] == b
  {
    var k :| 0 <= k < |fl| && fl[k] == b; k
  }

  // Position of the first block of fl that holds n bytes, or |fl|.
  ghost function FirstFit(t: Tiles, fl: seq<int>, n: int): (k: int)
    ensures 0 <= k <= |fl|
    ensures k < |fl| ==> fl[k] in t && t[fl[k]].size >= n
    ensures forall i | 0 <= i < k :: fl[i] in t ==> t[fl[i]].size < n
  {
    if fl == [] then 0
    else if fl[0] in t && t[fl[0]].size >= n then 0
    else 1 + FirstFit(t, fl[1..], n)
  }

  // ---- place ----

  // The free list after placing n bytes in s.
  ghost function PlacedList(t: Tiles, fl: seq<int>, s: int, n: int): seq<int>
    requires s in t
  {
    if t[s].size - n >= MIN_BLOCK_SIZE then [s] + Drop(fl, s) else Drop(fl, s)
  }

  lemma PlacedListsFree(t: Tiles, fl: seq<int>, s: int, n: int)
    requires Covering(t) && Spread(fl) && ListsFree(t, fl) && CanPlace(t, s, n)
    ensures ListsFree(Place(t, s, n), PlacedList(t, fl, s, n))
  {
    DropMembers(fl, s);
    assert PlacedAt(t, s, n) != s ==> PlacedAt(t, s, n) !in t;
  }

  lemma PlacedSplit(t: Tiles, f: Tags, f': Tags, s: int, n: int, x: set<int>)
    requires Tiling(t) && Tagged(f, t) && CanPlace(t, s, n) && MissesTags(t, x) && MissesPayloads(t, x)
    requires t[s].size - n >= MIN_BLOCK_SIZE
    requires var r := Right(t, s);
             && f'(r) == f(r).(left := true)
             && f'(r - n) == Tag(n, true, false) && f'(s) == Tag(t[s].size - n, false, f(s).left)
             && f'(r - n - 2) == f'(s) && SameAt(f, f', x + {s, r - n, r - n - 2, r})
    ensures Tagged(f', Place(t, s, n)) && PayloadsSame(f, f', t)
  {
    hide Tagged;
    SplitTagged(f, f', t, s, n);
    PlaceMissesPayloads(t, s, n);
  }

  lemma PlacedWhole(t: Tiles, f: Tags, f': Tags, s: int, x: set<int>)
    requires Tiling(t) && Tagged(f, t) && s in t && !t[s].alloc && MissesTags(t, x) && MissesPayloads(t, x)
    requires var r := Right(t, s);
             && f'(r) == f(r).(left := true)
             && f'(s) == Tag(t[s].size, true, true) && SameAt(f, f', x + {s, r})
    ensures Tagged(f', t[s := Tile(t[s].size, true)]) && PayloadsSame(f, f', t)
  {
    hide Tagged;
    WholeTagged(f, f', t, s);
    PlaceMissesPayloads(t, s, MIN_BLOCK_SIZE);
  }

  // ---- coalesce ----

  ghost function FreedList(t: Tiles, fl: seq<int>, s: int): seq<int>
    requires s in t
  {
    [MergeLo(t, s)] + Drop(Drop(fl, MergeLo(t, s)), Right(t, s))
  }

  // The block to the left of s.
  lemma LeftNeighbour(t: Tiles, s: int) returns (l: int)
    requires Covering(t) && s in t && s > 0
    ensures l in t && Right(t, l) == s
  {
    l := EveryByteCovered(t, 0, s - 1);
    assert Boundary(t, Right(t, l));
  }

  // The left bit and the tags next to s tell where the free neighbours are.
  lemma NeighbourTags(f: Tags, t: Tiles, s: int)
    requires Tiling(t) && Tagged(f, t) && s in t && t[s].alloc
    ensures var lo, r, hi := MergeLo(t, s), Right(t, s), MergeHi(t, s);
            && (f(s).left <==> lo == s) && (lo != s ==> FreeLeft(t, s, lo) && f(s - 2).size == s - lo)
            && (f(r).alloc <==> hi == r) && (hi != r ==> r in t && !t[r].alloc && f(r).size == hi - r && !f(hi).left)
  {
    var lo, r := MergeLo(t, s), Right(t, s);
    if s > 0 {
      var l := LeftNeighbour(t, s);
      TaggedAt(f, t, l);
      if !t[l].alloc {
        FreeLeftUnique(t, s, l);
      } else {
        NoFreeLeft(t, s);
      }
    } else {
      NoFreeLeft(t, s);
    }
    assert Boundary(t, r);
    if r in t { TaggedAt(f, t, r); }
  }

  lemma MergeHiFree(t: Tiles, s: int)
    requires s in t && MergeHi(t, s) != Right(t, s)
    ensures Right(t, s) in t && MergeHi(t, s) == Right(t, Right(t, s))
  {
  }

  lemma DropAbsent(fl: seq<int>, b: int)
    requires b !in fl
    ensures Drop(fl, b) == fl
  {
  }

  lemma DropSpread(fl: seq<int>, b: int)
    requires Spread(fl)
    ensures Spread(Drop(fl, b))
  {
    if b in fl { WithoutSpread(fl, IndexOf(fl, b)); }
  }

  // t with s marked free, before any merging.
  ghost function Opened(t: Tiles, s: int): Tiles
    requires s in t
  {
    t[s := Tile(t[s].size, false)]
  }

  lemma OpenedCovering(t: Tiles, s: int)
    requires Covering(t) && Aligned(t) && s in t
    ensures Covering(Opened(t, s)) && Aligned(Opened(t, s))
  {
    forall u {:trigger Right(Opened(t, s), u)} | u in Opened(t, s)
      ensures Boundary(Opened(t, s), Right(Opened(t, s), u))
    {
      assert Boundary(t, Right(t, u));
    }
  }

  lemma OpenedBlocks(t: Tiles, s: int)
    requires s in t
    ensures forall u :: u in Opened(t, s) <==> u in t
    ensures forall u | u in t :: Opened(t, s)[u].size == t[u].size && Opened(t, s)[u].alloc == (t[u].alloc && u != s)
  {
  }

  // Link words of blocks that are free once s is opened miss the tags and the live payloads around s.
  lemma FreedListMisses(t: Tiles, s: int, fl: seq<int>)
    requires Covering(t) && Aligned(t) && Coalesced(t) && s in t && t[s].alloc && OnlyFree(Opened(t, s), fl)
    ensures var x := LinkWords(fl);
            && MissesTags(t, x) && MissesPayloads(Opened(t, s), x) && MergeLo(t, s) !in x && Right(t, s) !in x
            && MergeHi(t, s) !in x && MergeHi(t, s) - 2 !in x
  {
    hide LinkWords, Covering, Coalesced, Aligned, MergeLo, Opened, MissesPayloads;
    var t1, lo, r := Opened(t, s), MergeLo(t, s), Right(t, s);
    OpenedCovering(t, s);
    OpenedBlocks(t, s);
    MergeStretch(t, s);
    BlockAt(t, s);
    LinksMissTags(t1, fl);
    LinksMissPayloads(t1, fl);
    if r in t { BlockAt(t, r); }
  }

  lemma MissesUnion(t: Tiles, t1: Tiles, x: set<int>, y: set<int>)
    requires MissesTags(t, x) && MissesTags(t, y) && MissesPayloads(t1, x) && MissesPayloads(t1, y)
    ensures MissesTags(t, x + y) && MissesPayloads(t1, x + y)
  {
  }

  lemma MergedTagsFrom(t: Tiles, f: Tags, f': Tags, lo: int, hi: int, x: set<int>)
    requires Shaped(t) && Disjoint(t) && MissesTags(t, x) && lo in t && lo + 8 <= hi
    requires f'(lo) == Tag(hi - lo, false, true) && f'(hi - 2) == f'(lo) && f'(hi) == f(hi).(left := false)
    requires SameAt(f, f', x + {lo, hi - 2, hi}) && hi <= END
    ensures MergedTags(f, f', t, lo, hi)
  {
    forall u | u in t && !(lo <= u < hi) && !t[u].alloc
      ensures f'(u + t[u].size - 2) == f(u + t[u].size - 2)
    {
      if u < lo { assert u + t[u].size <= lo; }
    }
  }

  lemma FreedPayloads(t: Tiles, f: Tags, f': Tags, s: int, x: set<int>)
    requires Covering(t) && Coalesced(t) && s in t && t[s].alloc && MissesPayloads(Opened(t, s), x)
    requires SameAt(f, f', x + {MergeLo(t, s), MergeHi(t, s) - 2, MergeHi(t, s)})
    ensures PayloadsSame(f, f', Opened(t, s))
  {
    hide MergeLo, MergeHi, Covering, Coalesced;
    var t1, lo, hi := Opened(t, s), MergeLo(t, s), MergeHi(t, s);
    forall u, o | u in t1 && t1[u].alloc && u + 2 <= o < u + t1[u].size ensures f'(o) == f(o) {
      LiveOutsideMerge(t, s, u);
    }
  }

  // Another live block lies clear of the stretch that freeing s makes.
  lemma LiveOutsideMerge(t: Tiles, s: int, u: int)
    requires Covering(t) && Coalesced(t) && s in t && t[s].alloc && u in t && t[u].alloc && u != s
    ensures Right(t, u) <= MergeLo(t, s) || MergeHi(t, s) <= u
    ensures MergeLo(t, s) + MIN_BLOCK_SIZE <= MergeHi(t, s)
  {
    hide MergeLo, Covering, Coalesced;
    var lo, r := MergeLo(t, s), Right(t, s);
    MergeLoCases(t, s);
    BlockAt(t, s);
    InOrder(t, s, u);
    InOrder(t, lo, u);
    BlockAt(t, lo);
    if r in t && !t[r].alloc {
      BlockAt(t, r);
      InOrder(t, r, u);
    }
  }

  lemma FreedTagged(t: Tiles, f: Tags, f': Tags, s: int, x: set<int>)
    requires Tiling(t) && Tagged(f, t) && s in t && t[s].alloc && MissesTags(t, x) && MissesPayloads(Opened(t, s), x)
    requires var lo, r, hi := MergeLo(t, s), Right(t, s), MergeHi(t, s);
             && f'(lo) == Tag(hi - lo, false, true) && f'(hi - 2) == f'(lo)
             && f'(hi) == f(hi).(left := false)
             && SameAt(f, f', x + {lo, hi - 2, hi})
    ensures Tagged(f', Release(t, s)) && PayloadsSame(f, f', Opened(t, s))
  {
    FreedPayloads(t, f, f', s, x);
    hide Tagged, MissesTags, MissesPayloads, PayloadsSame, SameAt, MergedTags, Merge, MergeLo, Chained, Coalesced;
    NeighboursOfMerge(t, s);
    var lo, hi := MergeLo(t, s), MergeHi(t, s);
    assert lo + 8 <= hi;
    MergedTagsFrom(t, f, f', lo, hi, x);
    MergedTagged(f, f', t, lo, hi);
  }

  lemma FreedListsFree(t: Tiles, fl: seq<int>, s: int)
    requires Covering(t) && Coalesced(t) && Spread(fl) && ListsFree(t, fl) && s in t && t[s].alloc
    ensures ListsFree(Release(t, s), FreedList(t, fl, s))
  {
    hide MergeLo, MergeHi, Drop, Spread, Covering, Coalesced;
    var lo, r, hi := MergeLo(t, s), Right(t, s), MergeHi(t, s);
    DropMembers(fl, lo);
    DropSpread(fl, lo);
    DropMembers(Drop(fl, lo), r);
    MergeStretch(t, s);
  }

  // The blocks that freeing s merges.
  lemma MergeStretch(t: Tiles, s: int)
    requires Covering(t) && Coalesced(t) && s in t && t[s].alloc
    ensures var lo, r, hi := MergeLo(t, s), Right(t, s), MergeHi(t, s);
            && lo in t && lo <= s < r <= hi && (lo != s ==> !t[lo].alloc) && (hi != r ==> r in t && !t[r].alloc)
            && (r in t && !t[r].alloc ==> r < hi)
            && forall u | u in t && lo <= u < hi :: u == lo || u == s || u == r
  {
    hide MergeLo, Covering, Coalesced;
    var lo, r, hi := MergeLo(t, s), Right(t, s), MergeHi(t, s);
    MergeLoCases(t, s);
    BlockAt(t, s);
    BlockAt(t, lo);
    if r in t { BlockAt(t, r); }
    forall u | u in t && lo <= u < hi ensures u == lo || u == s || u == r {
      InOrder(t, lo, u);
      InOrder(t, s, u);
      if r in t { InOrder(t, r, u); }
    }
  }

  // ---- what callers see ----

  // The size of the live block at s, 0 if there is none.
  function LiveSize(t: Tiles, s: int): int {
    if s in t && t[s].alloc then t[s].size else 0
  }

  // The word at offset o.
  function WordAt(m: Words, o: int): int {
    if 0 <= o / 2 < |m| then m[o / 2] else 0
  }

  // Every word in the payload of a live block of t, other than the block of p, is as it was.
  ghost predicate KeepsPayloads(m: Words, m': Words, t: Tiles, p: Option<int>) {
    forall u, o | u + 2 <= o < u + LiveSize(t, u) && o % 2 == 0 && p != Some(u + 2) :: WordAt(m', o) == WordAt(m, o)
  }

  lemma TagOfWord(m: Words, m': Words, o: int)
    requires |m| == WORDS == |m'| && 0 <= o <= END && o % 2 == 0 && TagView(m)(o) == TagView(m')(o)
    ensures WordAt(m, o) == WordAt(m', o)
  {
    HeaderBits(m[o / 2]);
    HeaderBits(m'[o / 2]);
  }

  lemma SamePayloads(m: Words, t: Tiles, p: Option<int>)
    ensures KeepsPayloads(m, m, t, p)
  {
  }

  lemma PayloadWords(m: Words, m': Words, t: Tiles)
    requires |m| == WORDS == |m'| && Covering(t) && PayloadsSame(TagView(m), TagView(m'), t)
    ensures KeepsPayloads(m, m', t, None)
  {
    hide Covering, TagView, WordAt;
    forall u, o | u + 2 <= o < u + LiveSize(t, u) && o % 2 == 0 ensures WordAt(m', o) == WordAt(m, o) {
      BlockAt(t, u);
      TagOfWord(m, m', o);
    }
  }

  lemma OtherPayloadWords(m: Words, m': Words, t: Tiles, s: int)
    requires |m| == WORDS == |m'| && Covering(t) && s in t && PayloadsSame(TagView(m), TagView(m'), Opened(t, s))
    ensures KeepsPayloads(m, m', t, Some(s + 2))
  {
    hide Covering, TagView, WordAt;
    forall u, o | u + 2 <= o < u + LiveSize(t, u) && o % 2 == 0 && Some(s + 2) != Some(u + 2)
      ensures WordAt(m', o) == WordAt(m, o)
    {
      BlockAt(t, u);
      assert u in Opened(t, s) && Opened(t, s)[u] == t[u];
      TagOfWord(m, m', o);
    }
  }

  // Freeing s takes exactly s out of use.
  lemma ReleasedSizes(t: Tiles, s: int)
    requires Covering(t) && Coalesced(t) && s in t && t[s].alloc
    ensures forall u :: LiveSize(Release(t, s), u) == if u == s then 0 else LiveSize(t, u)
  {
    hide Covering, Coalesced, MergeLo, Release;
    forall u ensures LiveSize(Release(t, s), u) == if u == s then 0 else LiveSize(t, u) {
      if u in t && t[u].alloc && u != s { ReleaseKeepsLive(t, s, u); } else { ReleasedAt(t, s, u); }
    }
  }

  lemma ReleasedAt(t: Tiles, s: int, u: int)
    requires Covering(t) && Coalesced(t) && s in t && t[s].alloc && (u == s || LiveSize(t, u) == 0)
    ensures LiveSize(Release(t, s), u) == 0
  {
    hide Covering, Coalesced, MergeLo, MergeHi;
    MergeStretch(t, s);
  }

  // Placing puts exactly the placed block in use.
  lemma PlacedSizes(t: Tiles, s: int, n: int)
    requires Covering(t) && CanPlace(t, s, n)
    ensures forall u | u != PlacedAt(t, s, n) :: LiveSize(Place(t, s, n), u) == LiveSize(t, u)
    ensures LiveSize(t, PlacedAt(t, s, n)) == 0
    ensures n <= LiveSize(Place(t, s, n), PlacedAt(t, s, n)) < n + 8
    ensures PlacedAt(t, s, n) + LiveSize(Place(t, s, n), PlacedAt(t, s, n)) == s + t[s].size
  {
    hide Covering;
    var a := PlacedAt(t, s, n);
    if a in t { InOrder(t, s, a); }
  }

  // ---- kmalloc ----

  ghost function MallocTiles(t: Tiles, fl: seq<int>, n: int): Tiles {
    if n <= 0 || n > MAX_ALLOC then t else
    var k := FirstFit(t, fl, RequestSize(n));
    if k == |fl| then t else Place(t, fl[k], RequestSize(n))
  }

  ghost function MallocList(t: Tiles, fl: seq<int>, n: int): seq<int> {
    if n <= 0 || n > MAX_ALLOC then fl else
    var k := FirstFit(t, fl, RequestSize(n));
    if k == |fl| then fl else PlacedList(t, fl, fl[k], RequestSize(n))
  }

  ghost function MallocResult(t: Tiles, fl: seq<int>, n: int): Option<int> {
    if n <= 0 || n > MAX_ALLOC then None else
    var k := FirstFit(t, fl, RequestSize(n));
    if k == |fl| then None else Some(PlacedAt(t, fl[k], RequestSize(n)) + 2)
  }

  lemma UserWriteClear(t: Tiles, fl: seq<int>, s: int, o: int)
    requires Covering(t) && ListsFree(t, fl) && s in t && t[s].alloc && s + 2 <= o < s + t[s].size
    ensures 0 <= o < END && o !in LinkWords(fl) && o !in t
    ensures forall u | u in t && !t[u].alloc :: u + t[u].size - 2 != o
  {
    hide LinkWords, Chained;
    LinksMissPayloads(t, fl);
  }

  lemma InitialTiling()
    ensures var t := map[0 := Tile(END, false)]; Tiling(t) && AllocatedFrom(t, 0) == 0
  {
    var t := map[0 := Tile(END, false)];
    assert Right(t, 0) == END && AllocatedFrom(t, END) == 0;
  }

  lemma InitialHeaders()
    ensures WithSize(0, MAX_ALLOC) == END && WithAlloc(0, true) == 2
  {
  }

  lemma InitialWords(m: Words)
    requires |m| == WORDS && m[0] == END && m[1] == NIL && m[2] == NIL && m[32765] == END && m[32766] == 2
    ensures Tagged(TagView(m), map[0 := Tile(END, false)]) && Links(m, [0], 0)
  {
    var t, f := map[0 := Tile(END, false)], TagView(m);
    assert f(0) == Tag(END, false, false) && f(END - 2) == f(0) && f(END) == Tag(0, true, false);
    assert Tagged(f, t) by { hide TagView; }
    assert LinksAt(m, [0], 0);
  }
}
