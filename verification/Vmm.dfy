/** kernel/memory/pmm.cpp and kernel/memory/vmm.cpp on one physical memory: the page free list
    and page tables mapped and extended in place. */
module Vmm {
  import opened Common
  import opened Paging
  import opened PathTables
  import opened Ram
  import PmmRuns

  // From (e, ow) to (e', ow') tables were added but no translation from an old table changed.
  ghost predicate Grown(e: Tables, ow: Owners, e': Tables, ow': Owners) {
    && (forall h | h in ow :: h in ow' && ow'[h] == ow[h] && 1 <= Level(ow[h]) <= 4)
    && (forall h | h in ow' && h !in ow :: ow'[h].Child?)
    && (forall h, i {:trigger e'(h, i)} | h in ow && e(h, i).p :: e'(h, i) == e(h, i))
    && (forall h, v {:trigger Walk(e', h, Level(ow[h]), v)} | h in ow ::
          Walk(e', h, Level(ow[h]), v) == Walk(e, h, Level(ow[h]), v))
    && (forall h, v {:trigger PathUser(e', h, Level(ow[h]), v)} | h in ow ::
          PathUser(e', h, Level(ow[h]), v) == PathUser(e, h, Level(ow[h]), v))
    && (forall h, v {:trigger EntryKept(e, ow, e', h, Level(ow[h]), v)} | h in ow ::
          EntryKept(e, ow, e', h, Level(ow[h]), v))
  }

  lemma GrownRefl(e: Tables, ow: Owners)
    requires Forest(e, ow)
    ensures Grown(e, ow, e, ow)
  {
  }

  lemma GrownTrans(e: Tables, ow: Owners, e1: Tables, ow1: Owners, e2: Tables, ow2: Owners)
    requires Grown(e, ow, e1, ow1) && Grown(e1, ow1, e2, ow2)
    ensures Grown(e, ow, e2, ow2)
  {
    hide Walk, PathUser, EntrySlot;
    forall h, i {:trigger e2(h, i)} | h in ow && e(h, i).p ensures e2(h, i) == e(h, i) {
      assert e1(h, i) == e(h, i);
    }
    forall h, v {:trigger Walk(e2, h, Level(ow[h]), v)} | h in ow
      ensures Walk(e2, h, Level(ow[h]), v) == Walk(e, h, Level(ow[h]), v)
    {
      assert Walk(e1, h, Level(ow1[h]), v) == Walk(e, h, Level(ow[h]), v);
    }
    forall h, v {:trigger PathUser(e2, h, Level(ow[h]), v)} | h in ow
      ensures PathUser(e2, h, Level(ow[h]), v) == PathUser(e, h, Level(ow[h]), v)
    {
      assert PathUser(e1, h, Level(ow1[h]), v) == PathUser(e, h, Level(ow[h]), v);
    }
    forall h, v {:trigger EntryKept(e, ow, e2, h, Level(ow[h]), v)} | h in ow
      ensures EntryKept(e, ow, e2, h, Level(ow[h]), v)
    {
      assert EntryKept(e, ow, e1, h, Level(ow[h]), v);
      assert EntryKept(e1, ow1, e2, h, Level(ow1[h]), v);
    }
  }

  lemma GrownRoot(e: Tables, ow: Owners, e': Tables, ow': Owners, root: int)
    requires Grown(e, ow, e', ow')
    ensures root in ow && ow[root].Root? ==> root in ow' && ow'[root].Root?
  {
  }

  lemma HangGrows(e: Tables, e': Tables, ow: Owners, f: int, i: int, g: int)
    requires Forest(e, ow) && CanHang(e, ow, f, i, g) && NewTable(e, e', f, i, g)
    ensures Grown(e, ow, e', Hang(ow, f, i, g))
  {
    hide Hung, Closed, Walk, PathUser, EntrySlot, EntryKept;
    forall h, v {:trigger Walk(e', h, Level(ow[h]), v)} | h in ow
      ensures Walk(e', h, Level(ow[h]), v) == Walk(e, h, Level(ow[h]), v)
    {
      HangKeepsWalk(e, e', ow, f, i, g, h, Level(ow[h]), v);
    }
    forall h, v {:trigger PathUser(e', h, Level(ow[h]), v)} | h in ow
      ensures PathUser(e', h, Level(ow[h]), v) == PathUser(e, h, Level(ow[h]), v)
    {
      HangKeepsWalk(e, e', ow, f, i, g, h, Level(ow[h]), v);
    }
    forall h, v {:trigger EntryKept(e, ow, e', h, Level(ow[h]), v)} | h in ow
      ensures EntryKept(e, ow, e', h, Level(ow[h]), v)
    {
      HangKeepsEntry(e, e', ow, f, i, g, h, Level(ow[h]), v);
    }
  }

  // Entries of tables in ow agree.
  ghost predicate SameTables(e: Tables, e': Tables, ow: Owners) {
    forall f, i {:trigger e'(f, i)} | f in ow :: e'(f, i) == e(f, i)
  }

  lemma SameTablesForest(e: Tables, e': Tables, ow: Owners)
    requires Forest(e, ow) && SameTables(e, e', ow)
    ensures Forest(e', ow)
  {
  }

  lemma {:induction false} SameTablesWalk(e: Tables, e': Tables, ow: Owners, h: int, l: int, v: int)
    requires Forest(e, ow) && SameTables(e, e', ow) && h in ow && Level(ow[h]) == l
    ensures Walk(e', h, l, v) == Walk(e, h, l, v) && PathUser(e', h, l, v) == PathUser(e, h, l, v)
    ensures EntrySlot(e', h, l, v) == EntrySlot(e, h, l, v)
    decreases l
  {
    hide Hung, Closed, Idx;
    WalkChild(e, ow, h, v);
    var j := Idx(v, l);
    if l > 1 && e(h, j).p && !Stops(e(h, j), l) {
      SameTablesWalk(e, e', ow, e(h, j).addr, l - 1, v);
    }
  }

  lemma SameTablesGrown(e: Tables, e': Tables, ow: Owners)
    requires Forest(e, ow) && SameTables(e, e', ow)
    ensures Grown(e, ow, e', ow)
  {
    hide Hung, Closed, Walk, PathUser, EntrySlot;
    forall h, v | h in ow
      ensures Walk(e', h, Level(ow[h]), v) == Walk(e, h, Level(ow[h]), v)
      ensures PathUser(e', h, Level(ow[h]), v) == PathUser(e, h, Level(ow[h]), v)
      ensures EntryKept(e, ow, e', h, Level(ow[h]), v)
    {
      SameTablesWalk(e, e', ow, h, Level(ow[h]), v);
    }
  }

  // m' is m with page g zeroed and entry (f, i) pointing to it.
  lemma TableInstalled(m: Words, m1: Words, m': Words, f: int, i: int, g: int)
    requires 0 <= g < PHYS_FRAMES && 0 <= f && 0 <= i < 512 && f != g
    requires f * 512 + i < |m| && g * 512 + 512 <= |m| == |m1|
    requires forall k | 0 <= k < |m| :: m1[k] == if g * 512 <= k < g * 512 + 512 then 0 else m[k]
    requires m' == m1[f * 512 + i := Encode(ZERO.(p := true, w := true, addr := g))]
    ensures NewTable(View(m), View(m'), f, i, g)
  {
    hide Decode, Encode;
    var x := ZERO.(p := true, w := true, addr := g);
    DecodeEncode(x);
    DecodeZero();
    ViewWrite(m1, f, i, Encode(x));
    forall j | 0 <= j < 512 ensures View(m')(g, j) == ZERO {
      assert View(m1)(g, j) == ZERO;
    }
    forall h, j {:trigger View(m')(h, j)} | h != g && !(h == f && j == i) ensures View(m')(h, j) == View(m)(h, j) {
      if 0 <= h && 0 <= j < 512 && h * 512 + j < |m| {
        assert !(g * 512 <= h * 512 + j < g * 512 + 512);
      }
    }
  }

  lemma TableFreeList(m: Words, m': Words, frames: int, free: seq<int>, head: int, f: int, i: int, g: int)
    requires FreeList(m, frames, free, head) && |m'| == |m| && g !in free && f !in free && 0 <= i < 512
    requires forall k | 0 <= k < |m| && k != f * 512 + i && !(g * 512 <= k < g * 512 + 512) :: m'[k] == m[k]
    ensures FreeList(m', frames, free, head)
  {
    forall k | 0 <= k < |free| ensures m'[free[k] * 512] == m[free[k] * 512] {
      assert free[k] in free;
    }
    FreeListFrame(m, m', frames, free, head);
  }

  // The 36 index bits of a virtual address.
  function PageOf(va: u64): int {
    va / PGSIZE % VPAGES
  }

  // ---- mapping a range ----

  // Of n pages mapped from page v0 on, the last that ends in the entry of page v; negative when none does.
  ghost function LastShare(e: Tables, root: int, v0: int, n: int, v: int): int
    decreases n
  {
    if n <= 0 then -1
    else if EntrySlot(e, root, 4, RangePage(v0, n - 1)) == EntrySlot(e, root, 4, v) then n - 1
    else LastShare(e, root, v0, n - 1, v)
  }

  // Pages that share entries in e share them in e', and those of no entry gain none of the range's.
  lemma {:induction false} LastShareKept(e: Tables, e': Tables, root: int, v0: int, n: int, v: int)
    requires forall k {:trigger RangePage(v0, k)} | 0 <= k < n ::
               EntrySlot(e', root, 4, RangePage(v0, k)) == EntrySlot(e', root, 4, v) <==>
               EntrySlot(e, root, 4, RangePage(v0, k)) == EntrySlot(e, root, 4, v)
    ensures LastShare(e', root, v0, n, v) == LastShare(e, root, v0, n, v)
    decreases n
  {
    hide EntrySlot, RangePage;
    if n > 0 { LastShareKept(e, e', root, v0, n - 1, v); }
  }

  // The level of the table an entry lies in.
  function SlotLevel(ow: Owners, s: Slot): int {
    if s.At? && s.f in ow then Level(ow[s.f]) else 1
  }

  // Every page of the range has an entry.
  ghost predicate RangeFound(e: Tables, root: int, v0: int, n: int) {
    forall k {:trigger RangePage(v0, k)} | 0 <= k < n :: EntrySlot(e, root, 4, RangePage(v0, k)).At?
  }

  // From (e0, ow0) to (e, ow), pages v0, v0 + 1, ... (n of them, numbers modulo 2^36) of root were mapped
  // to consecutive frames from pfn on with entry bits w and u: a page has the translation that the last
  // of them to end in its entry wrote there, and a page that shares no entry with them keeps its own.
  ghost predicate MappedRange(e0: Tables, ow0: Owners, e: Tables, ow: Owners,
                              root: int, v0: int, n: int, pfn: int, w: bool, u: bool)
  {
    && (forall h | h in ow0 :: h in ow && ow[h] == ow0[h])
    && (forall h | h in ow && h !in ow0 :: ow[h].Child?)
    && RangeFound(e, root, v0, n)
    && (forall r, v {:trigger Walk(e, r, 4, v)} | r in ow0 && ow0[r].Root? && 0 <= v < VPAGES ::
          Walk(e, r, 4, v) == RangeWalk(e0, e, ow, root, v0, n, pfn, w, u, r, v))
    && (forall r, v {:trigger PathUser(e, r, 4, v)} | r in ow0 && ow0[r].Root? && 0 <= v < VPAGES ::
          PathUser(e, r, 4, v) == PathUser(e0, r, 4, v))
  }

  ghost function RangeWalk(e0: Tables, e: Tables, ow: Owners, root: int, v0: int, n: int, pfn: int, w: bool, u: bool,
                           r: int, v: int): Mapping
  {
    var k := LastShare(e, root, v0, n, v);
    if r == root && k >= 0 then
      Mapped(LeafFrame((pfn + k) % FRAMES, v, SlotLevel(ow, EntrySlot(e, root, 4, v))), w, u)
    else Walk(e0, r, 4, v)
  }

  lemma MappedNone(e: Tables, ow: Owners, root: int, v0: int, pfn: int, w: bool, u: bool)
    ensures MappedRange(e, ow, e, ow, root, v0, 0, pfn, w, u)
  {
  }

  // A walk to page v of root that may have added tables, then a write of x to the entry found.
  ghost predicate MappedOne(e: Tables, ow: Owners, e1: Tables, ow1: Owners, e2: Tables, root: int, v: int, x: Pte) {
    && Grown(e, ow, e1, ow1) && Forest(e1, ow1) && root in ow && ow[root].Root? && 0 <= v < VPAGES && x.p
    && var s := EntrySlot(e1, root, 4, v);
    CanWrite(e1, ow1, s, x) && LeafWritten(e1, e2, s, x)
  }

  lemma MapOneDone(e: Tables, ow: Owners, e1: Tables, ow1: Owners, e2: Tables, root: int, v: int, x: Pte)
    requires Grown(e, ow, e1, ow1) && Forest(e1, ow1) && root in ow && ow[root].Root? && 0 <= v < VPAGES && x.p
    requires var s := EntrySlot(e1, root, 4, v);
             && s.At? && s.f in ow1 && 1 <= Level(ow1[s.f]) <= 4 && Stops(e1(s.f, s.i), Level(ow1[s.f]))
             && x.large == e1(s.f, s.i).large && LeafWritten(e1, e2, s, x)
    ensures MappedOne(e, ow, e1, ow1, e2, root, v, x) && CanWrite(e1, ow1, EntrySlot(e1, root, 4, v), x)
  {
  }

  // Where a page ends after that, and its translation.
  lemma MappedOneWalk(e: Tables, ow: Owners, e1: Tables, ow1: Owners, e2: Tables, root: int, v: int, x: Pte, r: int, v': int)
    requires MappedOne(e, ow, e1, ow1, e2, root, v, x) && r in ow && ow[r].Root? && 0 <= v' < VPAGES
    ensures r in ow1 && ow1[r].Root? && EntryKept(e, ow, e1, r, 4, v')
    ensures EntrySlot(e2, r, 4, v') == EntrySlot(e1, r, 4, v')
    ensures EntrySlot(e2, r, 4, v') == EntrySlot(e2, root, 4, v) ==> r == root
    ensures Walk(e2, r, 4, v') ==
            if EntrySlot(e2, r, 4, v') == EntrySlot(e2, root, 4, v)
            then Mapped(LeafFrame(x.addr, v', SlotLevel(ow1, EntrySlot(e2, root, 4, v))), x.w, x.u)
            else Walk(e, r, 4, v')
    ensures PathUser(e2, r, 4, v') == PathUser(e, r, 4, v')
  {
    hide Hung, Closed, Idx, LeafWritten, Walk, PathUser, EntrySlot, EntryKept, LeafFrame;
    var s := EntrySlot(e1, root, 4, v);
    LeafWalk(e1, e2, ow1, s, x, r, 4, v');
    LeafWalk(e1, e2, ow1, s, x, root, 4, v);
    assert Walk(e1, r, Level(ow[r]), v') == Walk(e, r, Level(ow[r]), v');
    assert PathUser(e1, r, Level(ow[r]), v') == PathUser(e, r, Level(ow[r]), v');
    assert EntryKept(e, ow, e1, r, Level(ow[r]), v');
    if EntrySlot(e1, r, 4, v') == s {
      EntrySlotOfRoots(e1, ow1, r, root, v', v);
    }
  }

  // The pages of the range before this one share entries with v' as they did.
  lemma SharesKept(e: Tables, ow: Owners, e1: Tables, ow1: Owners, e2: Tables,
                   root: int, v: int, x: Pte, v0: int, n: int, v': int)
    requires MappedOne(e, ow, e1, ow1, e2, root, v, x) && Forest(e, ow) && RangeFound(e, root, v0, n) && 0 <= v' < VPAGES
    ensures LastShare(e2, root, v0, n, v') == LastShare(e, root, v0, n, v')
    ensures LastShare(e, root, v0, n, v') >= 0 ==>
              && EntrySlot(e2, root, 4, v') == EntrySlot(e, root, 4, v')
              && SlotLevel(ow1, EntrySlot(e, root, 4, v')) == SlotLevel(ow, EntrySlot(e, root, 4, v'))
  {
    hide Forest, Grown, Walk, PathUser, EntrySlot, LeafWritten, LeafFrame, MappedOne, RangePage;
    MappedOneOld(e, ow, e1, ow1, e2, root, v, x);
    MappedOneWalk(e, ow, e1, ow1, e2, root, v, x, root, v');
    EntrySlotLevel(e, ow, root, 4, v');
    forall k {:trigger RangePage(v0, k)} | 0 <= k < n
      ensures EntrySlot(e2, root, 4, RangePage(v0, k)) == EntrySlot(e2, root, 4, v') <==>
              EntrySlot(e, root, 4, RangePage(v0, k)) == EntrySlot(e, root, 4, v')
    {
      RangePageIn(v0, k);
      MappedOneWalk(e, ow, e1, ow1, e2, root, v, x, root, RangePage(v0, k));
      EntrySlotLevel(e, ow, root, 4, RangePage(v0, k));
    }
    LastShareKept(e, e2, root, v0, n, v');
    if LastShare(e, root, v0, n, v') >= 0 { ShareFound(e, root, v0, n, v'); }
  }

  lemma RangePageIn(v0: int, k: int)
    ensures 0 <= RangePage(v0, k) < VPAGES
  {
  }

  lemma MappedOneOld(e: Tables, ow: Owners, e1: Tables, ow1: Owners, e2: Tables, root: int, v: int, x: Pte)
    requires MappedOne(e, ow, e1, ow1, e2, root, v, x)
    ensures root in ow && ow[root].Root?
    ensures forall h | h in ow :: h in ow1 && ow1[h] == ow[h]
  {
  }

  lemma {:induction false} ShareFound(e: Tables, root: int, v0: int, n: int, v: int)
    requires RangeFound(e, root, v0, n) && LastShare(e, root, v0, n, v) >= 0
    ensures EntrySlot(e, root, 4, v).At? && LastShare(e, root, v0, n, v) < n
    decreases n
  {
    hide EntrySlot, RangePage;
    if n > 0 {
      assert EntrySlot(e, root, 4, RangePage(v0, n - 1)).At?;
      if EntrySlot(e, root, 4, RangePage(v0, n - 1)) != EntrySlot(e, root, 4, v) { ShareFound(e, root, v0, n - 1, v); }
    }
  }

  // The translation of one page after one more page of the range was mapped.
  lemma RangeWalkOneMore(e0: Tables, ow0: Owners, e: Tables, ow: Owners, e1: Tables, ow1: Owners, e2: Tables,
                         root: int, v0: int, n: int, pfn: int, w: bool, u: bool, x: Pte, r: int, v': int)
    requires MappedRange(e0, ow0, e, ow, root, v0, n, pfn, w, u) && 0 <= n && Forest(e, ow)
    requires MappedOne(e, ow, e1, ow1, e2, root, RangePage(v0, n), x) && root in ow0 && ow0[root].Root?
    requires x.w == w && x.u == u && x.addr == (pfn + n) % FRAMES
    requires r in ow0 && ow0[r].Root? && 0 <= v' < VPAGES
    ensures Walk(e2, r, 4, v') == RangeWalk(e0, e2, ow1, root, v0, n + 1, pfn, w, u, r, v')
  {
    hide Forest, Walk, PathUser, EntrySlot, MappedOne, LeafFrame, RangePage, RangeFound, SlotLevel;
    MappedOneWalk(e, ow, e1, ow1, e2, root, RangePage(v0, n), x, r, v');
    if r == root {
      SharesKept(e, ow, e1, ow1, e2, root, RangePage(v0, n), x, v0, n, v');
    }
    assert Walk(e, r, 4, v') == RangeWalk(e0, e, ow, root, v0, n, pfn, w, u, r, v');
  }

  // One more page mapped.
  lemma MappedOneMore(e0: Tables, ow0: Owners, e: Tables, ow: Owners, e1: Tables, ow1: Owners, e2: Tables,
                      root: int, v0: int, n: int, pfn: int, w: bool, u: bool, x: Pte)
    requires MappedRange(e0, ow0, e, ow, root, v0, n, pfn, w, u) && 0 <= n && Forest(e, ow)
    requires MappedOne(e, ow, e1, ow1, e2, root, RangePage(v0, n), x) && root in ow0 && ow0[root].Root?
    requires x.w == w && x.u == u && x.addr == (pfn + n) % FRAMES
    ensures MappedRange(e0, ow0, e2, ow1, root, v0, n + 1, pfn, w, u)
  {
    hide Forest, Walk, PathUser, EntrySlot, LeafWritten, LeafFrame, RangeWalk, RangePage;
    var v := RangePage(v0, n);
    forall r, v' | r in ow0 && ow0[r].Root? && 0 <= v' < VPAGES
      ensures Walk(e2, r, 4, v') == RangeWalk(e0, e2, ow1, root, v0, n + 1, pfn, w, u, r, v')
      ensures PathUser(e2, r, 4, v') == PathUser(e0, r, 4, v')
    {
      RangeWalkOneMore(e0, ow0, e, ow, e1, ow1, e2, root, v0, n, pfn, w, u, x, r, v');
      MappedOneWalk(e, ow, e1, ow1, e2, root, v, x, r, v');
      assert PathUser(e, r, 4, v') == PathUser(e0, r, 4, v');
    }
    forall k {:trigger RangePage(v0, k)} | 0 <= k < n + 1 ensures EntrySlot(e2, root, 4, RangePage(v0, k)).At? {
      RangePageIn(v0, k);
      MappedOneWalk(e, ow, e1, ow1, e2, root, v, x, root, RangePage(v0, k));
    }
  }

  // Adding tables keeps what was mapped.
  lemma MappedGrown(e0: Tables, ow0: Owners, e: Tables, ow: Owners, e1: Tables, ow1: Owners,
                    root: int, v0: int, n: int, pfn: int, w: bool, u: bool)
    requires MappedRange(e0, ow0, e, ow, root, v0, n, pfn, w, u) && Grown(e, ow, e1, ow1) && Forest(e, ow)
    requires root in ow0 && ow0[root].Root?
    ensures MappedRange(e0, ow0, e1, ow1, root, v0, n, pfn, w, u)
    ensures root in ow1 && ow1[root].Root?
  {
    hide Forest, Walk, PathUser, EntrySlot, RangePage, LeafFrame;
    forall k {:trigger RangePage(v0, k)} | 0 <= k < n
      ensures EntrySlot(e1, root, 4, RangePage(v0, k)) == EntrySlot(e, root, 4, RangePage(v0, k)) != NoSlot
    {
      assert EntryKept(e, ow, e1, root, Level(ow[root]), RangePage(v0, k));
    }
    forall r, v | r in ow0 && ow0[r].Root? && 0 <= v < VPAGES
      ensures Walk(e1, r, 4, v) == RangeWalk(e0, e1, ow1, root, v0, n, pfn, w, u, r, v)
      ensures PathUser(e1, r, 4, v) == PathUser(e0, r, 4, v)
    {
      assert Walk(e1, r, Level(ow[r]), v) == Walk(e, r, Level(ow[r]), v);
      assert Walk(e, r, 4, v) == RangeWalk(e0, e, ow, root, v0, n, pfn, w, u, r, v);
      assert PathUser(e1, r, Level(ow[r]), v) == PathUser(e, r, Level(ow[r]), v) == PathUser(e0, r, 4, v);
      GrownShares(e, ow, e1, ow1, root, v0, n, v);
    }
  }

  lemma GrownShares(e: Tables, ow: Owners, e1: Tables, ow1: Owners, root: int, v0: int, n: int, v: int)
    requires Grown(e, ow, e1, ow1) && Forest(e, ow) && root in ow && ow[root].Root? && RangeFound(e, root, v0, n)
    ensures LastShare(e1, root, v0, n, v) == LastShare(e, root, v0, n, v)
    ensures LastShare(e, root, v0, n, v) >= 0 ==>
              && EntrySlot(e1, root, 4, v) == EntrySlot(e, root, 4, v)
              && SlotLevel(ow1, EntrySlot(e, root, 4, v)) == SlotLevel(ow, EntrySlot(e, root, 4, v))
  {
    hide Forest, Walk, PathUser, EntrySlot, RangePage, LeafFrame;
    assert EntryKept(e, ow, e1, root, Level(ow[root]), v);
    EntrySlotLevel(e, ow, root, 4, v);
    forall k {:trigger RangePage(v0, k)} | 0 <= k < n
      ensures EntrySlot(e1, root, 4, RangePage(v0, k)) == EntrySlot(e1, root, 4, v) <==>
              EntrySlot(e, root, 4, RangePage(v0, k)) == EntrySlot(e, root, 4, v)
    {
      assert EntryKept(e, ow, e1, root, Level(ow[root]), RangePage(v0, k));
      EntrySlotLevel(e, ow, root, 4, RangePage(v0, k));
    }
    LastShareKept(e, e1, root, v0, n, v);
    if LastShare(e, root, v0, n, v) >= 0 { ShareFound(e, root, v0, n, v); }
  }

  function RoundDown(a: u64): u64 { a - a % PGSIZE }

  // First and last page of a request, and how many pages the loop of mappages visits.
  function LastPage(va: u64, size: u64): u64 { RoundDown((va + size - 1) % TWO64) }

  function PageCount(va: u64, size: u64): int {
    var first, last := RoundDown(va), LastPage(va, size);
    if first <= last then (last - first) / PGSIZE + 1 else 0
  }

  // The k-th page from that of va holds a byte of [va, va + size).
  ghost predicate HoldsByte(va: int, size: int, k: int) {
    exists x: int :: va <= x < va + size && x / 4096 == va / 4096 + k
  }

  // mappages visits exactly the pages that hold a byte of the request if and only if the request does
  // not run past the end of the address space or, being empty, starts at a page above 0.
  lemma RangeIsBytesExact(va: u64, size: u64)
    ensures (forall k :: 0 <= k < PageCount(va, size) <==> HoldsByte(va, size, k)) <==>
            if size == 0 then va % 4096 == 0 && va > 0 else va + size <= TWO64
  {
    hide HoldsByte, PageCount;
    if size == 0 {
      EmptyRange(va);
    } else if va + size <= TWO64 {
      forall k ensures 0 <= k < PageCount(va, size) <==> HoldsByte(va, size, k) { RangeBytes(va, size, k); }
    } else {
      WrappedRange(va, size);
    }
  }

  lemma BytesHeld(va: u64, size: u64, k: int)
    requires 0 < size
    ensures HoldsByte(va, size, k) <==> 0 <= k <= (va + size - 1) / 4096 - va / 4096
  {
    if 0 <= k <= (va + size - 1) / 4096 - va / 4096 { var x := ByteOnPage(va, size, k); }
  }

  lemma PageFloor(q: int, x: int)
    requires 0 <= x && q <= x / 4096
    ensures q * 4096 <= x && q * 4096 / 4096 == q
  {
  }

  lemma RangeBytes(va: u64, size: u64, k: int)
    requires 0 < size && va + size <= TWO64
    ensures 0 <= k < PageCount(va, size) <==> HoldsByte(va, size, k)
  {
    hide HoldsByte;
    BytesHeld(va, size, k);
    CountUpTo(va, va + size - 1);
  }

  // From the page of a to that of b.
  lemma CountUpTo(a: u64, b: u64)
    requires a <= b
    ensures RoundDown(a) <= RoundDown(b) && (RoundDown(b) - RoundDown(a)) / PGSIZE + 1 == b / 4096 - a / 4096 + 1
  {
    RoundDownPages(a);
    RoundDownPages(b);
  }

  lemma EmptyRange(va: u64)
    ensures (forall k :: 0 <= k < PageCount(va, 0) <==> HoldsByte(va, 0, k)) <==> va % 4096 == 0 && va > 0
  {
    assert forall k :: !HoldsByte(va, 0, k);
    EmptyCount(va);
    if PageCount(va, 0) > 0 { assert 0 <= 0 < PageCount(va, 0) && !HoldsByte(va, 0, 0); }
  }

  lemma EmptyCount(va: u64)
    ensures PageCount(va, 0) <= 0 <==> va % 4096 == 0 && va > 0
  {
    RoundDownPages(va);
    RoundDownPages((va + 0 - 1) % TWO64);
    if va == 0 { assert (va + 0 - 1) % TWO64 == TWO64 - 1; } else { assert (va + 0 - 1) % TWO64 == va - 1; }
  }

  lemma WrappedRange(va: u64, size: u64)
    requires 0 < size && va + size > TWO64
    ensures exists k :: !(0 <= k < PageCount(va, size) <==> HoldsByte(va, size, k))
  {
    hide HoldsByte;
    var k := (va + size - 1) / 4096 - va / 4096;
    BytesHeld(va, size, k);
    RoundDownPages(va);
    RoundDownPages((va + size - 1) % TWO64);
    assert !(0 <= k < PageCount(va, size)) && HoldsByte(va, size, k);
  }

  predicate ToTop(va: u64, size: u64) {
    LastPage(va, size) == TWO64 - PGSIZE
  }

  // How many pages the loop visits unless it fails. One that runs to the top page goes on from page 0,
  // and meets no new page after 2^36.
  function Visits(va: u64, size: u64): int {
    if ToTop(va, size) then VPAGES else PageCount(va, size)
  }

  // The loop comes to an end: by its guard, or because the tables its pages need outnumber the free ones.
  ghost predicate Returns(e: Tables, root: int, va: u64, size: u64, free: int) {
    ToTop(va, size) ==> |NeededRange(e, root, va / PGSIZE, VPAGES)| > free
  }

  // Otherwise no step ever fails.
  lemma ReturnsExact(e: Tables, root: int, va: u64, size: u64, free: int)
    ensures Returns(e, root, va, size, free) <==>
            (ToTop(va, size) ==> exists n :: |NeededRange(e, root, va / PGSIZE, n)| > free)
  {
    hide NeededRange;
    forall n ensures |NeededRange(e, root, va / PGSIZE, n)| <= |NeededRange(e, root, va / PGSIZE, VPAGES)| {
      NeededWraps(e, root, va / PGSIZE, n);
    }
  }

  // The loop guard of mappages holds of every page, so that the call can only end by failing,
  // exactly when the last page is the top page of the address space. setupkvm, whose table of
  // mappings is zeroed, asks for just that.
  lemma GuardNeverFailsExact(va: u64, size: u64)
    ensures (forall page: u64 | page % PGSIZE == 0 :: page <= LastPage(va, size)) <==> ToTop(va, size)
    ensures ToTop(va, size) <==> (va + size - 1) % TWO64 >= 0xFFFF_FFFF_FFFF_F000
    ensures ToTop(0, 0)
  {
    var last := LastPage(va, size);
    assert last % PGSIZE == 0 && last <= TWO64 - PGSIZE;
    var top: u64 := TWO64 - PGSIZE;
    assert top % PGSIZE == 0;
  }

  lemma LoopStart(va: u64, size: u64)
    ensures 0 <= RoundDown(va) == (RoundDown(va) + 0 * PGSIZE) % TWO64 && 0 <= Visits(va, size)
  {
    RoundDownPages(va);
    RoundDownPages((va + size - 1) % TWO64);
  }

  // The guard fails only short of the top page, once every page was visited.
  lemma LoopDone(va: u64, size: u64, n: int, cur: u64)
    requires 0 <= n <= Visits(va, size) && cur > LastPage(va, size) && cur == (RoundDown(va) + n * PGSIZE) % TWO64
    requires !ToTop(va, size) ==> cur == RoundDown(va) + n * PGSIZE
    ensures !ToTop(va, size) && n == PageCount(va, size)
  {
    RoundDownPages(va);
    if ToTop(va, size) {
      LoopPage(va, n, cur);
      PageStart(va / PGSIZE + n);
    } else {
      LoopGuard(va, size, n, cur);
    }
  }

  // A page address is at most that of the top page.
  lemma PageStart(a: int)
    requires 0 <= a
    ensures a * PGSIZE % TWO64 <= TWO64 - PGSIZE
  {
    var big := TWO64 / PGSIZE;
    var q, r := a / big, a % big;
    assert a == q * big + r;
    assert a * PGSIZE == q * TWO64 + r * PGSIZE;
    WrapIs(q, r * PGSIZE);
  }

  // The page the loop is at after n steps, across any wrap of va.
  lemma LoopPage(va: u64, n: int, cur: u64)
    requires 0 <= n && cur == (RoundDown(va) + n * PGSIZE) % TWO64
    ensures PageOf(cur) == RangePage(va / PGSIZE, n)
    ensures (cur + PGSIZE) % TWO64 == (RoundDown(va) + (n + 1) * PGSIZE) % TWO64
  {
    RoundDownPages(va);
    var a := va / PGSIZE + n;
    assert RoundDown(va) + n * PGSIZE == a * PGSIZE;
    PagesWrap(a);
    AddWrap(RoundDown(va) + n * PGSIZE);
  }

  lemma PagesWrap(a: int)
    requires 0 <= a
    ensures a * PGSIZE % TWO64 / PGSIZE % VPAGES == a % VPAGES
  {
    var big := TWO64 / PGSIZE;
    var q, r := a / big, a % big;
    assert a == q * big + r;
    assert a * PGSIZE == q * TWO64 + r * PGSIZE;
    assert a * PGSIZE % TWO64 == r * PGSIZE by { WrapIs(q, r * PGSIZE); }
    assert a == q * (big / VPAGES) * VPAGES + r;
    AddMultiple(r, q * (big / VPAGES));
  }

  lemma WrapIs(q: int, r: int)
    requires 0 <= r < TWO64
    ensures (q * TWO64 + r) % TWO64 == r
  {
  }

  lemma AddWrap(x: int)
    ensures (x % TWO64 + PGSIZE) % TWO64 == (x + PGSIZE) % TWO64
  {
  }

  // Short of the top page nothing wraps, and the guard tells how many pages are left.
  lemma LoopGuard(va: u64, size: u64, n: int, cur: u64)
    requires !ToTop(va, size) && 0 <= n <= PageCount(va, size) && cur == RoundDown(va) + n * PGSIZE
    ensures cur <= LastPage(va, size) <==> n < PageCount(va, size)
    ensures n < PageCount(va, size) ==> cur + PGSIZE < TWO64
  {
    RoundDownPages(va);
    RoundDownPages((va + size - 1) % TWO64);
  }

  lemma RoundDownPages(a: u64)
    ensures RoundDown(a) == a / PGSIZE * PGSIZE && RoundDown(a) / PGSIZE == a / PGSIZE
  {
  }

  // The frame number kept in an entry advances by one with pa, across any wrap of pa.
  lemma NextFrame(pa: u64, pfn: int, k: int)
    requires pa / PGSIZE % FRAMES == (pfn + k) % FRAMES
    ensures (pa + PGSIZE) % TWO64 / PGSIZE % FRAMES == (pfn + k + 1) % FRAMES
  {
    var q := pa / PGSIZE;
    var big := TWO64 / PGSIZE;
    assert (pa + PGSIZE) % TWO64 / PGSIZE == if q + 1 == big then 0 else q + 1;
    assert big % FRAMES == 0;
    assert (q + 1) % FRAMES == (pfn + k + 1) % FRAMES by { ModStep(q, pfn + k); }
  }

  lemma ModStep(a: int, b: int)
    requires a % FRAMES == b % FRAMES
    ensures (a + 1) % FRAMES == (b + 1) % FRAMES
  {
  }

  function RoundUp(a: u64): int { (a + PGSIZE - 1) % TWO64 / PGSIZE * PGSIZE }

  // The page of frame g lies wholly inside the pointer range [vstart, vend).
  predicate PageInside(g: int, vstart: int, vend: int) {
    vstart <= KVA_KERNEL_BEGIN + g * PGSIZE && KVA_KERNEL_BEGIN + g * PGSIZE + PGSIZE <= vend
  }

  lemma RoundUpPage(a: u64)
    requires KVA_KERNEL_BEGIN <= a <= KVA_KERNEL_BEGIN + PHYSTOP
    ensures var g0 := (RoundUp(a) - KVA_KERNEL_BEGIN) / PGSIZE;
            && RoundUp(a) == KVA_KERNEL_BEGIN + g0 * PGSIZE
            && a <= RoundUp(a) < a + PGSIZE && 0 <= g0
  {
    assert KVA_KERNEL_BEGIN % PGSIZE == 0;
  }

  // init_pmm as written starts in the physical-map window and ends at a physical address:
  // no page lies between, so nothing is ever freed to the allocator.
  lemma InitPmmAsWrittenFreesNothing(kernelEnd: u64)
    requires KVA_KERNEL_BEGIN <= kernelEnd
    ensures RoundUp(KV2V(kernelEnd)) + PGSIZE > PHYSTOP
  {
    assert KV2V(kernelEnd) >= VA_PMAP_BEGIN;
  }

  // A zeroed page becomes a root with nothing mapped.
  lemma RootInstalled(m: Words, m': Words, ow: Owners, g: int)
    requires Forest(View(m), ow) && g !in ow && 0 <= g && g * 512 + 512 <= |m| == |m'|
    requires forall k | 0 <= k < |m| :: m'[k] == if g * 512 <= k < g * 512 + 512 then 0 else m[k]
    ensures Forest(View(m'), ow[g := Root]) && Grown(View(m), ow, View(m'), ow)
    ensures ZeroTable(View(m'), g) && forall v | 0 <= v < VPAGES :: Walk(View(m'), g, 4, v) == Unmapped
  {
    hide Decode, Grown, Idx;
    var e, e' := View(m), View(m');
    DecodeZero();
    assert SameTables(e, e', ow) by {
      forall f, i {:trigger e'(f, i)} | f in ow ensures e'(f, i) == e(f, i) {
        if 0 <= f && 0 <= i < 512 && f * 512 + i < |m| { assert !(g * 512 <= f * 512 + i < g * 512 + 512); }
      }
    }
    forall i | 0 <= i < 512 ensures e'(g, i) == ZERO {}
    SameTablesGrown(e, e', ow);
    assert Forest(e', ow[g := Root]) by {
      hide View;
      RootKeepsForest(e, e', ow, g);
    }
    forall v | 0 <= v < VPAGES ensures Walk(e', g, 4, v) == Unmapped { IdxRange(v, 4); }
  }

  lemma RootKeepsForest(e: Tables, e': Tables, ow: Owners, g: int)
    requires Forest(e, ow) && g !in ow && SameTables(e, e', ow) && ZeroTable(e', g)
    ensures Forest(e', ow[g := Root])
  {
  }

  ghost predicate ZeroTable(e: Tables, g: int) {
    forall i | 0 <= i < 512 :: e(g, i) == ZERO
  }

  // What user mode can reach: the leaf and every entry above it open to user mode.
  ghost predicate UserAccess(e: Tables, root: int, v: int) {
    var t := Walk(e, root, 4, v);
    t.Mapped? && t.u && PathUser(e, root, 4, v)
  }

  // Tables added by mappages never carry the user bit: a page mapped with u is open to user mode
  // exactly when every entry above its own already was before the call.
  lemma UserAccessExact(e0: Tables, ow0: Owners, e: Tables, ow: Owners,
                        root: int, v0: int, n: int, pfn: int, w: bool, u: bool, v: int)
    requires MappedRange(e0, ow0, e, ow, root, v0, n, pfn, w, u)
    requires root in ow0 && ow0[root].Root? && 0 <= v < VPAGES && LastShare(e, root, v0, n, v) >= 0
    ensures UserAccess(e, root, v) <==> u && PathUser(e0, root, 4, v)
  {
    hide Walk, PathUser, EntrySlot, LastShare, LeafFrame;
    assert Walk(e, root, 4, v) == RangeWalk(e0, e, ow, root, v0, n, pfn, w, u, root, v);
    assert PathUser(e, root, 4, v) == PathUser(e0, root, 4, v);
  }

  // Of n pages from page v0 on, the last whose number is v; negative when none is.
  function LastHit(v0: int, n: int, v: int): int {
    n - 1 - (v0 + n - 1 - v) % VPAGES
  }

  lemma LastHitStep(v0: int, n: int, v: int)
    requires 0 <= n && 0 <= v < VPAGES
    ensures v == (v0 + n) % VPAGES ==> LastHit(v0, n + 1, v) == n
    ensures v != (v0 + n) % VPAGES ==> LastHit(v0, n + 1, v) == LastHit(v0, n, v)
  {
    var a := v0 + n - v;
    assert v == (v0 + n) % VPAGES <==> a % VPAGES == 0;
    assert a % VPAGES != 0 ==> (a - 1) % VPAGES == a % VPAGES - 1;
  }

  // A 4 KB entry is shared by no other page.
  lemma {:induction false} ShareIsHit(e: Tables, ow: Owners, root: int, v0: int, n: int, v: int)
    requires Forest(e, ow) && root in ow && ow[root].Root? && RangeFound(e, root, v0, n) && 0 <= n && 0 <= v < VPAGES
    requires SlotLevel(ow, EntrySlot(e, root, 4, v)) == 1
    ensures var k := LastShare(e, root, v0, n, v);
            if LastHit(v0, n, v) >= 0 then k == LastHit(v0, n, v) else k == -1
    decreases n
  {
    hide Forest, EntrySlot, LastHit;
    if n == 0 {
      NoHit(v0, v);
    } else {
      ShareIsHit(e, ow, root, v0, n - 1, v);
      LastHitStep(v0, n - 1, v);
      var v' := RangePage(v0, n - 1);
      assert EntrySlot(e, root, 4, v').At?;
      if EntrySlot(e, root, 4, v') == EntrySlot(e, root, 4, v) { EntrySlotOfRoots(e, ow, root, root, v, v'); }
    }
  }

  lemma NoHit(v0: int, v: int)
    ensures LastHit(v0, 0, v) < 0
  {
  }

  // What mappages does to a page that ends in a 4 KB entry, or in none: page k of the range goes to
  // frame pfn + k, and a page outside the range keeps its translation.
  lemma LeafPageMapped(e0: Tables, ow0: Owners, e: Tables, ow: Owners,
                       root: int, v0: int, n: int, pfn: int, w: bool, u: bool, v: int)
    requires MappedRange(e0, ow0, e, ow, root, v0, n, pfn, w, u) && Forest(e, ow) && 0 <= n
    requires root in ow0 && ow0[root].Root? && 0 <= v < VPAGES && SlotLevel(ow, EntrySlot(e, root, 4, v)) == 1
    ensures Walk(e, root, 4, v) ==
            if LastHit(v0, n, v) >= 0 then Mapped((pfn + LastHit(v0, n, v)) % FRAMES, w, u) else Walk(e0, root, 4, v)
  {
    hide Forest, EntrySlot, LastHit, LastShare, Walk, PathUser, RangeFound;
    ShareIsHit(e, ow, root, v0, n, v);
    assert Walk(e, root, 4, v) == RangeWalk(e0, e, ow, root, v0, n, pfn, w, u, root, v);
  }

  // In a range of at most 2^36 pages every page is hit once, at its own offset.
  lemma LastHitInRange(v0: int, n: int, k: int)
    requires 0 <= k < n <= VPAGES
    ensures LastHit(v0, n, RangePage(v0, k)) == k
  {
    var v, d := RangePage(v0, k), n - 1 - k;
    assert (v0 + n - 1 - v) % VPAGES == d by {
      var q := (v0 + k) / VPAGES;
      assert v == v0 + k - q * VPAGES;
      assert v0 + n - 1 - v == d + q * VPAGES;
      ModShift(d, q);
    }
  }

  lemma ModShift(d: int, q: int)
    requires 0 <= d < VPAGES
    ensures (d + q * VPAGES) % VPAGES == d
  {
  }

  // What a successful call of mappages for up to 2^36 pages does to pages with 4 KB entries: the page of
  // each byte x of the request goes to the frame as many pages from that of pa as x is from va, and a
  // page that holds no byte of it keeps its translation.
  lemma BytesMapped(e0: Tables, ow0: Owners, e: Tables, ow: Owners,
                    root: int, va: u64, size: u64, pa: u64, w: bool, u: bool, v: int)
    requires MappedRange(e0, ow0, e, ow, root, va / PGSIZE, PageCount(va, size), pa / PGSIZE, w, u) && Forest(e, ow)
    requires root in ow0 && ow0[root].Root? && 0 <= v < VPAGES && SlotLevel(ow, EntrySlot(e, root, 4, v)) == 1
    requires 0 < size && va + size <= TWO64 && (va + size - 1) / 4096 - va / 4096 < 0x10_0000_0000
    ensures forall x | va <= x < va + size && x / 4096 % 0x10_0000_0000 == v ::
              Walk(e, root, 4, v) == Mapped((pa / 4096 + x / 4096 - va / 4096) % 0x1000_0000, w, u)
    ensures (forall x | va <= x < va + size :: x / 4096 % 0x10_0000_0000 != v) ==>
              Walk(e, root, 4, v) == Walk(e0, root, 4, v)
  {
    hide MappedRange, Forest, Walk, EntrySlot, LastHit, PageCount;
    var n, v0 := PageCount(va, size), va / PGSIZE;
    CountBytes(va, size);
    LeafPageMapped(e0, ow0, e, ow, root, v0, n, pa / PGSIZE, w, u, v);
    forall x | va <= x < va + size && x / 4096 % 0x10_0000_0000 == v
      ensures Walk(e, root, 4, v) == Mapped((pa / 4096 + x / 4096 - va / 4096) % 0x1000_0000, w, u)
    {
      var k := x / 4096 - va / 4096;
      ByteOffset(va, size, x);
      LastHitInRange(v0, n, k);
    }
    if LastHit(v0, n, v) >= 0 {
      HitIsPage(v0, n, v);
      var k := LastHit(v0, n, v);
      var x := ByteOnPage(va, size, k);
    }
  }

  lemma CountBytes(va: u64, size: u64)
    requires 0 < size && va + size <= TWO64
    ensures PageCount(va, size) == (va + size - 1) / 4096 - va / 4096 + 1 > 0
  {
    CountUpTo(va, va + size - 1);
  }

  lemma ByteOffset(va: u64, size: u64, x: int)
    requires va <= x < va + size
    ensures 0 <= x / 4096 - va / 4096 <= (va + size - 1) / 4096 - va / 4096
    ensures RangePage(va / PGSIZE, x / 4096 - va / 4096) == x / 4096 % 0x10_0000_0000
  {
  }

  // The page last hit is the one asked about.
  lemma HitIsPage(v0: int, n: int, v: int)
    requires 0 <= v < VPAGES && LastHit(v0, n, v) >= 0
    ensures LastHit(v0, n, v) < n && RangePage(v0, LastHit(v0, n, v)) == v
  {
    var a := v0 + n - 1 - v;
    var q := a / VPAGES;
    assert a == q * VPAGES + a % VPAGES;
    assert v0 + LastHit(v0, n, v) == v + q * VPAGES;
    ModShift(v, q);
  }

  // A byte of the request on its k-th page.
  lemma ByteOnPage(va: u64, size: u64, k: int) returns (x: int)
    requires 0 < size && 0 <= k <= (va + size - 1) / 4096 - va / 4096
    ensures va <= x < va + size && x / 4096 == va / 4096 + k
    ensures x / 4096 % 0x10_0000_0000 == RangePage(va / PGSIZE, k)
  {
    x := if k == 0 then va else (va / 4096 + k) * 4096;
    PageFloor(va / 4096 + k, va + size - 1);
  }

  // ---- mappages as written ----

  // Page v of root has translation t, and every other page of every root has the one it had.
  ghost predicate OnlyMapped(e: Tables, ow: Owners, e2: Tables, root: int, v: int, t: Mapping) {
    forall r, v' {:trigger Walk(e2, r, 4, v')} | r in ow && ow[r].Root? && 0 <= v' < VPAGES ::
      Walk(e2, r, 4, v') == if r == root && v' == v then t else Walk(e, r, 4, v')
  }

  // Writing a 4 KB entry maps its page and no other.
  lemma MapOneLeaf(e: Tables, ow: Owners, e1: Tables, ow1: Owners, e2: Tables, root: int, w: int, x: Pte)
    requires MappedOne(e, ow, e1, ow1, e2, root, w, x) && SlotLevel(ow1, EntrySlot(e1, root, 4, w)) == 1
    ensures OnlyMapped(e, ow, e2, root, w, Mapped(x.addr, x.w, x.u))
  {
    hide Forest, Grown, Walk, EntrySlot, PathUser, LeafWritten, EntryKept;
    forall r, v' {:trigger Walk(e2, r, 4, v')} | r in ow && ow[r].Root? && 0 <= v' < VPAGES
      ensures Walk(e2, r, 4, v') == if r == root && v' == w then Mapped(x.addr, x.w, x.u) else Walk(e, r, 4, v')
    {
      MappedOneWalk(e, ow, e1, ow1, e2, root, w, x, root, w);
      MappedOneWalk(e, ow, e1, ow1, e2, root, w, x, r, v');
      if EntrySlot(e1, r, 4, v') == EntrySlot(e1, root, 4, w) { EntrySlotOfRoots(e1, ow1, r, root, v', w); }
    }
  }

  // If one page of the written entry keeps its translation, every page does.
  lemma MapOneSame(e: Tables, ow: Owners, e1: Tables, ow1: Owners, e2: Tables,
                   root: int, w: int, x: Pte, b: int, r: int, v': int)
    requires MappedOne(e, ow, e1, ow1, e2, root, w, x) && 0 <= b < VPAGES && r in ow && ow[r].Root? && 0 <= v' < VPAGES
    requires EntrySlot(e1, root, 4, b) == EntrySlot(e1, root, 4, w) && Walk(e2, root, 4, b) == Walk(e, root, 4, b)
    ensures Walk(e2, r, 4, v') == Walk(e, r, 4, v')
  {
    hide Forest, Walk, EntrySlot, PathUser, LeafFrame, LeafWritten, EntryKept;
    var s := EntrySlot(e1, root, 4, w);
    MappedOneWalk(e, ow, e1, ow1, e2, root, w, x, root, w);
    MappedOneWalk(e, ow, e1, ow1, e2, root, w, x, root, b);
    MappedOneWalk(e, ow, e1, ow1, e2, root, w, x, r, v');
    assert Walk(e1, root, Level(ow[root]), b) == Walk(e, root, Level(ow[root]), b);
    assert Walk(e1, root, Level(ow[root]), v') == Walk(e, root, Level(ow[root]), v');
    WalkThrough(e1, ow1, s, root, 4, b);
    WalkThrough(e1, ow1, s, root, 4, v');
    LeafFrameBase(e1(s.f, s.i).addr, x.addr, b, Level(ow1[s.f]));
    LeafFrameBase(e1(s.f, s.i).addr, x.addr, v', Level(ow1[s.f]));
  }

  // vmm.cpp:24 takes the indices from the word stored at va: page w is walked to in place of page v.
  // v gets the translation asked for and every other page keeps its own exactly when the two are one page
  // with a 4 KB entry, or v had that translation and the entry of w already gave w the one now written.
  lemma MapOneAsWrittenExact(e: Tables, ow: Owners, e1: Tables, ow1: Owners, e2: Tables,
                             root: int, v: int, w: int, x: Pte)
    requires MappedOne(e, ow, e1, ow1, e2, root, w, x) && 0 <= v < VPAGES
    ensures OnlyMapped(e, ow, e2, root, v, Mapped(x.addr, x.w, x.u)) <==>
            var l := SlotLevel(ow1, EntrySlot(e1, root, 4, w));
            || (v == w && l == 1)
            || (&& Walk(e, root, 4, v) == Mapped(x.addr, x.w, x.u)
                && Walk(e, root, 4, w) == Mapped(LeafFrame(x.addr, w, l), x.w, x.u))
  {
    hide Forest, Grown, Walk, EntrySlot, PathUser, LeafFrame, LeafWritten, EntryKept;
    var l := SlotLevel(ow1, EntrySlot(e1, root, 4, w));
    MappedOneWalk(e, ow, e1, ow1, e2, root, w, x, root, w);
    if l == 1 { MapOneLeaf(e, ow, e1, ow1, e2, root, w, x); }
    var b := if v == w && l > 1 then Buddy(w) else w;
    MapOneShare(e, ow, e1, ow1, e2, root, w, x, b);
    MappedOneWalk(e, ow, e1, ow1, e2, root, w, x, root, b);
    if Walk(e2, root, 4, b) == Walk(e, root, 4, b) {
      forall r, v' {:trigger Walk(e2, r, 4, v')} | r in ow && ow[r].Root? && 0 <= v' < VPAGES
        ensures Walk(e2, r, 4, v') == Walk(e, r, 4, v')
      {
        MapOneSame(e, ow, e1, ow1, e2, root, w, x, b, r, v');
      }
      assert Walk(e2, root, 4, v) == Walk(e, root, 4, v);
    } else if Walk(e2, root, 4, w) == Walk(e, root, 4, w) {
      MapOneSame(e, ow, e1, ow1, e2, root, w, x, w, root, b);
    }
  }

  // Page w and, under a large entry, its neighbour end in the entry of w.
  lemma MapOneShare(e: Tables, ow: Owners, e1: Tables, ow1: Owners, e2: Tables, root: int, w: int, x: Pte, b: int)
    requires MappedOne(e, ow, e1, ow1, e2, root, w, x)
    requires b == w || (SlotLevel(ow1, EntrySlot(e1, root, 4, w)) > 1 && b == Buddy(w))
    ensures 0 <= b < VPAGES && EntrySlot(e1, root, 4, b) == EntrySlot(e1, root, 4, w) && (b != w ==> b == Buddy(w) != w)
  {
    hide Forest, Walk, EntrySlot, PathUser, LeafWritten, EntryKept, Idx, Buddy;
    if b != w {
      BuddyIdx(w);
      EntrySlotShared(e1, ow1, root, 4, w, b);
    }
  }

  // Empty tables, va == 0x1000 and the word stored there 0: page 0 is mapped and page 1 is not.
  lemma MapOneAsWrittenFails(e: Tables, root: int, e1: Tables, ow1: Owners, e2: Tables, x: Pte)
    requires (forall f, i :: e(f, i) == ZERO) && MappedOne(e, map[root := Root], e1, ow1, e2, root, PageOf(0), x)
    ensures !OnlyMapped(e, map[root := Root], e2, root, PageOf(0x1000), Mapped(x.addr, x.w, x.u))
    ensures SlotLevel(ow1, EntrySlot(e1, root, 4, PageOf(0))) == 1 ==> Walk(e2, root, 4, PageOf(0x1000)) == Unmapped
  {
    hide Forest, Grown, EntrySlot, PathUser, LeafFrame, LeafWritten, EntryKept, Idx;
    assert PageOf(0) == 0 && PageOf(0x1000) == 1;
    assert Walk(e, root, 4, 1) == Unmapped;
    MapOneAsWrittenExact(e, map[root := Root], e1, ow1, e2, root, 1, 0, x);
    if SlotLevel(ow1, EntrySlot(e1, root, 4, 0)) == 1 { MapOneLeaf(e, map[root := Root], e1, ow1, e2, root, 0, x); }
  }

  // ---- pages taken for tables ----

  function Min(a: int, b: int): int { if a < b then a else b }

  // What derefpte does to tables and pages: nothing, unless the entry is absent, allocation is
  // asked for and a page is free; then the first free page is hung under the entry.
  ghost predicate Derefd(e: Tables, s: PmmRuns.Pool, ow: Owners, e': Tables, s': PmmRuns.Pool, ow': Owners,
                         f: int, i: int, alloc: bool, pt: u64)
  {
    if e(f, i).p || !alloc || s.free == [] then
      && e' == e && s' == s && ow' == ow
      && (pt == 0 <==> !e(f, i).p) && (pt != 0 ==> FrameOf(pt) == e(f, i).addr)
    else
      var g := s.free[0];
      && pt != 0 && FrameOf(pt) == g
      && CanHang(e, ow, f, i, g) && NewTable(e, e', f, i, g) && ow' == Hang(ow, f, i, g)
      && s' == PmmRuns.Step(s, PmmRuns.Take(1))
  }

  // On the way to page v of root, having come to table f of level l and taken c pages.
  ghost predicate OnWay(e0: Tables, s0: PmmRuns.Pool, e: Tables, s: PmmRuns.Pool,
                        root: int, v: int, f: int, l: int, c: int)
  {
    && 1 <= l <= 4 && Table(e, root, 4, v, l) == Some(f) && OnlyPath(e0, e, root, v)
    && 0 <= c <= |s0.free| && s == PmmRuns.Step(s0, PmmRuns.Take(c))
    && Missing(e, f, l, v) == Missing(e0, root, 4, v) - c
  }

  lemma WayStart(e: Tables, s: PmmRuns.Pool, root: int, v: int)
    ensures OnWay(e, s, e, s, root, v, root, 4, 0)
  {
    PmmRuns.TakeNone(s);
  }

  lemma WayDown(e0: Tables, s0: PmmRuns.Pool, e: Tables, s: PmmRuns.Pool, root: int, v: int, f: int, l: int, c: int)
    requires OnWay(e0, s0, e, s, root, v, f, l, c) && 2 <= l && Points(e(f, Idx(v, l)), l)
    ensures OnWay(e0, s0, e, s, root, v, e(f, Idx(v, l)).addr, l - 1, c)
  {
    hide Idx, OnlyPath, PmmRuns.Step;
    TableBelow(e, root, 4, v, l - 1);
  }

  lemma WayHang(e0: Tables, s0: PmmRuns.Pool, e: Tables, s: PmmRuns.Pool, e': Tables, ow: Owners,
                root: int, v: int, f: int, l: int, c: int, g: int)
    requires OnWay(e0, s0, e, s, root, v, f, l, c) && 2 <= l && s.free != [] && 0 <= v < VPAGES
    requires Forest(e, ow) && root in ow && ow[root].Root? && !Stops(e(f, Idx(v, l)), l)
    requires CanHang(e, ow, f, Idx(v, l), g) && NewTable(e, e', f, Idx(v, l), g)
    ensures OnWay(e0, s0, e', PmmRuns.Step(s, PmmRuns.Take(1)), root, v, g, l - 1, c + 1)
  {
    hide Idx, OnlyPath, Forest, Table;
    HangOnlyPath(e, e', ow, root, v, l, g);
    OnlyPathTrans(e0, e, e', root, v);
    HangTable(e, e', ow, f, Idx(v, l), g, root, 4, v, l);
    TableBelow(e', root, 4, v, l - 1);
    IdxRange(v, l - 1);
    PmmRuns.TakeTake(s0, c, 1);
  }

  // One derefpte on the way.
  lemma WayDeref(e0: Tables, s0: PmmRuns.Pool, e: Tables, s: PmmRuns.Pool, ow: Owners,
                 e': Tables, s': PmmRuns.Pool, ow': Owners,
                 root: int, v: int, f: int, l: int, c: int, alloc: bool, pt: u64) returns (c': int)
    requires OnWay(e0, s0, e, s, root, v, f, l, c) && 2 <= l && 0 <= v < VPAGES
    requires Forest(e, ow) && root in ow && ow[root].Root? && !Stops(e(f, Idx(v, l)), l)
    requires Derefd(e, s, ow, e', s', ow', f, Idx(v, l), alloc, pt)
    ensures !alloc ==> c' == c
    ensures pt != 0 ==> OnWay(e0, s0, e', s', root, v, FrameOf(pt), l - 1, c')
    ensures pt == 0 ==> OnWay(e0, s0, e', s', root, v, f, l, c') && Missing(e', f, l, v) > 0 && (alloc ==> c' == |s0.free|)
  {
    hide Idx, Forest, NewTable, CanHang;
    c' := c;
    var x := e(f, Idx(v, l));
    if x.p {
      WayDown(e0, s0, e, s, root, v, f, l, c);
    } else if alloc && s.free != [] {
      WayHang(e0, s0, e, s, e', ow, root, v, f, l, c, s.free[0]);
      c' := c + 1;
    }
  }

  // Pages a walk takes that lacks some tables, given the free pages there are.
  function Taken(missing: int, free: int, alloc: bool): int {
    if alloc then Min(missing, free) else 0
  }

  // Where the walk ends: at an entry, with nothing missing, or short of one, with nothing left.
  lemma WayEnds(e0: Tables, s0: PmmRuns.Pool, e: Tables, s: PmmRuns.Pool,
                root: int, v: int, f: int, l: int, c: int, alloc: bool)
    requires OnWay(e0, s0, e, s, root, v, f, l, c) && (!alloc ==> c == 0)
    requires Stops(e(f, Idx(v, l)), l) || (Missing(e, f, l, v) > 0 && (alloc ==> c == |s0.free|))
    ensures var missing := Missing(e0, root, 4, v);
            && c == Taken(missing, |s0.free|, alloc) && 0 <= c <= |s0.free|
            && (Stops(e(f, Idx(v, l)), l) ==> missing == c)
            && (!Stops(e(f, Idx(v, l)), l) ==> missing > c)
            && s == PmmRuns.Step(s0, PmmRuns.Take(c)) && OnlyPath(e0, e, root, v)
  {
    hide Idx, OnlyPath, PmmRuns.Step;
  }

  // After n pages: their ways are made, and each table missing on them took one page.
  ghost predicate MapProgress(e0: Tables, s0: PmmRuns.Pool, e: Tables, s: PmmRuns.Pool, root: int, v0: int, n: int) {
    var c := |NeededRange(e0, root, v0, n)|;
    MadeRange(e0, e, root, v0, n) && c <= |s0.free| && s == PmmRuns.Step(s0, PmmRuns.Take(c))
  }

  lemma MapStart(e: Tables, s: PmmRuns.Pool, root: int, v0: int)
    ensures MapProgress(e, s, e, s, root, v0, 0)
  {
    hide MadeRange, NeededRange;
    MadeNone(e, root, v0);
    PmmRuns.TakeNone(s);
  }

  lemma MapEnds(e0: Tables, s0: PmmRuns.Pool, e: Tables, s: PmmRuns.Pool, root: int, v0: int, n: int)
    requires MapProgress(e0, s0, e, s, root, v0, n)
    ensures var c := |NeededRange(e0, root, v0, n)|;
            c <= |s0.free| && s == PmmRuns.Step(s0, PmmRuns.Take(Min(c, |s0.free|)))
  {
  }

  // While the pages taken suffice, a loop to the top page has not come round.
  lemma MapNotDone(e0: Tables, s0: PmmRuns.Pool, e: Tables, s: PmmRuns.Pool, root: int, v0: int, n: int)
    requires MapProgress(e0, s0, e, s, root, v0, n) && |NeededRange(e0, root, v0, VPAGES)| > |s0.free|
    ensures n < VPAGES
  {
    hide MadeRange, NeededRange;
    if n >= VPAGES { NeededGrows(e0, root, v0, VPAGES, n); }
  }

  lemma MapOneMore(e0: Tables, s0: PmmRuns.Pool, e: Tables, s: PmmRuns.Pool, e1: Tables, s1: PmmRuns.Pool,
                   root: int, v0: int, n: int)
    requires MapProgress(e0, s0, e, s, root, v0, n) && 0 <= n
    requires OnlyPath(e, e1, root, RangePage(v0, n)) && EntrySlot(e1, root, 4, RangePage(v0, n)).At?
    requires var m := Missing(e, root, 4, RangePage(v0, n));
             0 <= m <= |s.free| && s1 == PmmRuns.Step(s, PmmRuns.Take(m))
    ensures MapProgress(e0, s0, e1, s1, root, v0, n + 1)
  {
    hide MadeRange, NeededRange, OnlyPath, EntrySlot, Missing, RangePage;
    var c, m := |NeededRange(e0, root, v0, n)|, Missing(e, root, 4, RangePage(v0, n));
    NeededOneMore(e0, e, root, v0, n);
    MissingNone(e1, root, 4, RangePage(v0, n));
    MadeOneMore(e0, e, e1, root, v0, n);
    PmmRuns.TakeTake(s0, c, m);
  }

  lemma MapFails(e0: Tables, s0: PmmRuns.Pool, e: Tables, s: PmmRuns.Pool, s1: PmmRuns.Pool,
                 root: int, v0: int, n: int, total: int)
    requires MapProgress(e0, s0, e, s, root, v0, n) && 0 <= n < total
    requires Missing(e, root, 4, RangePage(v0, n)) > |s.free|
    requires s1 == PmmRuns.Step(s, PmmRuns.Take(|s.free|))
    ensures var needed := |NeededRange(e0, root, v0, total)|;
            needed > |s0.free| && s1 == PmmRuns.Step(s0, PmmRuns.Take(Min(needed, |s0.free|)))
  {
    hide MadeRange, NeededRange, Missing, RangePage;
    NeededOneMore(e0, e, root, v0, n);
    NeededGrows(e0, root, v0, n + 1, total);
    PmmRuns.TakeTake(s0, |NeededRange(e0, root, v0, n)|, |s.free|);
  }

  lemma MapLeaf(e0: Tables, s0: PmmRuns.Pool, e: Tables, s: PmmRuns.Pool, e': Tables, ow: Owners, at: Slot, x: Pte,
                root: int, v0: int, n: int)
    requires MapProgress(e0, s0, e, s, root, v0, n) && Forest(e, ow) && root in ow && ow[root].Root?
    requires CanWrite(e, ow, at, x) && LeafWritten(e, e', at, x)
    ensures MapProgress(e0, s0, e', s, root, v0, n)
  {
    hide Forest, MadeRange, NeededRange, LeafWritten, CanWrite;
    LeafKeepsMade(e0, e, e', ow, at, x, root, v0, n);
  }

  // ---- setupkvm ----

  // Every page of every root in ow0 translates in e as it did in e0.
  ghost predicate SameWalks(e0: Tables, ow0: Owners, e: Tables) {
    forall r, v {:trigger Walk(e, r, 4, v)} | r in ow0 && ow0[r].Root? && 0 <= v < VPAGES ::
      Walk(e, r, 4, v) == Walk(e0, r, 4, v)
  }

  lemma GrownWalks(e: Tables, ow: Owners, e': Tables)
    requires Grown(e, ow, e', ow)
    ensures SameWalks(e, ow, e')
  {
    hide Walk, PathUser, EntryKept;
    forall r, v {:trigger Walk(e', r, 4, v)} | r in ow && ow[r].Root? && 0 <= v < VPAGES
      ensures Walk(e', r, 4, v) == Walk(e, r, 4, v)
    {
      assert Walk(e', r, Level(ow[r]), v) == Walk(e, r, Level(ow[r]), v);
    }
  }

  // The test of the result as written: null when mappages has succeeded.
  function KeptAfter(failed: bool, pml4: u64): u64 {
    if failed then pml4 else 0
  }

  // A call up to the top page that returns has failed.
  lemma TopFails(e: Tables, root: int, free: int)
    requires Returns(e, root, 0, 0, free)
    ensures Visits(0, 0) == VPAGES && |NeededRange(e, root, 0, Visits(0, 0))| > free
  {
    hide NeededRange;
    GuardNeverFailsExact(0, 0);
  }

  // It has changed no other root, and would fail again.
  lemma TopMapped(e0: Tables, ow0: Owners, e: Tables, ow: Owners, e': Tables, ow': Owners, root: int)
    requires SameWalks(e0, ow0, e) && root !in ow0 && forall r | r in ow0 && ow0[r].Root? :: r in ow && ow[r].Root?
    requires exists n | 0 <= n < VPAGES ::
               MappedRange(e, ow, e', ow', root, 0, n, 0, false, false) && EntrySlot(e', root, 4, RangePage(0, n)) == NoSlot
    ensures SameWalks(e0, ow0, e') && Returns(e', root, 0, 0, 0)
    ensures forall r | r in ow0 && ow0[r].Root? :: r in ow' && ow'[r].Root?
  {
    hide Walk, PathUser, EntrySlot, RangePage, NeededRange, LastShare, LeafFrame, ToTop;
    var n :| 0 <= n < VPAGES
             && MappedRange(e, ow, e', ow', root, 0, n, 0, false, false) && EntrySlot(e', root, 4, RangePage(0, n)) == NoSlot;
    NeededSome(e', root, 0, n, VPAGES);
    forall r, v {:trigger Walk(e', r, 4, v)} | r in ow0 && ow0[r].Root? && 0 <= v < VPAGES
      ensures Walk(e', r, 4, v) == Walk(e0, r, 4, v)
    {
      assert Walk(e', r, 4, v) == RangeWalk(e, e', ow', root, 0, n, 0, false, false, r, v);
      assert Walk(e, r, 4, v) == Walk(e0, r, 4, v);
    }
  }

  // One page taken, then the rest.
  lemma TakenFirst(s0: PmmRuns.Pool, s: PmmRuns.Pool)
    requires s0.free != [] && s == PmmRuns.Step(s0, PmmRuns.Take(1))
    ensures |s.free| <= |s0.free| && s == PmmRuns.Step(s0, PmmRuns.Take(|s0.free| - |s.free|))
  {
  }

  lemma TakenAll(s0: PmmRuns.Pool, s: PmmRuns.Pool, s': PmmRuns.Pool)
    requires |s.free| <= |s0.free| && s == PmmRuns.Step(s0, PmmRuns.Take(|s0.free| - |s.free|))
    requires s' == PmmRuns.Step(s, PmmRuns.Take(|s.free|))
    ensures s'.free == [] && s' == PmmRuns.Step(s0, PmmRuns.Take(|s0.free|))
  {
    PmmRuns.TakeTake(s0, |s0.free| - |s.free|, |s.free|);
  }

  class Machine {
    const ram: array<u64>
    const frames: nat
    var freelist: u64
    ghost var free: seq<int>
    ghost var live: set<int>
    ghost var owners: Owners

    // Memory with one empty root and no free page yet.
    constructor (frames: nat, root: int)
      requires 0 <= root < frames <= PHYS_FRAMES
      ensures Valid() && this.frames == frames && free == [] && live == {} && owners == map[root := Root] && fresh(ram)
    {
      this.frames := frames;
      ram := new u64[frames * 512](_ => 0);
      freelist := 0;
      free := [];
      live := {};
      owners := map[root := Root];
      new;
      DecodeZero();
    }

    ghost predicate Valid()
      reads this, ram
    {
      && ram.Length == frames * 512
      && FreeList(ram[..], frames, free, freelist)
      && Forest(View(ram[..]), owners)
      && (forall f | f in owners :: 0 <= f < frames && f !in free)
      && (forall g | g in live :: g !in free && g !in owners)
    }

    // Where the pages are.
    ghost function Pages(): PmmRuns.Pool
      reads this
    {
      PmmRuns.Pool(free, live, owners.Keys)
    }

    // No page is in two places.
    lemma PagesGood()
      requires Valid()
      ensures PmmRuns.Good(Pages())
    {
      hide Forest, View;
      forall i | 0 <= i < |free| ensures free[i] !in live && free[i] !in owners.Keys { assert free[i] in free; }
      forall g | g in live ensures g !in owners.Keys {}
    }

    // ---- pmm ----

    method PmmFree(va: u64)
      requires Valid()
      requires var g := FrameOf(va); 0 <= g < frames && va == PtrTo(g) && g !in free && g !in owners
      modifies ram, this`freelist, this`free, this`live
      ensures Valid()
      ensures Pages() == PmmRuns.Step(old(Pages()), PmmRuns.Free(FrameOf(va)))
      ensures free == [FrameOf(va)] + old(free) && live == old(live) - {FrameOf(va)}
      ensures Grown(old(View(ram[..])), owners, View(ram[..]), owners)
    {
      hide Forest, FreeList, View, Grown, FrameOf, PtrTo;
      ghost var m, g := ram[..], FrameOf(va);
      ram[FrameOf(va) * 512] := freelist;
      ghost var m' := ram[..];
      assert m' == m[g * 512 + 0 := freelist];
      FreeListPush(m, frames, free, freelist, g);
      ViewWrite(m, g, 0, freelist);
      SameTablesForest(View(m), View(m'), owners);
      SameTablesGrown(View(m), View(m'), owners);
      freelist := va;
      free, live := [g] + free, live - {g};
      assert ram[..] == m';
    }

    method PmmAlloc() returns (node: u64)
      requires Valid()
      modifies this`freelist, this`free, this`live
      ensures Valid()
      ensures Pages() == PmmRuns.Step(old(Pages()), PmmRuns.Alloc)
      ensures old(free) == [] ==> node == 0
      ensures old(free) != [] ==>
                && var g := old(free)[0];
                && node == PtrTo(g) && 0 <= g < frames && g !in old(live)
                && g !in free && g !in owners && node != 0 && FrameOf(node) == g
    {
      node := freelist;
      if free != [] {
        FreeListPop(ram[..], frames, free, freelist);
        PointerRoundTrip(free[0]);
      }
      if node != 0 {
        freelist := ram[FrameOf(node) * 512];
        free, live := free[1..], live + {free[0]};
      }
    }

    // Frees, one by one, the pages that lie wholly inside [vstart, vend).
    method PmmFreeRange(vstart: u64, vend: u64)
      requires Valid()
      requires KVA_KERNEL_BEGIN <= vstart <= KVA_KERNEL_BEGIN + PHYSTOP
      requires vend <= KVA_KERNEL_BEGIN + frames * PGSIZE
      requires forall g | PageInside(g, vstart, vend) :: g !in free && g !in owners
      modifies ram, this`freelist, this`free, this`live
      ensures Valid()
      ensures forall g :: g in free <==> g in old(free) || PageInside(g, vstart, vend)
      ensures forall g :: g in live <==> g in old(live) && !PageInside(g, vstart, vend)
      ensures Grown(old(View(ram[..])), owners, View(ram[..]), owners)
    {
      hide Forest, FreeList, View, Grown, FrameOf, PtrTo;
      ghost var e0 := View(ram[..]);
      ValidFacts();
      GrownRefl(e0, owners);
      var p: int := RoundUp(vstart);
      ghost var g0 := (p - KVA_KERNEL_BEGIN) / PGSIZE;
      ghost var g := g0;
      RoundUpPage(vstart);
      while p + PGSIZE <= vend
        invariant Valid() && g0 <= g && p == KVA_KERNEL_BEGIN + g * PGSIZE
        invariant forall x :: x in free <==> x in old(free) || g0 <= x < g
        invariant forall x :: x in live <==> x in old(live) && !(g0 <= x < g)
        invariant g0 < g ==> p <= vend
        invariant Grown(e0, owners, View(ram[..]), owners)
        decreases vend - p
      {
        ghost var e := View(ram[..]);
        PointerRoundTrip(g);
        assert PageInside(g, vstart, vend);
        PmmFree(p);
        GrownTrans(e0, owners, e, owners, View(ram[..]), owners);
        p := p + PGSIZE;
        g := g + 1;
      }
    }

    lemma ValidFacts()
      requires Valid()
      ensures Forest(View(ram[..]), owners) && frames <= PHYS_FRAMES
    {
    }

    // ---- vmm ----

    // A fresh, zeroed PML4: the first lines of setupkvm.
    method NewRoot() returns (pml4: u64)
      requires Valid()
      modifies ram, this
      ensures Valid()
      ensures pml4 == 0 <==> old(free) == []
      ensures Pages() == PmmRuns.Step(old(Pages()), PmmRuns.Take(if old(free) == [] then 0 else 1))
      ensures pml4 == 0 ==> owners == old(owners) && View(ram[..]) == old(View(ram[..]))
      ensures pml4 != 0 ==>
                && FrameOf(pml4) !in old(owners) && owners == old(owners)[FrameOf(pml4) := Root]
                && Grown(old(View(ram[..])), old(owners), View(ram[..]), old(owners))
                && ZeroTable(View(ram[..]), FrameOf(pml4))
                && forall v | 0 <= v < VPAGES :: Walk(View(ram[..]), FrameOf(pml4), 4, v) == Unmapped
    {
      hide Forest, FreeList, Grown, FrameOf, PtrTo, Decode, Idx;
      ghost var m := ram[..];
      PmmRuns.TakeNone(Pages());
      pml4 := PmmAlloc();
      if pml4 == 0 {
        return;
      }
      ghost var g := FrameOf(pml4);
      ZeroPage(FrameOf(pml4));
      ghost var m' := ram[..];
      RootInstalled(m, m', owners, g);
      TableFreeList(m, m', frames, free, freelist, g, 0, g);
      owners, live := owners[g := Root], live - {g};
      assert ram[..] == m';
    }

    // memset of a page to zero.
    method ZeroPage(g: int)
      requires ram.Length == frames * 512 && 0 <= g < frames
      modifies ram
      ensures forall i | 0 <= i < ram.Length :: ram[i] == if g * 512 <= i < g * 512 + 512 then 0 else old(ram[i])
    {
      var i := 0;
      while i < 512
        invariant 0 <= i <= 512
        invariant forall j | 0 <= j < ram.Length :: ram[j] == if g * 512 <= j < g * 512 + i then 0 else old(ram[j])
      {
        ram[g * 512 + i] := 0;
        i := i + 1;
      }
    }

    // The table under entry (f, i), allocated on demand; 0 when there is none.
    method DerefPte(f: int, i: int, alloc: bool) returns (pt: u64)
      requires Valid() && f in owners && 0 <= i < 512 && Level(owners[f]) >= 2
      requires !Stops(View(ram[..])(f, i), Level(owners[f]))
      modifies ram, this
      ensures Valid() && Grown(old(View(ram[..])), old(owners), View(ram[..]), owners)
      ensures f in owners && owners[f] == old(owners[f])
      ensures Derefd(old(View(ram[..])), old(Pages()), old(owners), View(ram[..]), Pages(), owners, f, i, alloc, pt)
      ensures pt != 0 ==>
                && Points(View(ram[..])(f, i), Level(owners[f]))
                && View(ram[..])(f, i).addr == FrameOf(pt)
      ensures pt == 0 ==>
                && !View(ram[..])(f, i).p && !Stops(View(ram[..])(f, i), Level(owners[f]))
    {
      hide Forest, FreeList, Grown, FrameOf, PtrTo, P2KV, KvaToPteAddr, Decode, Encode, NewTable;
      TableEntry(f, i);
      GrownRefl(View(ram[..]), owners);
      var pte := Decode(ram[f * 512 + i]);
      if pte.p {
        pt := P2KV(pte.addr * PGSIZE);
      } else {
        if !alloc {
          return 0;
        }
        ghost var m, ow, fl := ram[..], owners, free;
        pt := PmmAlloc();
        if pt == 0 {
          return 0;
        }
        ghost var g := FrameOf(pt);
        PointerRoundTrip(g);
        ZeroPage(FrameOf(pt));
        ghost var m1 := ram[..];
        ram[f * 512 + i] := Encode(ZERO.(p := true, w := true, addr := KvaToPteAddr(pt)));
        ghost var m' := ram[..];
        DecodeEncode(ZERO.(p := true, w := true, addr := g));
        TableInstalled(m, m1, m', f, i, g);
        HangKeepsForest(View(m), View(m'), owners, f, i, g);
        HangGrows(View(m), View(m'), owners, f, i, g);
        TableFreeList(m, m', frames, free, freelist, f, i, g);
        owners, live := Hang(owners, f, i, g), live - {g};
        assert ram[..] == m';
      }
    }

    // What Valid says about an entry of a table.
    lemma TableEntry(f: int, i: int)
      requires Valid() && f in owners && 0 <= i < 512
      ensures ram.Length == frames * 512 && 0 <= f < frames <= PHYS_FRAMES && 1 <= Level(owners[f]) <= 4
      ensures Forest(View(ram[..]), owners)
      ensures View(ram[..])(f, i) == Decode(ram[f * 512 + i])
      ensures Points(View(ram[..])(f, i), Level(owners[f])) ==>
                var g := View(ram[..])(f, i).addr;
                && 0 <= g < frames && g in owners && owners[g] == Child(f, i, Level(owners[f]) - 1)
                && P2KV(g * PGSIZE) == PtrTo(g) && FrameOf(PtrTo(g)) == g && PtrTo(g) != 0
    {
      hide Decode, FrameOf, PtrTo, P2KV, KvaToPteAddr;
      var x := View(ram[..])(f, i);
      if Points(x, Level(owners[f])) { PointerRoundTrip(x.addr); }
    }

    // One table further on the way to page v, from table f of level l.
    method Descend(ghost root: int, v: int, f: int, l: int, alloc: bool,
                   ghost e0: Tables, ghost ow0: Owners, ghost s0: PmmRuns.Pool, ghost c: int)
      returns (pt: u64, ghost c': int)
      requires Valid() && 0 <= v < VPAGES && 2 <= l <= 4 && root in owners && owners[root].Root?
      requires Grown(e0, ow0, View(ram[..]), owners) && OnWay(e0, s0, View(ram[..]), Pages(), root, v, f, l, c)
      requires f in owners && Level(owners[f]) == l && !Stops(View(ram[..])(f, Idx(v, l)), l)
      modifies ram, this
      ensures Valid() && Grown(e0, ow0, View(ram[..]), owners) && root in owners && owners[root].Root? && (!alloc ==> c' == c)
      ensures pt != 0 ==> OnWay(e0, s0, View(ram[..]), Pages(), root, v, FrameOf(pt), l - 1, c')
      ensures pt == 0 ==>
                && OnWay(e0, s0, View(ram[..]), Pages(), root, v, f, l, c') && (alloc ==> c' == |s0.free|)
                && !View(ram[..])(f, Idx(v, l)).p && !Stops(View(ram[..])(f, Idx(v, l)), l)
                && Missing(View(ram[..]), f, l, v) > 0
    {
      hide Forest, FreeList, View, Grown, Valid, FrameOf, Idx, OnWay, Derefd, Missing, PmmRuns.Step;
      IdxRange(v, l);
      TableEntry(f, Idx(v, l));
      ghost var e, ow, s := View(ram[..]), owners, Pages();
      GrownRoot(e0, ow0, e, ow, root);
      pt := DerefPte(f, Idx(v, l), alloc);
      ghost var e', ow' := View(ram[..]), owners;
      c' := WayDeref(e0, s0, e, s, ow, e', Pages(), ow', root, v, f, l, c, alloc, pt);
      GrownTrans(e0, ow0, e, ow, e', ow');
      GrownRoot(e, ow, e', ow', root);
    }

    method GetAddrPte(root: int, va: u64, alloc: bool) returns (pte: Slot)
      requires Valid() && root in owners && owners[root].Root?
      modifies ram, this
      ensures Valid() && Grown(old(View(ram[..])), old(owners), View(ram[..]), owners)
      ensures pte == EntrySlot(View(ram[..]), root, 4, PageOf(va))
      ensures pte.At? ==> pte.f in owners && 0 <= pte.i < 512
      ensures var missing := Missing(old(View(ram[..])), root, 4, PageOf(va));
              && (pte == NoSlot <==> missing > (if alloc then |old(free)| else 0))
              && 0 <= Taken(missing, |old(free)|, alloc) <= |old(free)|
              && Pages() == PmmRuns.Step(old(Pages()), PmmRuns.Take(Taken(missing, |old(free)|, alloc)))
      ensures OnlyPath(old(View(ram[..])), View(ram[..]), root, PageOf(va))
    {
      hide Forest, FreeList, View, Grown, Valid, FrameOf, Idx, OnWay, Missing, OnlyPath, PmmRuns.Step, Taken, EntrySlot;
      ghost var e0, ow0, s0, c := View(ram[..]), owners, Pages(), 0;
      var v := PageOf(va);
      GrownStart();
      WayStart(e0, s0, root, v);
      var pdpt, pd, pt;
      pdpt, c := Descend(root, v, root, 4, alloc, e0, ow0, s0, c);
      if pdpt == 0 {
        EndOfWay(root, v, root, 4, alloc, e0, s0, c);
        return NoSlot;
      }
      WayTable(root, v, FrameOf(pdpt), 3, e0, s0, c);
      if LargeAt(FrameOf(pdpt), Idx(v, 3)) {
        EndOfWay(root, v, FrameOf(pdpt), 3, alloc, e0, s0, c);
        return At(FrameOf(pdpt), Idx(v, 3));
      }
      pd, c := Descend(root, v, FrameOf(pdpt), 3, alloc, e0, ow0, s0, c);
      if pd == 0 {
        EndOfWay(root, v, FrameOf(pdpt), 3, alloc, e0, s0, c);
        return NoSlot;
      }
      WayTable(root, v, FrameOf(pd), 2, e0, s0, c);
      if LargeAt(FrameOf(pd), Idx(v, 2)) {
        EndOfWay(root, v, FrameOf(pd), 2, alloc, e0, s0, c);
        return At(FrameOf(pd), Idx(v, 2));
      }
      pt, c := Descend(root, v, FrameOf(pd), 2, alloc, e0, ow0, s0, c);
      if pt == 0 {
        EndOfWay(root, v, FrameOf(pd), 2, alloc, e0, s0, c);
        return NoSlot;
      }
      WayTable(root, v, FrameOf(pt), 1, e0, s0, c);
      EndOfWay(root, v, FrameOf(pt), 1, alloc, e0, s0, c);
      return At(FrameOf(pt), Idx(v, 1));
    }

    lemma GrownStart()
      requires Valid()
      ensures Grown(View(ram[..]), owners, View(ram[..]), owners)
      ensures forall r, v | r in owners && owners[r].Root? && 0 <= v < VPAGES :: !Stops(View(ram[..])(r, Idx(v, 4)), 4)
    {
      hide Forest, FreeList, View, Grown, Idx;
      GrownRefl(View(ram[..]), owners);
    }

    // The table come to is one of the forest's.
    lemma WayTable(root: int, v: int, f: int, l: int, e0: Tables, s0: PmmRuns.Pool, c: int)
      requires Valid() && root in owners && owners[root].Root? && 0 <= v < VPAGES
      requires OnWay(e0, s0, View(ram[..]), Pages(), root, v, f, l, c)
      ensures f in owners && Level(owners[f]) == l && ram.Length == frames * 512 && 0 <= f < frames
      ensures 0 <= Idx(v, l) < 512 && View(ram[..])(f, Idx(v, l)) == Decode(ram[f * 512 + Idx(v, l)])
    {
      hide Forest, FreeList, View, OnlyPath, Idx, Missing, PmmRuns.Step, Decode;
      IdxRange(v, l);
      TableLevel(View(ram[..]), owners, root, 4, v, l);
      TableEntry(f, Idx(v, l));
    }

    // What the walk has found and taken where it ends.
    lemma EndOfWay(root: int, v: int, f: int, l: int, alloc: bool, e0: Tables, s0: PmmRuns.Pool, c: int)
      requires Valid() && OnWay(e0, s0, View(ram[..]), Pages(), root, v, f, l, c) && (!alloc ==> c == 0)
      requires || Stops(View(ram[..])(f, Idx(v, l)), l)
               || (&& !View(ram[..])(f, Idx(v, l)).p && Missing(View(ram[..]), f, l, v) > 0
                   && (alloc ==> c == |s0.free|))
      ensures var missing, stops := Missing(e0, root, 4, v), Stops(View(ram[..])(f, Idx(v, l)), l);
              && EntrySlot(View(ram[..]), root, 4, v) == (if stops then At(f, Idx(v, l)) else NoSlot)
              && (!stops <==> missing > (if alloc then |s0.free| else 0))
              && 0 <= Taken(missing, |s0.free|, alloc) <= |s0.free|
              && Pages() == PmmRuns.Step(s0, PmmRuns.Take(Taken(missing, |s0.free|, alloc)))
              && OnlyPath(e0, View(ram[..]), root, v)
    {
      hide Forest, FreeList, View, OnlyPath, Idx, PmmRuns.Step, Valid;
      WayEnds(e0, s0, View(ram[..]), Pages(), root, v, f, l, c, alloc);
      EntryOnWay(View(ram[..]), root, 4, v, l);
    }

    predicate LargeAt(f: int, i: int)
      requires ram.Length == frames * 512 && 0 <= f < frames && 0 <= i < 512
      reads this, ram
      ensures LargeAt(f, i) == View(ram[..])(f, i).large
    {
      Decode(ram[f * 512 + i]).large
    }

    // The entry found lies in a table of the forest and stops the walk.
    lemma EntryFound(root: int, v: int)
      requires Valid() && root in owners && owners[root].Root? && EntrySlot(View(ram[..]), root, 4, v).At?
      ensures var s := EntrySlot(View(ram[..]), root, 4, v);
              && s.f in owners && 1 <= Level(owners[s.f]) <= 4 && Forest(View(ram[..]), owners)
              && Stops(View(ram[..])(s.f, s.i), Level(owners[s.f]))
    {
      hide Forest, View, FreeList;
      EntrySlotLevel(View(ram[..]), owners, root, 4, v);
    }

    // Writes w, u, addr and p of an entry, keeping its other bits.
    method SetEntry(s: Slot, w: bool, u: bool, addr: int)
      requires Valid() && s.At? && s.f in owners && 0 <= s.i < 512 && 0 <= addr < FRAMES
      requires Stops(View(ram[..])(s.f, s.i), Level(owners[s.f]))
      modifies ram
      ensures Valid()
      ensures var e := old(View(ram[..]));
              LeafWritten(e, View(ram[..]), s, e(s.f, s.i).(w := w, u := u, addr := addr, p := true))
    {
      hide Forest, FreeList, View, Decode, Encode, LeafWritten;
      TableEntry(s.f, s.i);
      ghost var m := ram[..];
      var x := Decode(ram[s.f * 512 + s.i]).(w := w, u := u, addr := addr, p := true);
      DecodeEncode(x);
      ram[s.f * 512 + s.i] := Encode(x);
      ghost var m' := ram[..];
      assert m' == m[s.f * 512 + s.i := Encode(x)];
      ViewWrite(m, s.f, s.i, Encode(x));
      LeafKeepsForest(View(m), View(m'), owners, s, x);
      TableFreeList(m, m', frames, free, freelist, s.f, s.i, s.f);
    }

    method MapPages(root: int, va: u64, size: u64, pa: u64, w: bool, u: bool) returns (failed: bool)
      requires Valid() && root in owners && owners[root].Root?
      // otherwise the loop never ends (ReturnsExact)
      requires Returns(View(ram[..]), root, va, size, |free|)
      modifies ram, this
      ensures Valid() && root in owners && owners[root].Root?
      ensures var needed := |NeededRange(old(View(ram[..])), root, va / PGSIZE, Visits(va, size))|;
              && (failed <==> needed > |old(free)|)
              && Pages() == PmmRuns.Step(old(Pages()), PmmRuns.Take(Min(needed, |old(free)|)))
      ensures !failed ==>
                MappedRange(old(View(ram[..])), old(owners), View(ram[..]), owners,
                            root, va / PGSIZE, PageCount(va, size), pa / PGSIZE, w, u)
      ensures failed ==>
                exists n | 0 <= n < Visits(va, size) ::
                  && MappedRange(old(View(ram[..])), old(owners), View(ram[..]), owners,
                                 root, va / PGSIZE, n, pa / PGSIZE, w, u)
                  && EntrySlot(View(ram[..]), root, 4, RangePage(va / PGSIZE, n)) == NoSlot
    {
      hide Forest, FreeList, View, Valid, Grown, MappedRange, LeafWritten, Idx, MapProgress, PmmRuns.Step;
      hide Missing, OnlyPath, EntrySlot, CanWrite, LeafFrame, PageOf, RangePage, LastPage, PageCount, RoundDown;
      ghost var e0, ow0, s0, v0, pfn, total := View(ram[..]), owners, Pages(), va / PGSIZE, pa / PGSIZE, Visits(va, size);
      var lastPage := LastPage(va, size);
      var cur: u64, phys: u64 := RoundDown(va), pa;
      ghost var n := 0;
      LoopStart(va, size);
      MappedNone(e0, ow0, root, v0, pfn, w, u);
      MapStart(e0, s0, root, v0);
      while cur <= lastPage
        invariant Valid() && 0 <= n <= total && root in owners && owners[root].Root?
        invariant cur == (RoundDown(va) + n * PGSIZE) % TWO64 && (!ToTop(va, size) ==> cur == RoundDown(va) + n * PGSIZE)
        invariant phys / PGSIZE % FRAMES == (pfn + n) % FRAMES
        invariant MappedRange(e0, ow0, View(ram[..]), owners, root, v0, n, pfn, w, u)
        invariant MapProgress(e0, s0, View(ram[..]), Pages(), root, v0, n)
        decreases total - n
      {
        ghost var e, ow, s, v := View(ram[..]), owners, Pages(), RangePage(v0, n);
        LoopPage(va, n, cur);
        RangePageIn(v0, n);
        if ToTop(va, size) { MapNotDone(e0, s0, e, s, root, v0, n); } else { LoopGuard(va, size, n, cur); }
        ValidFacts();
        var pte := GetAddrPte(root, cur, true);
        ghost var e1, ow1 := View(ram[..]), owners;
        MappedGrown(e0, ow0, e, ow, e1, ow1, root, v0, n, pfn, w, u);
        if pte == NoSlot {
          MapFails(e0, s0, e, s, Pages(), root, v0, n, total);
          return true;
        }
        MapOneMore(e0, s0, e, s, e1, Pages(), root, v0, n);
        EntryFound(root, v);
        SetEntry(pte, w, u, phys / PGSIZE % FRAMES);
        ghost var x := e1(pte.f, pte.i).(w := w, u := u, addr := phys / PGSIZE % FRAMES, p := true);
        MapOneDone(e, ow, e1, ow1, View(ram[..]), root, v, x);
        MapLeaf(e0, s0, e1, Pages(), View(ram[..]), ow1, pte, x, root, v0, n + 1);
        MappedOneMore(e0, ow0, e, ow, e1, ow1, View(ram[..]), root, v0, n, pfn, w, u, x);
        NextFrame(phys, pfn, n);
        cur := (cur + PGSIZE) % TWO64;
        phys := (phys + PGSIZE) % TWO64;
        n := n + 1;
      }
      LoopDone(va, size, n, cur);
      MapEnds(e0, s0, View(ram[..]), Pages(), root, v0, n);
      return false;
    }

    // The tables for all pages of an empty root outnumber the pages there are.
    lemma EmptyReturns(root: int)
      requires Valid() && ZeroTable(View(ram[..]), root)
      ensures Returns(View(ram[..]), root, 0, 0, |free|)
    {
      hide Forest, View, NeededRange;
      PmmRuns.BelowCount(free, frames);
      EmptyNeedsAll(View(ram[..]), root);
    }

    // setupkvm, with its table of two mappings all zero. It goes on when mappages has failed.
    method SetupKvm() returns (pml4: u64)
      requires Valid()
      modifies ram, this
      ensures Valid()
      ensures pml4 == 0 <==> old(free) == []
      ensures free == [] && Pages() == PmmRuns.Step(old(Pages()), PmmRuns.Take(|old(free)|))
      ensures pml4 != 0 ==> FrameOf(pml4) !in old(owners) && FrameOf(pml4) in owners && owners[FrameOf(pml4)].Root?
      ensures SameWalks(old(View(ram[..])), old(owners), View(ram[..]))
    {
      hide Forest, FreeList, View, Valid, Grown, MappedRange, FrameOf, Returns, ZeroTable, SameWalks, PmmRuns.Step;
      hide NeededRange, EntrySlot, RangePage, Walk, Visits;
      ghost var e0, ow0, s0 := View(ram[..]), owners, Pages();
      ValidFacts();
      GrownRefl(e0, ow0);
      pml4 := NewRoot();
      GrownWalks(e0, ow0, View(ram[..]));
      PmmRuns.TakeNone(s0);
      if pml4 == 0 {
        return;
      }
      var root, k := FrameOf(pml4), 0;
      EmptyReturns(root);
      TakenFirst(s0, Pages());
      while k < 2 && pml4 != 0
        invariant Valid() && 0 <= k <= 2 && pml4 != 0 && root == FrameOf(pml4) && root in owners && owners[root].Root?
        invariant Returns(View(ram[..]), root, 0, 0, |free|) && SameWalks(e0, ow0, View(ram[..]))
        invariant (k > 0 ==> free == []) && |free| <= |s0.free|
        invariant Pages() == PmmRuns.Step(s0, PmmRuns.Take(|s0.free| - |free|))
        invariant root !in ow0 && forall r | r in ow0 && ow0[r].Root? :: r in owners && owners[r].Root?
      {
        ghost var e, ow, s := View(ram[..]), owners, Pages();
        var failed := MapPages(root, 0, 0, 0, false, false);
        TopFails(e, root, |s.free|);
        TakenAll(s0, s, Pages());
        TopMapped(e0, ow0, e, ow, View(ram[..]), owners, root);
        pml4 := KeptAfter(failed, pml4);
        k := k + 1;
      }
    }
  }
}
