/** Four-level page tables (kernel/arch/x86/paging.h) as a function from table frame and index to
    decoded entry, the hardware walk over them (section 4.5 of the Intel SDM, volume 3A), and
    the two updates that `mappages` performs: hanging a zeroed table under an absent entry, and
    writing a leaf. */
module Paging {

  // pte_t: present, writeable, user, large, table or page frame, and the bits nobody here writes.
  datatype Pte = Pte(p: bool, w: bool, u: bool, low: int, large: bool, avail: int, addr: int, high: int)

  const ZERO := Pte(false, false, false, 0, false, 0, 0, 0)

  // Entry i of the table in frame f.
  type Tables = (int, int) -> Pte

  // Virtual pages are numbered by the 36 index bits of an address.
  const VPAGES := 0x10_0000_0000
  const FRAMES := 0x1000_0000

  // The index of virtual page v at level l: pti, pdi, pdpti, pml4i.
  function Idx(v: int, l: int): int
    requires 1 <= l <= 4
  {
    if l == 1 then v % 512
    else if l == 2 then v / 512 % 512
    else if l == 3 then v / 262144 % 512
    else v / 134217728 % 512
  }

  lemma IdxRange(v: int, l: int)
    requires 1 <= l <= 4
    ensures 0 <= Idx(v, l) < 512
  {
  }

  // The four indices name the page.
  lemma IdxInjective(v: int, v': int)
    requires 0 <= v < VPAGES && 0 <= v' < VPAGES
    requires Idx(v, 1) == Idx(v', 1) && Idx(v, 2) == Idx(v', 2) && Idx(v, 3) == Idx(v', 3) && Idx(v, 4) == Idx(v', 4)
    ensures v == v'
  {
    IdxCompose(v);
    IdxCompose(v');
  }

  lemma IdxCompose(v: int)
    requires 0 <= v < VPAGES
    ensures v == Idx(v, 1) + 512 * Idx(v, 2) + 262144 * Idx(v, 3) + 134217728 * Idx(v, 4)
  {
    var a := v / 512;
    var b := a / 512;
    var c := b / 512;
    assert v / 262144 == b && v / 134217728 == c;
    assert c % 512 == c;
  }

  // ---- the walk ----

  datatype Mapping = Unmapped | Mapped(frame: int, w: bool, u: bool)

  // A large entry stops the walk at the page-directory levels (3 and 2).
  predicate Stops(x: Pte, l: int) {
    l == 1 || (l <= 3 && x.large)
  }

  // Frame of page v under a leaf entry at level l.
  function LeafFrame(addr: int, v: int, l: int): int {
    if l == 3 then addr - addr % 262144 + v % 262144
    else if l == 2 then addr - addr % 512 + v % 512
    else addr
  }

  ghost function Walk(e: Tables, f: int, l: int, v: int): Mapping
    requires 1 <= l <= 4
    decreases l
  {
    var x := e(f, Idx(v, l));
    if !x.p then Unmapped
    else if Stops(x, l) then Mapped(LeafFrame(x.addr, v, l), x.w, x.u)
    else Walk(e, x.addr, l - 1, v)
  }

  // Every entry above the one where the walk of v stops is present and open to user mode.
  ghost predicate PathUser(e: Tables, f: int, l: int, v: int)
    requires 1 <= l <= 4
    decreases l
  {
    var x := e(f, Idx(v, l));
    Stops(x, l) || (x.p && x.u && PathUser(e, x.addr, l - 1, v))
  }

  datatype Slot = NoSlot | At(f: int, i: int)

  // The entry that getaddrpte returns for v: the leaf, or a large entry met on the way.
  ghost function EntrySlot(e: Tables, f: int, l: int, v: int): Slot
    requires 1 <= l <= 4
    decreases l
  {
    var x := e(f, Idx(v, l));
    if Stops(x, l) then At(f, Idx(v, l))
    else if !x.p then NoSlot
    else EntrySlot(e, x.addr, l - 1, v)
  }

  // ---- tables form a forest ----

  // How a table hangs in the forest: a root is a PML4, a child sits under one entry of its parent.
  datatype Owner = Root | Child(parent: int, idx: int, level: int)

  type Owners = map<int, Owner>

  function Level(o: Owner): int {
    if o.Root? then 4 else o.level
  }

  // The entry holds a pointer to a table one level down.
  predicate Points(x: Pte, l: int) {
    x.p && !Stops(x, l)
  }

  // Every child is pointed to by the entry recorded as its owner.
  ghost predicate Hung(e: Tables, ow: Owners) {
    forall g | g in ow && ow[g].Child? ::
      var o := ow[g];
      && 1 <= o.level <= 3 && 0 <= o.idx < 512
      && o.parent in ow && Level(ow[o.parent]) == o.level + 1
      && Points(e(o.parent, o.idx), o.level + 1) && e(o.parent, o.idx).addr == g
  }

  // Every table pointer leads to a table that records it as its owner.
  ghost predicate Closed(e: Tables, ow: Owners) {
    forall f, i {:trigger e(f, i)} | f in ow && 0 <= i < 512 && Points(e(f, i), Level(ow[f])) ::
      e(f, i).addr in ow && ow[e(f, i).addr] == Child(f, i, Level(ow[f]) - 1)
  }

  ghost predicate Forest(e: Tables, ow: Owners) {
    && (forall f | f in ow :: 1 <= Level(ow[f]) <= 4)
    && Hung(e, ow) && Closed(e, ow)
  }

  // A table is pointed to by exactly one entry of one table; a root by none.
  lemma OnePointer(e: Tables, ow: Owners, f: int, i: int, f': int, i': int)
    requires Forest(e, ow) && f in ow && f' in ow && 0 <= i < 512 && 0 <= i' < 512
    requires Points(e(f, i), Level(ow[f])) && Points(e(f', i'), Level(ow[f'])) && e(f, i).addr == e(f', i').addr
    ensures f == f' && i == i' && ow[e(f, i).addr].Child?
  {
  }

  // The child that the walk of v goes to.
  lemma WalkChild(e: Tables, ow: Owners, f: int, v: int)
    requires Forest(e, ow) && f in ow
    ensures var l := Level(ow[f]);
            var i := Idx(v, l);
            && 0 <= i < 512
            && (Points(e(f, i), l) ==> e(f, i).addr in ow && ow[e(f, i).addr] == Child(f, i, l - 1))
  {
    IdxRange(v, Level(ow[f]));
  }

  // The entry found from table f lies in a table of the forest no higher than f, and stops the walk.
  lemma {:induction false} EntrySlotLevel(e: Tables, ow: Owners, f: int, l: int, v: int)
    requires Forest(e, ow) && f in ow && Level(ow[f]) == l
    ensures var s := EntrySlot(e, f, l, v);
            s.At? ==> && s.f in ow && 1 <= Level(ow[s.f]) <= l && s.i == Idx(v, Level(ow[s.f])) && 0 <= s.i < 512
                      && Stops(e(s.f, s.i), Level(ow[s.f]))
    decreases l
  {
    hide Hung, Closed, Idx;
    WalkChild(e, ow, f, v);
    var x := e(f, Idx(v, l));
    if Points(x, l) { EntrySlotLevel(e, ow, x.addr, l - 1, v); }
  }

  // Two walks that end in the same entry started at the same table and took the same turns.
  lemma {:induction false} EntrySlotInjective(e: Tables, ow: Owners, f: int, f': int, l: int, v: int, v': int)
    requires Forest(e, ow) && f in ow && f' in ow && Level(ow[f]) == l == Level(ow[f'])
    requires EntrySlot(e, f, l, v) == EntrySlot(e, f', l, v') != NoSlot
    ensures var s := EntrySlot(e, f, l, v);
            f == f' && s.f in ow && forall k | Level(ow[s.f]) <= k <= l :: Idx(v, k) == Idx(v', k)
    decreases l
  {
    hide Hung, Closed, Idx;
    var s := EntrySlot(e, f, l, v);
    EntrySlotLevel(e, ow, f, l, v);
    EntrySlotLevel(e, ow, f', l, v');
    WalkChild(e, ow, f, v);
    WalkChild(e, ow, f', v');
    var x, x' := e(f, Idx(v, l)), e(f', Idx(v', l));
    if Points(x, l) && Points(x', l) {
      EntrySlotInjective(e, ow, x.addr, x'.addr, l - 1, v, v');
    } else if Points(x, l) {
      EntrySlotLevel(e, ow, x.addr, l - 1, v);
    } else if Points(x', l) {
      EntrySlotLevel(e, ow, x'.addr, l - 1, v');
    }
  }

  // Distinct pages, or the same page under distinct roots, end in distinct 4 KB leaf entries; under
  // distinct roots, in distinct entries of any kind.
  lemma EntrySlotOfRoots(e: Tables, ow: Owners, r: int, r': int, v: int, v': int)
    requires Forest(e, ow) && r in ow && r' in ow && ow[r].Root? && ow[r'].Root?
    requires 0 <= v < VPAGES && 0 <= v' < VPAGES
    requires EntrySlot(e, r, 4, v) == EntrySlot(e, r', 4, v') != NoSlot
    ensures r == r'
    ensures var s := EntrySlot(e, r, 4, v); s.f in ow && (Level(ow[s.f]) == 1 ==> v == v')
  {
    hide Hung, Closed, Idx;
    EntrySlotInjective(e, ow, r, r', 4, v, v');
    if Level(ow[EntrySlot(e, r, 4, v).f]) == 1 { IdxInjective(v, v'); }
  }

  // ---- hanging a new table ----

  // e' is e with zeroed table g hung under the absent entry (f, i).
  ghost predicate NewTable(e: Tables, e': Tables, f: int, i: int, g: int) {
    && e'(f, i) == ZERO.(p := true, w := true, addr := g)
    && (forall j | 0 <= j < 512 :: e'(g, j) == ZERO)
    && (forall h, j {:trigger e'(h, j)} | h != g && !(h == f && j == i) :: e'(h, j) == e(h, j))
  }

  ghost predicate CanHang(e: Tables, ow: Owners, f: int, i: int, g: int) {
    f in ow && 0 <= i < 512 && Level(ow[f]) >= 2 && !e(f, i).p && !Stops(e(f, i), Level(ow[f])) && g !in ow
  }

  ghost function Hang(ow: Owners, f: int, i: int, g: int): Owners
    requires f in ow
  {
    ow[g := Child(f, i, Level(ow[f]) - 1)]
  }

  lemma HangKeepsForest(e: Tables, e': Tables, ow: Owners, f: int, i: int, g: int)
    requires Forest(e, ow) && CanHang(e, ow, f, i, g) && NewTable(e, e', f, i, g)
    ensures Forest(e', Hang(ow, f, i, g))
  {
    var ow' := Hang(ow, f, i, g);
    forall h, j {:trigger e'(h, j)} | h in ow' && 0 <= j < 512 && Points(e'(h, j), Level(ow'[h]))
      ensures e'(h, j).addr in ow' && ow'[e'(h, j).addr] == Child(h, j, Level(ow'[h]) - 1)
    {
      if h != g && !(h == f && j == i) { assert e'(h, j) == e(h, j); }
    }
    forall h | h in ow' && ow'[h].Child?
      ensures var o := ow'[h];
              && 1 <= o.level <= 3 && 0 <= o.idx < 512
              && o.parent in ow' && Level(ow'[o.parent]) == o.level + 1
              && Points(e'(o.parent, o.idx), o.level + 1) && e'(o.parent, o.idx).addr == h
    {
      if h != g { assert Points(e(ow[h].parent, ow[h].idx), ow[h].level + 1); }
    }
  }

  // A new table changes no translation: below it nothing is present.
  lemma {:induction false} HangKeepsWalk(e: Tables, e': Tables, ow: Owners, f: int, i: int, g: int, h: int, l: int, v: int)
    requires Forest(e, ow) && CanHang(e, ow, f, i, g) && NewTable(e, e', f, i, g)
    requires h in ow && Level(ow[h]) == l
    ensures Walk(e', h, l, v) == Walk(e, h, l, v) && PathUser(e', h, l, v) == PathUser(e, h, l, v)
    decreases l
  {
    hide Hung, Closed, Idx;
    WalkChild(e, ow, h, v);
    var j := Idx(v, l);
    if h == f && j == i {
      IdxRange(v, l - 1);
    } else {
      assert e'(h, j) == e(h, j);
      if Points(e(h, j), l) {
        HangKeepsWalk(e, e', ow, f, i, g, e(h, j).addr, l - 1, v);
      }
    }
  }

  // An entry found before is found again; an entry found only now lies in a new table.
  ghost predicate EntryKept(e: Tables, ow: Owners, e': Tables, h: int, l: int, v: int)
    requires 1 <= l <= 4
  {
    var s, s' := EntrySlot(e, h, l, v), EntrySlot(e', h, l, v);
    if s.At? then s' == s else s'.At? ==> s'.f !in ow
  }

  lemma ZeroedEntry(e: Tables, g: int, l: int, v: int)
    requires 1 <= l <= 3 && forall j | 0 <= j < 512 :: e(g, j) == ZERO
    ensures EntrySlot(e, g, l, v) == if l == 1 then At(g, Idx(v, 1)) else NoSlot
  {
    hide Idx;
    IdxRange(v, l);
  }

  lemma {:induction false} HangKeepsEntry(e: Tables, e': Tables, ow: Owners, f: int, i: int, g: int, h: int, l: int, v: int)
    requires Forest(e, ow) && CanHang(e, ow, f, i, g) && NewTable(e, e', f, i, g)
    requires h in ow && Level(ow[h]) == l
    ensures EntryKept(e, ow, e', h, l, v)
    decreases l
  {
    hide Hung, Closed, Idx;
    WalkChild(e, ow, h, v);
    var j := Idx(v, l);
    if h == f && j == i {
      ZeroedEntry(e', g, l - 1, v);
    } else {
      assert e'(h, j) == e(h, j);
      if Points(e(h, j), l) {
        HangKeepsEntry(e, e', ow, f, i, g, e(h, j).addr, l - 1, v);
      }
    }
  }

  // ---- writing an entry where walks stop ----

  // e' is e with entry s replaced by x.
  ghost predicate LeafWritten(e: Tables, e': Tables, s: Slot, x: Pte)
    requires s.At?
  {
    e'(s.f, s.i) == x && forall h, j {:trigger e'(h, j)} | !(h == s.f && j == s.i) :: e'(h, j) == e(h, j)
  }

  // s is an entry of the forest where walks stop, and x keeps its large bit.
  ghost predicate CanWrite(e: Tables, ow: Owners, s: Slot, x: Pte) {
    s.At? && s.f in ow && 1 <= Level(ow[s.f]) <= 4 && Stops(e(s.f, s.i), Level(ow[s.f])) && x.large == e(s.f, s.i).large
  }

  lemma LeafKeepsForest(e: Tables, e': Tables, ow: Owners, s: Slot, x: Pte)
    requires Forest(e, ow) && CanWrite(e, ow, s, x) && LeafWritten(e, e', s, x)
    ensures Forest(e', ow)
  {
    forall h, j {:trigger e'(h, j)} | h in ow && 0 <= j < 512 && Points(e'(h, j), Level(ow[h]))
      ensures e'(h, j).addr in ow && ow[e'(h, j).addr] == Child(h, j, Level(ow[h]) - 1)
    {
      assert e'(h, j) == e(h, j);
    }
  }

  // Only the pages whose walk stops at the written entry change, and walks stop where they did.
  lemma {:induction false} LeafWalk(e: Tables, e': Tables, ow: Owners, s: Slot, x: Pte, h: int, l: int, v: int)
    requires Forest(e, ow) && CanWrite(e, ow, s, x) && LeafWritten(e, e', s, x) && x.p
    requires h in ow && Level(ow[h]) == l
    ensures Walk(e', h, l, v) ==
            if EntrySlot(e, h, l, v) == s then Mapped(LeafFrame(x.addr, v, Level(ow[s.f])), x.w, x.u) else Walk(e, h, l, v)
    ensures EntrySlot(e', h, l, v) == EntrySlot(e, h, l, v)
    ensures PathUser(e', h, l, v) == PathUser(e, h, l, v)
    decreases l
  {
    hide Hung, Closed, Idx, LeafFrame;
    WalkChild(e, ow, h, v);
    var j := Idx(v, l);
    if !(h == s.f && j == s.i) {
      assert e'(h, j) == e(h, j);
      if Points(e(h, j), l) {
        LeafWalk(e, e', ow, s, x, e(h, j).addr, l - 1, v);
      }
    }
  }

  // ---- what writing through a large entry does ----

  // Pages that differ only below the levels of a large entry meet the same entry.
  lemma {:induction false} EntrySlotShared(e: Tables, ow: Owners, f: int, l: int, v: int, v': int)
    requires Forest(e, ow) && f in ow && Level(ow[f]) == l
    requires Idx(v, 2) == Idx(v', 2) && Idx(v, 3) == Idx(v', 3) && Idx(v, 4) == Idx(v', 4)
    requires var s := EntrySlot(e, f, l, v); s.At? && s.f in ow && Level(ow[s.f]) >= 2
    ensures EntrySlot(e, f, l, v') == EntrySlot(e, f, l, v)
    decreases l
  {
    hide Hung, Closed, Idx;
    WalkChild(e, ow, f, v);
    var x := e(f, Idx(v, l));
    if !Stops(x, l) { EntrySlotShared(e, ow, x.addr, l - 1, v, v'); }
  }

  // The neighbour of page v in its pair: another page under the same large entry.
  function Buddy(v: int): int {
    if v % 2 == 0 then v + 1 else v - 1
  }

  lemma BuddyIdx(v: int)
    requires 0 <= v < VPAGES
    ensures 0 <= Buddy(v) < VPAGES && Buddy(v) != v
    ensures Idx(Buddy(v), 2) == Idx(v, 2) && Idx(Buddy(v), 3) == Idx(v, 3) && Idx(Buddy(v), 4) == Idx(v, 4)
  {
    hide Buddy;
    BuddyHalf(v);
    HalfDiv(v);
    HalfDiv(Buddy(v));
  }

  lemma BuddyHalf(v: int)
    requires 0 <= v < VPAGES
    ensures 0 <= Buddy(v) < VPAGES && Buddy(v) != v && Buddy(v) / 2 == v / 2
  {
  }

  lemma HalfDiv(v: int)
    ensures v / 512 == v / 2 / 256 && v / 262144 == v / 2 / 131072 && v / 134217728 == v / 2 / 67108864
  {
    HalfThen(v, 256);
    HalfThen(v, 131072);
    HalfThen(v, 67108864);
  }

  lemma HalfThen(v: int, m: int)
    requires m > 0
    ensures v / (2 * m) == v / 2 / m
  {
    var h := v / 2;
    var q, r := h / m, h % m;
    assert h == m * q + r && v == 2 * h + v % 2;
    assert v == (2 * m) * q + (2 * r + v % 2) by { assert 2 * (m * q) == (2 * m) * q; }
    assert 0 <= 2 * r + v % 2 < 2 * m;
    QuotientIs(v, 2 * m, q, 2 * r + v % 2);
  }

  lemma QuotientIs(v: int, d: int, q: int, r: int)
    requires d > 0 && v == d * q + r && 0 <= r < d
    ensures v / d == q
  {
    var e := v / d - q;
    assert d * e == r - v % d by { assert v == d * (v / d) + v % d; assert d * e == d * (v / d) - d * q; }
    AtLeast(d, e);
    AtLeast(d, -e);
    assert d * -e == -(d * e);
  }

  lemma {:induction false} AtLeast(d: int, e: int)
    requires d > 0
    ensures e >= 1 ==> d * e >= d
    decreases e
  {
    if e > 1 {
      AtLeast(d, e - 1);
      assert d * e == d * (e - 1) + d;
    }
  }

  lemma LeafFrameBase(a: int, b: int, v: int, l: int)
    requires 1 <= l <= 3
    ensures LeafFrame(a, v, l) == LeafFrame(b, v, l) <==> LeafFrame(a, 0, l) == LeafFrame(b, 0, l)
  {
  }

  // A 2 MB or 1 GB entry maps the pages that share it to consecutive frames of one aligned large frame.
  lemma LargeFrameBits(addr: int, v: int)
    ensures LeafFrame(addr, v, 2) / 512 == addr / 512 && LeafFrame(addr, v, 2) % 512 == v % 512
    ensures LeafFrame(addr, v, 3) / 262144 == addr / 262144 && LeafFrame(addr, v, 3) % 262144 == v % 262144
    ensures LeafFrame(addr, v, 1) == addr
  {
  }

  // mappages given a page v whose walk meets a large entry rewrites that entry. Every other page
  // keeps its translation exactly when the entry already mapped the same large frame with the same bits.
  lemma LargeEntryExact(e: Tables, e': Tables, ow: Owners, root: int, v: int, w: bool, u: bool, addr: int)
    requires Forest(e, ow) && root in ow && ow[root].Root? && 0 <= v < VPAGES
    requires var s := EntrySlot(e, root, 4, v);
             && s.At? && s.f in ow && 2 <= Level(ow[s.f]) <= 3
             && LeafWritten(e, e', s, e(s.f, s.i).(w := w, u := u, addr := addr, p := true))
    ensures (forall r, v' | r in ow && ow[r].Root? && 0 <= v' < VPAGES && (r != root || v' != v) ::
               Walk(e', r, 4, v') == Walk(e, r, 4, v'))
            <==>
            var s := EntrySlot(e, root, 4, v); var was := e(s.f, s.i); var l := Level(ow[s.f]);
            was.p && was.w == w && was.u == u && LeafFrame(was.addr, 0, l) == LeafFrame(addr, 0, l)
  {
    hide Hung, Closed, Idx, LeafFrame, LeafWritten, Walk, EntrySlot;
    var s := EntrySlot(e, root, 4, v);
    var l := Level(ow[s.f]);
    var was := e(s.f, s.i);
    var x := was.(w := w, u := u, addr := addr, p := true);
    EntrySlotLevel(e, ow, root, 4, v);
    if was.p && was.w == w && was.u == u && LeafFrame(was.addr, 0, l) == LeafFrame(addr, 0, l) {
      forall r, v' | r in ow && ow[r].Root? && 0 <= v' < VPAGES && (r != root || v' != v)
        ensures Walk(e', r, 4, v') == Walk(e, r, 4, v')
      {
        LeafWalk(e, e', ow, s, x, r, 4, v');
        WalkThrough(e, ow, s, r, 4, v');
        LeafFrameBase(was.addr, addr, v', l);
      }
    } else {
      var b := Buddy(v);
      BuddyIdx(v);
      EntrySlotShared(e, ow, root, 4, v, b);
      LeafWalk(e, e', ow, s, x, root, 4, b);
      WalkThrough(e, ow, s, root, 4, b);
      LeafFrameBase(was.addr, addr, b, l);
      assert Walk(e', root, 4, b) != Walk(e, root, 4, b);
    }
  }

  // The translation of a page whose walk stops at entry s.
  lemma {:induction false} WalkThrough(e: Tables, ow: Owners, s: Slot, h: int, l: int, v: int)
    requires Forest(e, ow) && s.At? && s.f in ow && h in ow && Level(ow[h]) == l
    ensures EntrySlot(e, h, l, v) == s ==>
              Walk(e, h, l, v) ==
              if e(s.f, s.i).p then Mapped(LeafFrame(e(s.f, s.i).addr, v, Level(ow[s.f])), e(s.f, s.i).w, e(s.f, s.i).u)
              else Unmapped
    decreases l
  {
    hide Hung, Closed, Idx, LeafFrame;
    WalkChild(e, ow, h, v);
    var j := Idx(v, l);
    if Points(e(h, j), l) {
      WalkThrough(e, ow, s, e(h, j).addr, l - 1, v);
    }
  }
}
