/** Which tables the way to a page has, and how many it lacks: what getaddrpte
    (kernel/memory/vmm.cpp) will take from the page allocator. */
module PathTables {
  import opened Common
  import opened Paging

  // The table of level k on the way to page v from table f of level l.
  ghost function Table(e: Tables, f: int, l: int, v: int, k: int): Option<int>
    requires 1 <= k <= l <= 4
    decreases l
  {
    if l == k then Some(f)
    else
      var x := e(f, Idx(v, l));
      if Points(x, l) then Table(e, x.addr, l - 1, v, k) else None
  }

  ghost predicate Reaches(e: Tables, f: int, l: int, v: int, k: int)
    requires 1 <= k <= l <= 4
  {
    Table(e, f, l, v, k).Some?
  }

  // A table of level k serves the pages that agree on the indices above k.
  function Prefix(v: int, k: int): int
    requires 1 <= k <= 3
  {
    if k == 1 then v / 512 else if k == 2 then v / 262144 else v / 134217728
  }

  lemma PrefixIdx(v: int, v': int, k: int)
    requires 0 <= v < VPAGES && 0 <= v' < VPAGES && 1 <= k <= 3
    ensures Prefix(v, k) == Prefix(v', k) <==> forall j | k < j <= 4 :: Idx(v, j) == Idx(v', j)
  {
    var a, a' := v / 512, v' / 512;
    var b, b' := a / 512, a' / 512;
    var c, c' := b / 512, b' / 512;
    assert v / 262144 == b && v / 134217728 == c && v' / 262144 == b' && v' / 134217728 == c';
    assert Idx(v, 4) == c && Idx(v', 4) == c';
    assert Idx(v, 3) == b - 512 * c && Idx(v', 3) == b' - 512 * c';
    assert Idx(v, 2) == a - 512 * b && Idx(v', 2) == a' - 512 * b';
  }

  // In a forest, pages that share a table agree above it.
  lemma {:induction false} TableInjective(e: Tables, ow: Owners, f: int, f': int, l: int, v: int, v': int, k: int)
    requires Forest(e, ow) && f in ow && f' in ow && Level(ow[f]) == l == Level(ow[f']) && 1 <= k <= l
    requires Table(e, f, l, v, k) == Table(e, f', l, v', k) != None
    ensures f == f' && forall j | k < j <= l :: Idx(v, j) == Idx(v', j)
    decreases l
  {
    hide Hung, Closed, Idx;
    if l > k {
      WalkChild(e, ow, f, v);
      WalkChild(e, ow, f', v');
      TableInjective(e, ow, e(f, Idx(v, l)).addr, e(f', Idx(v', l)).addr, l - 1, v, v', k);
    }
  }

  lemma {:induction false} TableLevel(e: Tables, ow: Owners, f: int, l: int, v: int, k: int)
    requires Forest(e, ow) && f in ow && Level(ow[f]) == l && 1 <= k <= l && Reaches(e, f, l, v, k)
    ensures var g := Table(e, f, l, v, k).value; g in ow && Level(ow[g]) == k
    decreases l
  {
    hide Hung, Closed, Idx;
    if l > k {
      WalkChild(e, ow, f, v);
      TableLevel(e, ow, e(f, Idx(v, l)).addr, l - 1, v, k);
    }
  }

  // One level further down.
  lemma {:induction false} TableBelow(e: Tables, f: int, l: int, v: int, k: int)
    requires 1 <= k < l <= 4
    ensures Table(e, f, l, v, k) ==
            match Table(e, f, l, v, k + 1)
            case None => None
            case Some(g) => if Points(e(g, Idx(v, k + 1)), k + 1) then Some(e(g, Idx(v, k + 1)).addr) else None
    decreases l
  {
    hide Idx;
    if l > k + 1 {
      var x := e(f, Idx(v, l));
      if Points(x, l) { TableBelow(e, x.addr, l - 1, v, k); }
    }
  }

  // From any table on its way on, a page ends in the same entry.
  lemma {:induction false} EntryOnWay(e: Tables, f: int, l: int, v: int, k: int)
    requires 1 <= k <= l <= 4 && Reaches(e, f, l, v, k)
    ensures EntrySlot(e, f, l, v) == EntrySlot(e, Table(e, f, l, v, k).value, k, v)
    decreases l
  {
    hide Idx;
    if l > k { EntryOnWay(e, e(f, Idx(v, l)).addr, l - 1, v, k); }
  }

  // ---- a new table ----

  // Hanging g under entry i of f gives the pages that pass there a table one level down, and no
  // other page a new one.
  lemma {:induction false} HangTable(e: Tables, e': Tables, ow: Owners, f: int, i: int, g: int,
                                     h: int, l: int, v: int, k: int)
    requires Forest(e, ow) && CanHang(e, ow, f, i, g) && NewTable(e, e', f, i, g)
    requires h in ow && Level(ow[h]) == l && 1 <= k <= l
    ensures Table(e', h, l, v, k) ==
            if Reaches(e, h, l, v, k) then Table(e, h, l, v, k)
            else if Table(e, h, l, v, k + 1) == Some(f) && Idx(v, k + 1) == i then Some(g)
            else None
    decreases l
  {
    hide Hung, Closed, Idx;
    if l > k {
      WalkChild(e, ow, h, v);
      var j := Idx(v, l);
      if h == f && j == i {
        IdxRange(v, l - 1);
        assert e'(g, Idx(v, l - 1)) == ZERO;
        if k < l - 1 {
          assert Table(e, h, l, v, k + 1) == None;
          assert Table(e', g, l - 1, v, k) == None;
        }
      } else {
        assert e'(h, j) == e(h, j);
        if Points(e(h, j), l) {
          HangTable(e, e', ow, f, i, g, e(h, j).addr, l - 1, v, k);
        }
        if k + 1 == l {
          assert Table(e, h, l, v, k + 1) == Some(h);
        }
      }
    }
  }

  // ---- how many tables are missing ----

  // Tables to allocate before the way to v ends in an entry; none once a large entry is met.
  ghost function Missing(e: Tables, f: int, l: int, v: int): int
    requires 1 <= l <= 4
    decreases l
  {
    var x := e(f, Idx(v, l));
    if Stops(x, l) then 0 else if !x.p then l - 1 else Missing(e, x.addr, l - 1, v)
  }

  // The way to page v of root lacks its table of level k.
  ghost predicate Lacks(e: Tables, root: int, v: int, k: int) {
    1 <= k <= Missing(e, root, 4, v)
  }

  lemma {:induction false} MissingRange(e: Tables, f: int, l: int, v: int)
    requires 1 <= l <= 4
    ensures 0 <= Missing(e, f, l, v) < l
    decreases l
  {
    hide Idx;
    var x := e(f, Idx(v, l));
    if Points(x, l) { MissingRange(e, x.addr, l - 1, v); }
  }

  // An entry is found exactly when no table is missing.
  lemma {:induction false} MissingNone(e: Tables, f: int, l: int, v: int)
    requires 1 <= l <= 4
    ensures EntrySlot(e, f, l, v).At? <==> Missing(e, f, l, v) == 0
    decreases l
  {
    hide Idx;
    var x := e(f, Idx(v, l));
    if Points(x, l) { MissingNone(e, x.addr, l - 1, v); }
  }

  // Pages that agree above k lack the table of level k together.
  lemma {:induction false} MissingShared(e: Tables, f: int, l: int, v: int, v': int, k: int)
    requires 1 <= k <= l <= 4 && forall j | k < j <= l :: Idx(v, j) == Idx(v', j)
    ensures k <= Missing(e, f, l, v) <==> k <= Missing(e, f, l, v')
    decreases l
  {
    hide Idx;
    if l == k {
      MissingRange(e, f, l, v);
      MissingRange(e, f, l, v');
    } else {
      var x := e(f, Idx(v, l));
      if Points(x, l) { MissingShared(e, x.addr, l - 1, v, v', k); }
    }
  }

  lemma SharedLack(e: Tables, root: int, v: int, v': int, k: int)
    requires 0 <= v < VPAGES && 0 <= v' < VPAGES && 1 <= k <= 3 && Prefix(v, k) == Prefix(v', k)
    ensures Lacks(e, root, v, k) == Lacks(e, root, v', k)
  {
    hide Idx, Prefix, Missing;
    PrefixIdx(v, v', k);
    MissingShared(e, root, 4, v, v', k);
  }

  // Page v passes entry i of table f, one of level k.
  ghost predicate Passes(e: Tables, h: int, l: int, v: int, f: int, i: int, k: int)
    requires 1 <= l <= 4
  {
    1 <= k <= l && Table(e, h, l, v, k) == Some(f) && Idx(v, k) == i
  }

  // Hanging a table under entry i of f gives the pages that pass there one table more.
  lemma {:induction false} HangMissing(e: Tables, e': Tables, ow: Owners, f: int, i: int, g: int, h: int, l: int, v: int)
    requires Forest(e, ow) && CanHang(e, ow, f, i, g) && NewTable(e, e', f, i, g)
    requires h in ow && Level(ow[h]) == l
    ensures var k := Level(ow[f]);
            if Passes(e, h, l, v, f, i, k) then Missing(e, h, l, v) == k - 1 && Missing(e', h, l, v) == k - 2
            else Missing(e', h, l, v) == Missing(e, h, l, v)
    decreases l
  {
    hide Hung, Closed, Idx;
    WalkChild(e, ow, h, v);
    var j := Idx(v, l);
    if h == f && j == i {
      IdxRange(v, l - 1);
      assert e'(g, Idx(v, l - 1)) == ZERO;
    } else {
      assert e'(h, j) == e(h, j);
      if Points(e(h, j), l) {
        HangMissing(e, e', ow, f, i, g, e(h, j).addr, l - 1, v);
      }
    }
  }

  // From e to e' only tables on the way to page v of root were added.
  ghost predicate OnlyPath(e: Tables, e': Tables, root: int, v: int) {
    forall v', k {:trigger Lacks(e', root, v', k)} | 0 <= v' < VPAGES && 1 <= k <= 3 ::
      && (Lacks(e', root, v', k) ==> Lacks(e, root, v', k))
      && (Lacks(e, root, v', k) ==> Lacks(e', root, v', k) || Prefix(v', k) == Prefix(v, k))
  }

  lemma OnlyPathTrans(e: Tables, e1: Tables, e2: Tables, root: int, v: int)
    requires OnlyPath(e, e1, root, v) && OnlyPath(e1, e2, root, v)
    ensures OnlyPath(e, e2, root, v)
  {
    hide Lacks, Prefix;
    forall v', k {:trigger Lacks(e2, root, v', k)} | 0 <= v' < VPAGES && 1 <= k <= 3
      ensures Lacks(e2, root, v', k) ==> Lacks(e, root, v', k)
      ensures Lacks(e, root, v', k) ==> Lacks(e2, root, v', k) || Prefix(v', k) == Prefix(v, k)
    {
      assert Lacks(e1, root, v', k) || !Lacks(e1, root, v', k);
    }
  }

  // Hanging a table under the entry that page v passes, at the end of its way.
  lemma HangOnlyPath(e: Tables, e': Tables, ow: Owners, root: int, v: int, l: int, g: int)
    requires Forest(e, ow) && root in ow && ow[root].Root? && 0 <= v < VPAGES && 2 <= l <= 4
    requires Reaches(e, root, 4, v, l)
    requires var f := Table(e, root, 4, v, l).value;
             CanHang(e, ow, f, Idx(v, l), g) && NewTable(e, e', f, Idx(v, l), g)
    ensures OnlyPath(e, e', root, v)
  {
    hide Forest, Idx, Prefix, NewTable, CanHang, Table, Missing;
    var f := Table(e, root, 4, v, l).value;
    TableLevel(e, ow, root, 4, v, l);
    forall v', k {:trigger Lacks(e', root, v', k)} | 0 <= v' < VPAGES && 1 <= k <= 3
      ensures Lacks(e', root, v', k) ==> Lacks(e, root, v', k)
      ensures Lacks(e, root, v', k) ==> Lacks(e', root, v', k) || Prefix(v', k) == Prefix(v, k)
    {
      HangMissing(e, e', ow, f, Idx(v, l), g, root, 4, v');
      if Passes(e, root, 4, v', f, Idx(v, l), l) && k == l - 1 {
        TableInjective(e, ow, root, root, 4, v, v', l);
        PrefixIdx(v', v, k);
      }
    }
  }

  // A table, named by its level and the pages it serves.
  datatype Name = Name(level: int, prefix: int)

  ghost function Needed(e: Tables, root: int, v: int): set<Name> {
    set k | 1 <= k <= 3 && Lacks(e, root, v, k) :: Name(k, Prefix(v, k))
  }

  lemma NeededCount(e: Tables, root: int, v: int)
    ensures |Needed(e, root, v)| == Missing(e, root, 4, v)
  {
    hide Missing, Prefix;
    var m := Missing(e, root, 4, v);
    MissingRange(e, root, 4, v);
    var n1, n2, n3 := Name(1, Prefix(v, 1)), Name(2, Prefix(v, 2)), Name(3, Prefix(v, 3));
    assert Needed(e, root, v) == if m == 0 then {} else if m == 1 then {n1} else if m == 2 then {n1, n2} else {n1, n2, n3};
  }

  // ---- a range of pages ----

  // The k-th page of a range that starts at page v0.
  function RangePage(v0: int, k: int): int {
    (v0 + k) % VPAGES
  }

  // The tables missing on the ways to n pages from v0 on.
  ghost function NeededRange(e: Tables, root: int, v0: int, n: int): set<Name> {
    set j, k | 0 <= j < n && 1 <= k <= 3 && Lacks(e, root, RangePage(v0, j), k) :: Name(k, Prefix(RangePage(v0, j), k))
  }

  // The ways of e lack what those of e0 lacked, but for the tables made for the first n pages.
  ghost predicate MadeRange(e0: Tables, e: Tables, root: int, v0: int, n: int) {
    forall v, k {:trigger Lacks(e, root, v, k)} | 0 <= v < VPAGES && 1 <= k <= 3 ::
      Lacks(e, root, v, k) <==> Lacks(e0, root, v, k) && Name(k, Prefix(v, k)) !in NeededRange(e0, root, v0, n)
  }

  lemma NeededOneMore(e0: Tables, e: Tables, root: int, v0: int, n: int)
    requires MadeRange(e0, e, root, v0, n) && 0 <= n
    ensures var m := Missing(e, root, 4, RangePage(v0, n));
            |NeededRange(e0, root, v0, n + 1)| == |NeededRange(e0, root, v0, n)| + m
  {
    hide Missing, Lacks, Prefix;
    var v := RangePage(v0, n);
    NeededCount(e, root, v);
    var a, b := NeededRange(e0, root, v0, n), Needed(e, root, v);
    assert 0 <= v < VPAGES;
    assert forall k | 1 <= k <= 3 :: Lacks(e, root, v, k) <==> Lacks(e0, root, v, k) && Name(k, Prefix(v, k)) !in a;
    assert NeededRange(e0, root, v0, n + 1) == a + b;
    assert a !! b;
  }

  lemma MadeOneMore(e0: Tables, e: Tables, e1: Tables, root: int, v0: int, n: int)
    requires MadeRange(e0, e, root, v0, n) && 0 <= n && OnlyPath(e, e1, root, RangePage(v0, n))
    requires Missing(e1, root, 4, RangePage(v0, n)) == 0
    ensures MadeRange(e0, e1, root, v0, n + 1)
  {
    hide Missing, Prefix, Idx;
    var v := RangePage(v0, n);
    forall v', k {:trigger Lacks(e1, root, v', k)} | 0 <= v' < VPAGES && 1 <= k <= 3
      ensures Lacks(e1, root, v', k) <==>
              Lacks(e0, root, v', k) && Name(k, Prefix(v', k)) !in NeededRange(e0, root, v0, n + 1)
    {
      assert Lacks(e, root, v', k) || !Lacks(e, root, v', k);
      if Prefix(v', k) == Prefix(v, k) {
        SharedLack(e0, root, v, v', k);
        SharedLack(e1, root, v, v', k);
      }
    }
  }

  lemma MadeNone(e: Tables, root: int, v0: int)
    ensures MadeRange(e, e, root, v0, 0) && NeededRange(e, root, v0, 0) == {}
  {
  }

  lemma NeededGrows(e: Tables, root: int, v0: int, n: int, n': int)
    requires n <= n'
    ensures |NeededRange(e, root, v0, n)| <= |NeededRange(e, root, v0, n')|
  {
    hide Lacks, Prefix;
    SubsetCount(NeededRange(e, root, v0, n), NeededRange(e, root, v0, n'));
  }

  lemma SubsetCount(a: set<Name>, b: set<Name>)
    requires a <= b
    ensures |a| <= |b|
  {
    assert b == a + (b - a);
  }

  // A page of the range without an entry needs a table.
  lemma NeededSome(e: Tables, root: int, v0: int, n: int, total: int)
    requires 0 <= n < total && EntrySlot(e, root, 4, RangePage(v0, n)) == NoSlot
    ensures |NeededRange(e, root, v0, total)| > 0
  {
    hide Prefix, RangePage, EntrySlot, Missing;
    var v := RangePage(v0, n);
    MissingNone(e, root, 4, v);
    MissingRange(e, root, 4, v);
    assert Lacks(e, root, v, 1);
    assert Name(1, Prefix(v, 1)) in NeededRange(e, root, v0, total);
  }

  // A range that comes round after 2^36 pages needs no more.
  lemma NeededWraps(e: Tables, root: int, v0: int, n: int)
    ensures |NeededRange(e, root, v0, n)| <= |NeededRange(e, root, v0, VPAGES)|
  {
    hide Lacks, Prefix, RangePage;
    forall j {:trigger RangePage(v0, j)} | 0 <= j < n
      ensures 0 <= j % VPAGES < VPAGES && RangePage(v0, j % VPAGES) == RangePage(v0, j)
    {
      RangeWraps(v0, j);
    }
    SubsetCount(NeededRange(e, root, v0, n), NeededRange(e, root, v0, VPAGES));
  }

  lemma RangeWraps(v0: int, j: int)
    ensures RangePage(v0, j % VPAGES) == RangePage(v0, j)
  {
    var q := j / VPAGES;
    assert v0 + j == v0 + j % VPAGES + q * VPAGES;
    AddMultiple(v0 + j % VPAGES, q);
  }

  lemma AddMultiple(a: int, q: int)
    ensures (a + q * VPAGES) % VPAGES == a % VPAGES
  {
  }

  // Under an empty root every table is missing: one of the last level for every 512 pages.
  lemma EmptyNeedsAll(e: Tables, root: int)
    requires forall i | 0 <= i < 512 :: e(root, i) == ZERO
    ensures |NeededRange(e, root, 0, VPAGES)| >= VPAGES / 512
  {
    hide Prefix, Idx;
    var names := FirstNames(VPAGES / 512);
    forall p | 0 <= p < VPAGES / 512 ensures Name(1, p) in NeededRange(e, root, 0, VPAGES) {
      var v := 512 * p;
      IdxRange(v, 4);
      assert Missing(e, root, 4, v) == 3;
      assert Lacks(e, root, v, 1);
      FirstOfTable(p);
      assert 0 <= v < VPAGES && RangePage(0, v) == v && Prefix(v, 1) == p;
    }
    assert names <= NeededRange(e, root, 0, VPAGES);
    NamesCount(VPAGES / 512);
    SubsetCount(names, NeededRange(e, root, 0, VPAGES));
  }

  lemma FirstOfTable(p: int)
    ensures Prefix(512 * p, 1) == p
  {
  }

  ghost function FirstNames(n: nat): set<Name> {
    set p | 0 <= p < n :: Name(1, p)
  }

  lemma {:induction false} NamesCount(n: nat)
    ensures |FirstNames(n)| == n
    decreases n
  {
    if n > 0 {
      NamesCount(n - 1);
      assert FirstNames(n) == FirstNames(n - 1) + {Name(1, n - 1)};
    }
  }

  // Writing an entry where walks stop adds and removes no table.
  lemma {:induction false} LeafKeepsMissing(e: Tables, e': Tables, ow: Owners, s: Slot, x: Pte, h: int, l: int, v: int)
    requires Forest(e, ow) && CanWrite(e, ow, s, x) && LeafWritten(e, e', s, x)
    requires h in ow && Level(ow[h]) == l
    ensures Missing(e', h, l, v) == Missing(e, h, l, v)
    decreases l
  {
    hide Hung, Closed, Idx;
    WalkChild(e, ow, h, v);
    var j := Idx(v, l);
    if !(h == s.f && j == s.i) {
      assert e'(h, j) == e(h, j);
      if Points(e(h, j), l) { LeafKeepsMissing(e, e', ow, s, x, e(h, j).addr, l - 1, v); }
    }
  }

  lemma LeafKeepsMade(e0: Tables, e: Tables, e': Tables, ow: Owners, s: Slot, x: Pte, root: int, v0: int, n: int)
    requires Forest(e, ow) && CanWrite(e, ow, s, x) && LeafWritten(e, e', s, x)
    requires root in ow && ow[root].Root? && MadeRange(e0, e, root, v0, n)
    ensures MadeRange(e0, e', root, v0, n)
  {
    hide Forest, Missing, Prefix, LeafWritten, CanWrite, NeededRange;
    forall v, k {:trigger Lacks(e', root, v, k)} | 0 <= v < VPAGES && 1 <= k <= 3
      ensures Lacks(e', root, v, k) <==>
              Lacks(e0, root, v, k) && Name(k, Prefix(v, k)) !in NeededRange(e0, root, v0, n)
    {
      LeafKeepsMissing(e, e', ow, s, x, root, 4, v);
      assert Lacks(e', root, v, k) == Lacks(e, root, v, k);
    }
  }

  // ---- getaddrpte as written ----

  // NullTable: the code has gone on to index the null pointer that derefpte returned.
  datatype Outcome = Entry | Null | NullTable

  // From a table just zeroed, with free pages left: each further table must be allocated. A null
  // last table gives a null result only for its entry 0.
  function FromZeroed(l: int, v: int, free: nat): Outcome
    requires 1 <= l <= 4
    decreases l
  {
    if l == 1 then Entry
    else if free == 0 then (if l == 2 && Idx(v, 1) == 0 then Null else NullTable)
    else FromZeroed(l - 1, v, free - 1)
  }

  ghost function GetAsWritten(e: Tables, f: int, l: int, v: int, free: nat): Outcome
    requires 1 <= l <= 4
    decreases l
  {
    var x := e(f, Idx(v, l));
    if Stops(x, l) then Entry
    else if x.p then GetAsWritten(e, x.addr, l - 1, v, free)
    else FromZeroed(l, v, free)
  }

  lemma {:induction false} FromZeroedExact(l: int, v: int, free: nat)
    requires 1 <= l <= 4
    ensures FromZeroed(l, v, free) == Entry <==> l - 1 <= free
    ensures FromZeroed(l, v, free) == Null <==> l - 1 == free + 1 && Idx(v, 1) == 0
    decreases l
  {
    if l > 1 && free > 0 { FromZeroedExact(l - 1, v, free - 1); }
  }

  // getaddrpte as written answers as it should exactly when the missing tables can be allocated, or
  // only the last one cannot and the page is the first of that table.
  lemma {:induction false} GetAsWrittenExact(e: Tables, f: int, l: int, v: int, free: nat)
    requires 1 <= l <= 4
    ensures GetAsWritten(e, f, l, v, free) == Entry <==> Missing(e, f, l, v) <= free
    ensures GetAsWritten(e, f, l, v, free) != NullTable <==>
            Missing(e, f, l, v) <= free || (Missing(e, f, l, v) == free + 1 && Idx(v, 1) == 0)
    decreases l
  {
    hide Idx;
    var x := e(f, Idx(v, l));
    if Stops(x, l) {
    } else if x.p {
      GetAsWrittenExact(e, x.addr, l - 1, v, free);
    } else {
      FromZeroedExact(l, v, free);
    }
  }

  // With empty tables and no free page, mapping page 1 indexes a null table.
  lemma GetAsWrittenFails(root: int)
    ensures GetAsWritten((f: int, i: int) => ZERO, root, 4, 1, 0) == NullTable
  {
  }
}
