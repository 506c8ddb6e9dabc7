/** The pages of kernel/memory/pmm.cpp and where they go: on the free list, in the hands of a caller
    of pmm_alloc, or in a page table. The methods of Vmm.Machine are proved to take these steps. */
module PmmRuns {

  // Free pages in list order, pages handed out and not yet freed, and pages used as tables.
  datatype Pool = Pool(free: seq<int>, live: set<int>, tables: set<int>)

  // pmm_alloc and pmm_free by a caller, and k pages taken for tables.
  datatype Op = Alloc | Free(page: int) | Take(k: int)

  ghost function Elements(s: seq<int>): set<int> {
    set x | x in s
  }

  ghost predicate Good(s: Pool) {
    && (forall i, j | 0 <= i < j < |s.free| :: s.free[i] != s.free[j])
    && (forall i | 0 <= i < |s.free| :: s.free[i] !in s.live && s.free[i] !in s.tables)
    && s.live !! s.tables
  }

  ghost predicate Legal(s: Pool, op: Op) {
    && (op.Free? ==> op.page in s.live)
    && (op.Take? ==> 0 <= op.k <= |s.free|)
  }

  ghost function Step(s: Pool, op: Op): Pool
    requires op.Take? ==> 0 <= op.k <= |s.free|
  {
    match op
    case Alloc => if s.free == [] then s else s.(free := s.free[1..], live := s.live + {s.free[0]})
    case Free(g) => s.(free := [g] + s.free, live := s.live - {g})
    case Take(k) => s.(free := s.free[k..], tables := s.tables + Elements(s.free[..k]))
  }

  ghost predicate LegalRun(s: Pool, ops: seq<Op>)
    decreases |ops|
  {
    ops == [] || (Legal(s, ops[0]) && LegalRun(Step(s, ops[0]), ops[1..]))
  }

  ghost function Run(s: Pool, ops: seq<Op>): Pool
    requires LegalRun(s, ops)
    decreases |ops|
  {
    if ops == [] then s else Run(Step(s, ops[0]), ops[1..])
  }

  // Taking k pages and then j more is taking k + j.
  lemma TakeTake(s: Pool, k: int, j: int)
    requires 0 <= k && 0 <= j && k + j <= |s.free|
    ensures Step(Step(s, Take(k)), Take(j)) == Step(s, Take(k + j))
  {
    assert s.free[k..][j..] == s.free[k + j..] && s.free[..k + j] == s.free[..k] + s.free[k..][..j];
  }

  lemma TakeNone(s: Pool)
    ensures Step(s, Take(0)) == s
  {
    assert s.free[0..] == s.free && s.free[..0] == [];
    assert s.tables + Elements([]) == s.tables;
  }

  ghost function Pages(s: Pool): set<int> {
    Elements(s.free) + s.live + s.tables
  }

  lemma {:induction false} DistinctCount(s: seq<int>)
    requires forall i, j | 0 <= i < j < |s| :: s[i] != s[j]
    ensures |Elements(s)| == |s|
  {
    if s != [] {
      var rest := s[..|s| - 1];
      DistinctCount(rest);
      assert Elements(s) == Elements(rest) + {s[|s| - 1]};
    }
  }

  // Distinct pages below a bound are at most that many.
  lemma BelowCount(s: seq<int>, n: nat)
    requires (forall i, j | 0 <= i < j < |s| :: s[i] != s[j]) && forall i | 0 <= i < |s| :: 0 <= s[i] < n
    ensures |s| <= n
  {
    DistinctCount(s);
    var below := First(n);
    assert Elements(s) <= below;
    assert below == Elements(s) + (below - Elements(s));
  }

  ghost function First(n: nat): (r: set<int>)
    ensures (forall x :: x in r <==> 0 <= x < n) && |r| == n
  {
    if n == 0 then {} else First(n - 1) + {n - 1}
  }

  lemma StepKeepsGood(s: Pool, op: Op)
    requires Good(s) && Legal(s, op)
    ensures Good(Step(s, op)) && Pages(Step(s, op)) == Pages(s)
  {
    match op
    case Alloc => if s.free != [] { assert s.free == [s.free[0]] + s.free[1..]; }
    case Free(g) => assert s.live == (s.live - {g}) + {g};
    case Take(k) => assert s.free == s.free[..k] + s.free[k..];
  }

  // In every good state each page is in exactly one place.
  lemma CountPages(s: Pool)
    requires Good(s)
    ensures |s.free| + |s.live| + |s.tables| == |Pages(s)|
  {
    DistinctCount(s.free);
    assert Elements(s.free) !! s.live && Elements(s.free) + s.live !! s.tables;
  }

  // Over any run no page is lost, invented, or in two places.
  lemma {:induction false} RunConserves(s: Pool, ops: seq<Op>)
    requires Good(s) && LegalRun(s, ops)
    ensures var s' := Run(s, ops);
            && Good(s') && Pages(s') == Pages(s)
            && |s'.free| + |s'.live| + |s'.tables| == |s.free| + |s.live| + |s.tables|
    decreases |ops|
  {
    hide Good, Step, Pages;
    if ops != [] {
      StepKeepsGood(s, ops[0]);
      RunConserves(Step(s, ops[0]), ops[1..]);
    }
    CountPages(s);
    CountPages(Run(s, ops));
  }

  // A live page that no step of a run frees is live, hence not on the free list and no table, at the end.
  lemma {:induction false} LiveUntilFreed(s: Pool, ops: seq<Op>, g: int)
    requires Good(s) && LegalRun(s, ops) && g in s.live && Free(g) !in ops
    ensures var s' := Run(s, ops); g in s'.live && g !in s'.free && g !in s'.tables
    decreases |ops|
  {
    if ops != [] {
      StepKeepsGood(s, ops[0]);
      assert ops[0] in ops && forall op | op in ops[1..] :: op in ops;
      LiveUntilFreed(Step(s, ops[0]), ops[1..], g);
    }
  }

  // A table page is never handed out: tables are not given back.
  lemma {:induction false} TableForever(s: Pool, ops: seq<Op>, g: int)
    requires Good(s) && LegalRun(s, ops) && g in s.tables
    ensures var s' := Run(s, ops); g in s'.tables && g !in s'.free && g !in s'.live
    decreases |ops|
  {
    if ops != [] {
      StepKeepsGood(s, ops[0]);
      TableForever(Step(s, ops[0]), ops[1..], g);
    }
  }

  // The page that pmm_alloc hands out in state s.
  ghost predicate HandsOut(s: Pool, g: int) {
    s.free != [] && s.free[0] == g
  }

  // A page handed out is not handed out again, to a caller or as a table, before it is freed.
  lemma NotHandedOutTwice(s: Pool, between: seq<Op>, g: int)
    requires Good(s) && HandsOut(s, g) && LegalRun(Step(s, Alloc), between)
    requires var s' := Run(Step(s, Alloc), between); HandsOut(s', g) || g in s'.tables
    ensures Free(g) in between
  {
    StepKeepsGood(s, Alloc);
    if Free(g) !in between {
      LiveUntilFreed(Step(s, Alloc), between, g);
    }
  }
}
