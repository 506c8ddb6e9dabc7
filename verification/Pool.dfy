/** The first-fit pool allocator of kernel/libcppk/test_generator.cpp. A freed block holds its own
    list record, so a record is only as safe as the memory it lies in. */
module Pool {
  import opened Common

  const POOL_SIZE := 512
  const RECORD := 24  // bytes of a Block: next, size, address
  const NULL := -1
  const TWO64 := 0x1_0000_0000_0000_0000

  datatype Record = Record(address: int, size: int, next: int)

  // The records that can still be read back, by address.
  type Store = map<int, Record>

  // Writing bytes [a, a + len) destroys every record that shares a byte with them.
  function Clobber(m: Store, a: int, len: int): Store {
    map k | k in m && !(k < a + len && a < k + RECORD) :: m[k]
  }

  // sizes: the blocks handed out, by address, with their latest size; offset: the used part of the
  // pool; fl: the addresses on the free list, in order.
  datatype State = State(store: Store, fl: seq<int>, sizes: map<int, int>, offset: int)

  // ---- what is kept ----

  ghost predicate Apart(sizes: map<int, int>, offset: int) {
    && (forall a | a in sizes :: 0 <= a && 0 < sizes[a] && a + sizes[a] <= offset)
    && (forall a, b | a in sizes && b in sizes && a < b :: a + sizes[a] <= b)
  }

  ghost function Next(fl: seq<int>, i: int): int {
    if 0 <= i < |fl| then fl[i] else NULL
  }

  // The i-th listed block holds its record.
  ghost predicate Listed(m: Store, fl: seq<int>, sizes: map<int, int>, i: int)
    requires 0 <= i < |fl|
  {
    fl[i] in sizes && fl[i] in m && m[fl[i]] == Record(fl[i], sizes[fl[i]], Next(fl, i + 1))
  }

  // The records spell out the free list.
  ghost predicate Chain(m: Store, fl: seq<int>, sizes: map<int, int>) {
    && (forall i {:trigger Listed(m, fl, sizes, i)} | 0 <= i < |fl| :: Listed(m, fl, sizes, i))
    && (forall i, j | 0 <= i < j < |fl| :: fl[i] != fl[j])
  }

  // The record of a block at p meets no other block, and none that can be handed out while p is
  // listed: it lies in the used part, or no request that passes p over fits the rest of the pool.
  predicate Room(sizes: map<int, int>, offset: int, p: int)
    requires p in sizes
  {
    && (forall b | b in sizes && p < b :: p + RECORD <= b)
    && p + RECORD <= POOL_SIZE
    && (p + RECORD <= offset || offset + sizes[p] + 1 > POOL_SIZE)
  }

  ghost predicate Roomy(fl: seq<int>, sizes: map<int, int>, offset: int) {
    forall i | 0 <= i < |fl| :: fl[i] in sizes && Room(sizes, offset, fl[i])
  }

  ghost predicate Good(st: State) {
    && 0 <= st.offset <= POOL_SIZE
    && Apart(st.sizes, st.offset)
    && Chain(st.store, st.fl, st.sizes)
    && Roomy(st.fl, st.sizes, st.offset)
  }

  // A block as long as a record has room for it.
  lemma LongBlockHasRoom(sizes: map<int, int>, offset: int, p: int)
    requires Apart(sizes, offset) && offset <= POOL_SIZE && p in sizes && 24 <= sizes[p]
    ensures Room(sizes, offset, p)
  {
  }

  // No byte belongs to two blocks, in use or free; all lie in the used part.
  lemma Disjoint(st: State, a: int, b: int, x: int)
    requires Good(st) && a in st.sizes && b in st.sizes
    requires a <= x < a + st.sizes[a] && b <= x < b + st.sizes[b]
    ensures a == b && 0 <= x < st.offset
  {
  }

  // ---- allocate, deallocate and the program's own writes ----

  // Position of the first listed block of at least the wanted size, or |fl|.
  ghost function Fit(fl: seq<int>, sizes: map<int, int>, size: int): (k: int)
    ensures 0 <= k <= |fl|
    ensures k < |fl| ==> fl[k] in sizes && sizes[fl[k]] >= size
    ensures forall i | 0 <= i < k :: fl[i] in sizes ==> sizes[fl[i]] < size
  {
    if fl == [] || (fl[0] in sizes && sizes[fl[0]] >= size) then 0 else 1 + Fit(fl[1..], sizes, size)
  }

  // The store after the predecessor of position k is made to point past it.
  ghost function Bypassed(m: Store, fl: seq<int>, k: int): Store
    requires 0 <= k < |fl|
  {
    if k == 0 || fl[k - 1] !in m then m else m[fl[k - 1] := m[fl[k - 1]].(next := Next(fl, k + 1))]
  }

  // A block of no bytes is no block.
  ghost function Resized(sizes: map<int, int>, a: int, size: int): map<int, int> {
    if size == 0 then sizes - {a} else sizes[a := size]
  }

  datatype Op = Alloc(size: int) | Write(p: int, at: int, len: int)

  ghost predicate Live(st: State, a: int) {
    a in st.sizes && a !in st.fl
  }

  // The program writes only inside blocks it holds.
  ghost predicate Legal(st: State, op: Op) {
    match op
    case Alloc(size) => 0 <= size && st.offset + size < TWO64
    case Write(p, at, len) => Live(st, p) && p <= at && 0 <= len && at + len <= p + st.sizes[p]
  }

  ghost function Answer(st: State, size: int): Option<int> {
    var k := Fit(st.fl, st.sizes, size);
    if k < |st.fl| then Some(st.fl[k])
    else if st.offset + size <= POOL_SIZE then Some(st.offset)
    else None
  }

  ghost function Step(st: State, op: Op): State {
    match op
    case Write(_, at, len) => st.(store := Clobber(st.store, at, len))
    case Alloc(size) =>
      var k := Fit(st.fl, st.sizes, size);
      if k < |st.fl| then
        State(Bypassed(st.store, st.fl, k), Without(st.fl, k), Resized(st.sizes, st.fl[k], size), st.offset)
      else if st.offset + size <= POOL_SIZE then
        st.(sizes := if size == 0 then st.sizes else st.sizes[st.offset := size], offset := st.offset + size)
      else st
  }

  // deallocate writes the record into the block itself.
  ghost function Freed(st: State, p: int): State
    requires p in st.sizes
  {
    st.(store := Clobber(st.store, p, RECORD)[p := Record(p, st.sizes[p], Next(st.fl, 0))], fl := [p] + st.fl)
  }

  // ---- each keeps the state good ----

  lemma ListedAt(st: State, i: int)
    requires Good(st) && 0 <= i < |st.fl|
    ensures st.fl[i] in st.sizes && Listed(st.store, st.fl, st.sizes, i) && Room(st.sizes, st.offset, st.fl[i])
  {
  }

  // A write inside a block that is not on the list leaves the list readable.
  lemma ClobberKeepsChain(m: Store, fl: seq<int>, sizes: map<int, int>, offset: int, a: int, at: int, len: int)
    requires Apart(sizes, offset) && Chain(m, fl, sizes) && Roomy(fl, sizes, offset) && a in sizes && a !in fl
    requires a <= at && at + len <= a + sizes[a]
    ensures Chain(Clobber(m, at, len), fl, sizes)
  {
    var m' := Clobber(m, at, len);
    forall i {:trigger Listed(m', fl, sizes, i)} | 0 <= i < |fl| ensures Listed(m', fl, sizes, i) {
      assert Listed(m, fl, sizes, i);
      assert fl[i] in fl && Room(sizes, offset, fl[i]);
    }
  }

  lemma WriteKeepsGood(st: State, op: Op)
    requires Good(st) && op.Write? && Legal(st, op)
    ensures Good(Step(st, op))
  {
    ClobberKeepsChain(st.store, st.fl, st.sizes, st.offset, op.p, op.at, op.len);
  }

  lemma RemoveKeepsChain(m: Store, fl: seq<int>, sizes: map<int, int>, k: int, size: int)
    requires Chain(m, fl, sizes) && 0 <= k < |fl|
    ensures fl[k] !in Without(fl, k)
    ensures Chain(Bypassed(m, fl, k), Without(fl, k), Resized(sizes, fl[k], size))
  {
    if k > 0 { assert Listed(m, fl, sizes, k - 1); }
    var m', l, s := Bypassed(m, fl, k), Without(fl, k), Resized(sizes, fl[k], size);
    forall i {:trigger Listed(m', l, s, i)} | 0 <= i < |l| ensures Listed(m', l, s, i) {
      assert Listed(m, fl, sizes, if i < k then i else i + 1);
    }
  }

  lemma ReuseKeepsRoom(st: State, k: int, size: int)
    requires Good(st) && 0 <= k < |st.fl| && st.fl[k] in st.sizes && 0 <= size <= st.sizes[st.fl[k]]
    ensures var sizes := Resized(st.sizes, st.fl[k], size);
            Apart(sizes, st.offset) && Roomy(Without(st.fl, k), sizes, st.offset)
  {
    var l, sizes := Without(st.fl, k), Resized(st.sizes, st.fl[k], size);
    forall i | 0 <= i < |l| ensures l[i] in sizes && Room(sizes, st.offset, l[i]) {
      var j := if i < k then i else i + 1;
      ListedAt(st, j);
      assert l[i] == st.fl[j] && st.fl[j] != st.fl[k];
    }
  }

  // A fresh block is handed out only when every listed block is too small for it, so none of their
  // records reaches past the used part.
  lemma FreshKeepsRoom(st: State, size: int)
    requires Good(st) && 0 < size && st.offset + size <= POOL_SIZE
    requires forall i | 0 <= i < |st.fl| :: st.fl[i] in st.sizes ==> st.sizes[st.fl[i]] < size
    ensures st.offset !in st.sizes
    ensures var sizes := st.sizes[st.offset := size];
            && Apart(sizes, st.offset + size) && Chain(st.store, st.fl, sizes)
            && Roomy(st.fl, sizes, st.offset + size)
  {
    var sizes := st.sizes[st.offset := size];
    forall i {:trigger Listed(st.store, st.fl, sizes, i)} | 0 <= i < |st.fl| ensures Listed(st.store, st.fl, sizes, i) {
      ListedAt(st, i);
    }
    forall i | 0 <= i < |st.fl| ensures st.fl[i] in sizes && Room(sizes, st.offset + size, st.fl[i]) {
      ListedAt(st, i);
      assert st.fl[i] + RECORD <= st.offset;
    }
  }

  lemma AllocKeepsGood(st: State, size: int)
    requires Good(st) && 0 <= size
    ensures Good(Step(st, Alloc(size)))
  {
    hide Apart, Chain, Roomy;
    var k := Fit(st.fl, st.sizes, size);
    if k < |st.fl| {
      RemoveKeepsChain(st.store, st.fl, st.sizes, k, size);
      ReuseKeepsRoom(st, k, size);
    } else if 0 < size && st.offset + size <= POOL_SIZE {
      FreshKeepsRoom(st, size);
    }
  }

  // An allocation leaves every block in use as it is, and hands out one that was not.
  lemma AllocKeepsLive(st: State, size: int)
    requires Good(st) && 0 <= size
    ensures forall a | Live(st, a) :: Live(Step(st, Alloc(size)), a) && Step(st, Alloc(size)).sizes[a] == st.sizes[a]
    ensures var r, st' := Answer(st, size), Step(st, Alloc(size));
            r.Some? && 0 < size ==> Live(st', r.value) && !Live(st, r.value) && st'.sizes[r.value] == size
  {
    hide Room;
    var k := Fit(st.fl, st.sizes, size);
    if k < |st.fl| {
      RemoveKeepsChain(st.store, st.fl, st.sizes, k, size);
      assert st.fl[k] in st.fl;
      forall a | a in Without(st.fl, k) ensures a in st.fl {}
    } else {
      forall i | 0 <= i < |st.fl| ensures st.fl[i] != st.offset { ListedAt(st, i); }
    }
  }

  // Every listed block is too short, and so is the rest of the pool.
  ghost predicate NothingFits(st: State, size: int) {
    (forall a | a in st.fl :: a in st.sizes && st.sizes[a] < size) && st.offset + size > 512
  }

  // What allocate answers: None exactly when no listed block is long enough and the rest of the pool is
  // too short; otherwise such a block, or the start of the rest.
  lemma AllocAnswer(st: State, size: int)
    requires Good(st)
    ensures Answer(st, size).None? <==> NothingFits(st, size)
    ensures match Answer(st, size)
            case None => Step(st, Alloc(size)) == st
            case Some(a) =>
              (a in st.fl && a in st.sizes && size <= st.sizes[a]) || (a == st.offset && st.offset + size <= 512)
  {
    hide Room;
    forall i | 0 <= i < |st.fl| ensures st.fl[i] in st.sizes { ListedAt(st, i); }
    var k := Fit(st.fl, st.sizes, size);
    if k < |st.fl| { assert st.fl[k] in st.fl; }
  }

  // A freed block is not in use, and the next request of its size gets it.
  lemma FreedIsReused(st: State, p: int)
    requires Live(st, p)
    ensures !Live(Freed(st, p), p) && Answer(Freed(st, p), st.sizes[p]) == Some(p)
    ensures forall a | a != p :: Live(Freed(st, p), a) <==> Live(st, a)
    ensures Freed(st, p).sizes == st.sizes && Freed(st, p).offset == st.offset
  {
    var st' := Freed(st, p);
    assert st'.fl[0] == p;
  }

  // The list ends where the pointer is null.
  lemma NullAtEnd(st: State, i: int)
    requires Good(st) && 0 <= i <= |st.fl|
    ensures Next(st.fl, i) == NULL <==> i == |st.fl|
  {
    if i < |st.fl| { ListedAt(st, i); }
  }

  lemma FreedKeepsGood(st: State, p: int)
    requires Good(st) && Live(st, p) && Room(st.sizes, st.offset, p)
    ensures Good(Freed(st, p))
  {
    var st' := Freed(st, p);
    forall i {:trigger Listed(st'.store, st'.fl, st'.sizes, i)} | 0 <= i < |st'.fl|
      ensures Listed(st'.store, st'.fl, st'.sizes, i)
    {
      if i > 0 {
        ListedAt(st, i - 1);
        assert st.fl[i - 1] in st.fl && st'.fl[i] == st.fl[i - 1];
      }
    }
    assert Roomy(st'.fl, st'.sizes, st'.offset);
  }

  // ---- when a block may be freed ----

  ghost predicate LegalRun(st: State, ops: seq<Op>)
    decreases |ops|
  {
    ops == [] || (Legal(st, ops[0]) && LegalRun(Step(st, ops[0]), ops[1..]))
  }

  ghost function Run(st: State, ops: seq<Op>): State
    decreases |ops|
  {
    if ops == [] then st else Run(Step(st, ops[0]), ops[1..])
  }

  ghost predicate ReadableAfter(st: State, ops: seq<Op>) {
    Chain(Run(st, ops).store, Run(st, ops).fl, Run(st, ops).sizes)
  }

  // However the program allocates and writes from here on, the free list stays readable.
  ghost predicate StaysReadable(st: State) {
    forall ops | LegalRun(st, ops) :: ReadableAfter(st, ops)
  }

  lemma {:induction false} GoodStaysReadable(st: State, ops: seq<Op>)
    requires Good(st) && LegalRun(st, ops)
    ensures ReadableAfter(st, ops)
    decreases |ops|
  {
    hide Good, Step, Chain;
    if ops == [] {
      GoodChain(st);
    } else {
      if ops[0].Write? { WriteKeepsGood(st, ops[0]); } else { AllocKeepsGood(st, ops[0].size); }
      GoodStaysReadable(Step(st, ops[0]), ops[1..]);
      assert ReadableAfter(Step(st, ops[0]), ops[1..]);
    }
  }

  lemma GoodChain(st: State)
    requires Good(st)
    ensures Chain(st.store, st.fl, st.sizes)
  {
  }

  // One step on: what stays readable from here stays readable from there.
  lemma StaysStep(st: State, op: Op)
    requires StaysReadable(st) && Legal(st, op)
    ensures StaysReadable(Step(st, op))
  {
    hide Step, Legal, Chain;
    forall ops | LegalRun(Step(st, op), ops) ensures ReadableAfter(Step(st, op), ops) {
      assert ([op] + ops)[1..] == ops;
      assert LegalRun(st, [op] + ops);
      assert ReadableAfter(st, [op] + ops);
    }
  }

  lemma StaysNow(st: State)
    requires StaysReadable(st)
    ensures Chain(st.store, st.fl, st.sizes)
  {
    assert LegalRun(st, []) && ReadableAfter(st, []);
  }

  // A held byte inside the record of listed block p: one write and the list is gone.
  lemma OverlapBreaks(st: State, p: int, b: int)
    requires p in st.fl && Live(st, b) && p < b < p + RECORD && 0 < st.sizes[b]
    ensures !StaysReadable(st)
  {
    var st' := Step(st, Write(b, b, 1));
    var i :| 0 <= i < |st.fl| && st.fl[i] == p;
    assert !Listed(st'.store, st'.fl, st'.sizes, i);
    if StaysReadable(st) {
      StaysStep(st, Write(b, b, 1));
      StaysNow(st');
    }
  }

  // A record that reaches past the used part, while a request too large for p still fits: the
  // program takes the listed blocks that fit, then a fresh one, and writes its first byte.
  lemma {:induction false} OverhangBreaks(st: State, p: int)
    requires p in st.fl && p in st.sizes && 0 < st.sizes[p] && p < st.offset < p + RECORD
    requires st.offset + st.sizes[p] + 1 <= POOL_SIZE
    requires forall i, j | 0 <= i < j < |st.fl| :: st.fl[i] != st.fl[j]
    requires st.offset !in st.fl
    ensures !StaysReadable(st)
    decreases |st.fl|
  {
    var n := st.sizes[p] + 1;
    if StaysReadable(st) {
      var k := Fit(st.fl, st.sizes, n);
      var st' := Step(st, Alloc(n));
      StaysStep(st, Alloc(n));
      var i :| 0 <= i < |st.fl| && st.fl[i] == p;
      if k < |st.fl| {
        assert st.fl[k] != p;
        assert st'.fl[if i < k then i else i - 1] == p;
        OverhangBreaks(st', p);
      } else {
        OverlapBreaks(st', p, st.offset);
      }
    }
  }

  // Freeing block p writes its record inside the pool and leaves the list readable, whatever is
  // allocated and written afterwards, exactly when p has room.
  lemma FreeExact(st: State, p: int)
    requires Good(st) && Live(st, p)
    ensures (p + RECORD <= POOL_SIZE && StaysReadable(Freed(st, p))) <==> Room(st.sizes, st.offset, p)
  {
    var st' := Freed(st, p);
    if Room(st.sizes, st.offset, p) {
      FreedKeepsGood(st, p);
      forall ops | LegalRun(st', ops) ensures ReadableAfter(st', ops) {
        GoodStaysReadable(st', ops);
      }
    } else if p + RECORD <= POOL_SIZE {
      assert st'.fl[0] == p;
      if b :| b in st.sizes && p < b < p + RECORD {
        if b in st.fl { ListedOverlapBreaks(st, p, b); } else { OverlapBreaks(st', p, b); }
      } else {
        FreedDistinct(st, p);
        OverhangBreaks(st', p);
      }
    }
  }

  lemma FreedDistinct(st: State, p: int)
    requires Good(st) && Live(st, p)
    ensures var fl := Freed(st, p).fl;
            (forall i, j | 0 <= i < j < |fl| :: fl[i] != fl[j]) && st.offset !in fl
  {
    forall i | 0 <= i < |st.fl| ensures st.fl[i] != st.offset && st.fl[i] != p {
      ListedAt(st, i);
      assert st.fl[i] in st.fl;
    }
  }

  // The record of p lands on the record of a listed block.
  lemma ListedOverlapBreaks(st: State, p: int, b: int)
    requires Good(st) && Live(st, p) && b in st.fl && p < b < p + RECORD
    ensures !StaysReadable(Freed(st, p))
  {
    var st' := Freed(st, p);
    var i :| 0 <= i < |st.fl| && st.fl[i] == b;
    assert st'.fl[i + 1] == b;
    assert !Listed(st'.store, st'.fl, st'.sizes, i + 1);
    if StaysReadable(st') { StaysNow(st'); }
  }

  // A block of 3 bytes, the only one: nothing lies within a record of it, and yet the next block
  // does, and writing there takes the list away.
  lemma ShortFreeFails()
    ensures var st := State(map[], [], map[0 := 3], 3);
            Good(st) && Live(st, 0) && !Room(st.sizes, st.offset, 0) && !StaysReadable(Freed(st, 0))
  {
    var st := State(map[], [], map[0 := 3], 3);
    assert Freed(st, 0).fl == [0];
    OverhangBreaks(Freed(st, 0), 0);
  }

  // The test for room adds in 64 bits: it is right exactly when the sum does not wrap.
  lemma RoomTestExact(offset: int, size: int)
    requires 0 <= offset <= POOL_SIZE && 0 <= size < TWO64
    ensures ((offset + size) % TWO64 > POOL_SIZE) == (offset + size > POOL_SIZE) <==> offset + size < TWO64
  {
    if offset + size >= TWO64 { assert (offset + size) % TWO64 == offset + size - TWO64; }
  }

  class StaticPool {
    var store: Store
    var freeList: int
    var poolOffset: int
    ghost var fl: seq<int>
    ghost var sizes: map<int, int>

    ghost function St(): State
      reads this
    {
      State(store, fl, sizes, poolOffset)
    }

    ghost predicate Valid()
      reads this
    {
      Good(St()) && freeList == Next(fl, 0)
    }

    constructor ()
      ensures Valid() && St() == State(map[], [], map[], 0)
    {
      store, freeList, poolOffset, fl, sizes := map[], NULL, 0, [], map[];
    }

    // allocate, for size = n * sizeof(T) bytes; None is bad_alloc.
    method Allocate(size: int) returns (r: Option<int>)
      requires Valid() && Legal(St(), Alloc(size))
      modifies this
      ensures Valid() && r == Answer(old(St()), size) && St() == Step(old(St()), Alloc(size))
      ensures r.None? <==> NothingFits(old(St()), size)
      ensures r.None? ==> St() == old(St())
      ensures r.Some? && 0 < size ==> Live(St(), r.value) && !old(Live(St(), r.value)) && sizes[r.value] == size
      ensures forall a | old(Live(St(), a)) :: Live(St(), a) && sizes[a] == old(sizes)[a]
    {
      hide Good, Room, NothingFits;
      AllocKeepsGood(St(), size);
      AllocKeepsLive(St(), size);
      AllocAnswer(St(), size);
      ghost var k := Fit(fl, sizes, size);
      var prev, current := None, freeList;
      ghost var i := 0;
      NullAtEnd(St(), 0);
      while current != NULL
        invariant Valid() && St() == old(St())
        invariant 0 <= i <= k && current == Next(fl, i) && (current == NULL <==> i == |fl|)
        invariant prev == if i == 0 then None else Some(fl[i - 1])
        decreases |fl| - i
      {
        ListedAt(St(), i);
        if store[current].size >= size {
          r := Some(current);
          Reuse(i, prev, size);
          return;
        }
        prev, current := Some(current), store[current].next;
        i := i + 1;
        NullAtEnd(St(), i);
      }
      OffsetRange(St());
      RoomTestExact(poolOffset, size);
      if (poolOffset + size) % TWO64 > POOL_SIZE {
        return None;
      }
      r := Some(poolOffset);
      sizes := if size == 0 then sizes else sizes[poolOffset := size];
      poolOffset := poolOffset + size;
    }

    // *prev = current->next for the k-th listed block
    method Reuse(ghost k: int, prev: Option<int>, ghost size: int)
      requires Valid() && 0 <= k < |fl| && prev == if k == 0 then None else Some(fl[k - 1])
      modifies this`store, this`freeList, this`fl, this`sizes
      ensures store == Bypassed(old(store), old(fl), k) && fl == Without(old(fl), k)
      ensures sizes == Resized(old(sizes), old(fl)[k], size) && freeList == Next(fl, 0)
    {
      hide Good, Room;
      ListedAt(St(), k);
      if prev == None {
        freeList := store[freeList].next;
      } else {
        ListedAt(St(), k - 1);
        store := store[prev.value := store[prev.value].(next := store[store[prev.value].next].next)];
      }
      sizes, fl := Resized(sizes, fl[k], size), Without(fl, k);
    }

    // deallocate, with the size the block was allocated with.
    method Deallocate(p: int, size: int)
      requires Valid() && Live(St(), p) && size == sizes[p] && Room(sizes, poolOffset, p)
      modifies this`store, this`freeList, this`fl
      ensures Valid() && St() == Freed(old(St()), p)
      ensures !Live(St(), p) && forall a | a != p && old(Live(St(), a)) :: Live(St(), a) && sizes[a] == old(sizes)[a]
    {
      hide Good, Room;
      FreedKeepsGood(St(), p);
      FreedIsReused(St(), p);
      store := Clobber(store, p, RECORD)[p := Record(p, size, freeList)];
      freeList := p;
      fl := [p] + fl;
    }

    // The program writes len bytes of its own at address at.
    method UserWrite(p: int, at: int, len: int)
      requires Valid() && Legal(St(), Write(p, at, len))
      modifies this`store
      ensures Valid() && St() == Step(old(St()), Write(p, at, len))
    {
      hide Good, Room;
      WriteKeepsGood(St(), Write(p, at, len));
      store := Clobber(store, at, len);
    }
  }

  lemma OffsetRange(st: State)
    requires Good(st)
    ensures 0 <= st.offset <= POOL_SIZE
  {
  }
}
