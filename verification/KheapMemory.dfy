/** How a tiling is stored in the bytes of `kmem`: headers with two flag bits, footers on
    free blocks, and a doubly linked free list threaded through the free blocks.
    Memory is a sequence of 16-bit words; the word at byte offset o is word o / 2. */
module KheapMemory {
  import opened Common
  import opened KheapTiling

  type u16 = x: int | 0 <= x < 65536
  type Words = seq<u16>

  const MAX_ALLOC := 65535
  const WORDS := 32767
  // End of the free list. No block starts at an odd offset, so it differs from every index.
  const NIL: u16 := 65535

  // ---- block_header bit fields ----

  function SizeOf(w: u16): int { w - w % 4 }

  predicate IsAlloc(w: u16) { w / 2 % 2 == 1 }

  predicate LeftAlloc(w: u16) { w % 2 == 1 }

  lemma LowBits(w: int, q: int, c: int)
    requires w == 4 * q + c && 0 <= c < 4
    ensures w % 4 == c && w / 2 % 2 == c / 2 && w % 2 == c % 2
  {
    assert w / 2 == 2 * q + c / 2;
  }

  // The header word: size, allocated in bit 1, left_allocated in bit 0.
  lemma HeaderBits(w: u16)
    ensures w == SizeOf(w) + (if IsAlloc(w) then 2 else 0) + (if LeftAlloc(w) then 1 else 0) && SizeOf(w) % 4 == 0
  {
    LowBits(w, w / 4, w % 4);
  }

  // Assigning size() keeps the two flag bits and drops those of the value.
  function WithSize(w: u16, v: u16): (r: u16)
    ensures SizeOf(r) == SizeOf(v) && IsAlloc(r) == IsAlloc(w) && LeftAlloc(r) == LeftAlloc(w)
  {
    LowBits(w, w / 4, w % 4);
    LowBits(v - v % 4 + w % 4, v / 4, w % 4);
    v - v % 4 + w % 4
  }

  function WithAlloc(w: u16, b: bool): (r: u16)
    ensures SizeOf(r) == SizeOf(w) && IsAlloc(r) == b && LeftAlloc(r) == LeftAlloc(w)
  {
    LowBits(w, w / 4, w % 4);
    var c := w % 4 % 2 + (if b then 2 else 0);
    LowBits(w - w % 4 + c, w / 4, c);
    w - w % 4 + c
  }

  function WithLeft(w: u16, b: bool): (r: u16)
    ensures SizeOf(r) == SizeOf(w) && IsAlloc(r) == IsAlloc(w) && LeftAlloc(r) == b
  {
    w - w % 2 + (if b then 1 else 0)
  }

  // ---- words ----

  predicate Even(o: int) { o % 2 == 0 }

  lemma EvenOfMultiple(x: int)
    requires x % 4 == 0
    ensures Even(x) && Even(x - 2) && Even(x + 2) && Even(x + 4)
  {
    LowBits(x, x / 4, 0);
    LowBits(x - 2, x / 4 - 1, 2);
    LowBits(x + 2, x / 4, 2);
    LowBits(x + 4, x / 4 + 1, 0);
  }

  function W(m: Words, o: int): u16
    requires |m| == WORDS && 0 <= o <= END
  {
    m[o / 2]
  }

  function Put(m: Words, o: int, x: u16): (m': Words)
    requires |m| == WORDS && 0 <= o <= END
    ensures |m'| == WORDS
  {
    m[o / 2 := x]
  }

  // m and m' hold the same words, except at the offsets in x.
  ghost predicate Same(m: Words, m': Words, x: set<int>)
    requires |m| == WORDS && |m'| == WORDS
  {
    forall o {:trigger W(m', o)} | 0 <= o <= END && Even(o) && o !in x :: W(m', o) == W(m, o)
  }

  lemma PutFrame(m: Words, o: int, x: u16)
    requires |m| == WORDS && 0 <= o <= END && Even(o)
    ensures W(Put(m, o, x), o) == x && Same(m, Put(m, o, x), {o})
  {
  }

  // ---- free list ----

  ghost predicate Spread(fl: seq<int>) {
    && (forall i | 0 <= i < |fl| :: 0 <= fl[i] <= END - 8 && fl[i] % 4 == 0)
    && (forall i, j | 0 <= i < j < |fl| :: fl[i] + 8 <= fl[j] || fl[j] + 8 <= fl[i])
  }

  ghost function PrevIn(fl: seq<int>, i: int): int
    requires 0 <= i < |fl|
  {
    if i == 0 then NIL else fl[i - 1]
  }

  ghost function NextIn(fl: seq<int>, i: int): int
    requires -1 <= i < |fl|
  {
    if i + 1 == |fl| then NIL else fl[i + 1]
  }

  ghost predicate LinksAt(m: Words, fl: seq<int>, i: int)
    requires |m| == WORDS && Spread(fl) && 0 <= i < |fl|
  {
    W(m, fl[i] + 2) == PrevIn(fl, i) && W(m, fl[i] + 4) == NextIn(fl, i)
  }

  // head, and the prev and next words of the blocks in fl, link exactly fl in both directions.
  ghost predicate Links(m: Words, fl: seq<int>, head: int)
    requires |m| == WORDS
  {
    && Spread(fl)
    && head == NextIn(fl, -1)
    && (forall i {:trigger LinksAt(m, fl, i)} | 0 <= i < |fl| :: LinksAt(m, fl, i))
  }

  lemma LinksSpread(m: Words, fl: seq<int>, head: int)
    requires |m| == WORDS && Links(m, fl, head)
    ensures Spread(fl)
  {
  }

  // fl holds exactly the free blocks of t (each once, by Spread).
  ghost predicate ListsFree(t: Tiles, fl: seq<int>) {
    forall s :: s in fl <==> s in t && !t[s].alloc
  }

  // Offsets of the prev and next words of the blocks in fl.
  ghost function LinkWords(fl: seq<int>): set<int> {
    (set i | 0 <= i < |fl| :: fl[i] + 2) + (set i | 0 <= i < |fl| :: fl[i] + 4)
  }

  // ---- remove_from_free_list ----

  // The memory after the two link updates for the block at position k.
  ghost function Unlinked(m: Words, fl: seq<int>, k: int): Words
    requires |m| == WORDS && Spread(fl) && 0 <= k < |fl|
  {
    var p, n := PrevIn(fl, k), NextIn(fl, k);
    var m1 := if k == 0 then m else Put(m, fl[k - 1] + 4, n);
    if k + 1 == |fl| then m1 else Put(m1, fl[k + 1] + 2, p)
  }

  lemma SpreadAt(fl: seq<int>, i: int)
    requires Spread(fl) && 0 <= i < |fl|
    ensures 0 <= fl[i] <= END - 8 && Even(fl[i] + 2) && Even(fl[i] + 4)
  {
    hide Even;
    EvenOfMultiple(fl[i]);
  }

  lemma LinkRange(fl: seq<int>, i: int)
    requires Spread(fl) && -1 <= i < |fl|
    ensures 0 <= NextIn(fl, i) < 65536 && (0 <= i ==> 0 <= PrevIn(fl, i) < 65536)
  {
  }

  lemma SpreadApart(fl: seq<int>, i: int, j: int)
    requires Spread(fl) && 0 <= i < |fl| && 0 <= j < |fl|
    ensures fl[i] + 2 != fl[j] + 4
  {
  }

  lemma UnlinkedWords(m: Words, fl: seq<int>, k: int)
    requires |m| == WORDS && Spread(fl) && 0 <= k < |fl|
    ensures (0 < k ==> fl[k - 1] + 4 <= END) && (k + 1 < |fl| ==> fl[k + 1] + 2 <= END)
    ensures var m' := Unlinked(m, fl, k);
            && (0 < k ==> W(m', fl[k - 1] + 4) == NextIn(fl, k))
            && (k + 1 < |fl| ==> W(m', fl[k + 1] + 2) == PrevIn(fl, k))
            && Same(m, m', (if 0 < k then {fl[k - 1] + 4} else {}) + (if k + 1 < |fl| then {fl[k + 1] + 2} else {}))
  {
    hide W, Put, Even, Spread;
    LinkRange(fl, k);
    var m1 := m;
    if 0 < k {
      SpreadAt(fl, k - 1);
      PutFrame(m, fl[k - 1] + 4, NextIn(fl, k));
      m1 := Put(m, fl[k - 1] + 4, NextIn(fl, k));
    }
    if k + 1 < |fl| {
      SpreadAt(fl, k + 1);
      PutFrame(m1, fl[k + 1] + 2, PrevIn(fl, k));
      if 0 < k { SpreadApart(fl, k + 1, k - 1); }
    }
  }

  lemma WithoutSpread(fl: seq<int>, k: int)
    requires Spread(fl) && 0 <= k < |fl|
    ensures Spread(Without(fl, k))
    ensures forall i | 0 <= i < |fl| - 1 :: Without(fl, k)[i] == fl[if i < k then i else i + 1]
  {
  }

  lemma UnlinkedFrame(m: Words, fl: seq<int>, k: int)
    requires |m| == WORDS && Spread(fl) && 0 <= k < |fl|
    ensures Same(m, Unlinked(m, fl, k), LinkWords(fl))
  {
    UnlinkedWords(m, fl, k);
  }

  // The neighbours a staying block has in the shortened list.
  lemma NeighboursWithout(fl: seq<int>, k: int, j: int)
    requires 0 <= k < |fl| && 0 <= j < |fl| && j != k
    ensures var fl', i := Without(fl, k), if j < k then j else j - 1;
            && fl'[i] == fl[j]
            && PrevIn(fl', i) == (if j == k + 1 then PrevIn(fl, k) else PrevIn(fl, j))
            && NextIn(fl', i) == (if j == k - 1 then NextIn(fl, k) else NextIn(fl, j))
  {
  }

  lemma LinkAfterRemoval(m: Words, fl: seq<int>, k: int, j: int)
    requires |m| == WORDS && Spread(fl) && 0 <= k < |fl| && 0 <= j < |fl| && j != k
    requires LinksAt(m, fl, j) && Spread(Without(fl, k))
    ensures LinksAt(Unlinked(m, fl, k), Without(fl, k), if j < k then j else j - 1)
  {
    NeighboursWithout(fl, k, j);
    UnlinkedAt(m, fl, k, j);
  }

  lemma UnlinkedKeepsLinks(m: Words, fl: seq<int>, k: int, head: int)
    requires |m| == WORDS && Links(m, fl, head) && 0 <= k < |fl|
    ensures Links(Unlinked(m, fl, k), Without(fl, k), if k == 0 then NextIn(fl, 0) else head)
  {
    var m', fl' := Unlinked(m, fl, k), Without(fl, k);
    WithoutSpread(fl, k);
    forall i {:trigger LinksAt(m', fl', i)} | 0 <= i < |fl'| ensures LinksAt(m', fl', i) {
      var j := if i < k then i else i + 1;
      assert LinksAt(m, fl, j);
      LinkAfterRemoval(m, fl, k, j);
    }
    assert NextIn(fl', -1) == if k == 0 then NextIn(fl, 0) else fl[0];
  }

  // The link words of a block that stays, after unlinking position k.
  lemma UnlinkedAt(m: Words, fl: seq<int>, k: int, j: int)
    requires |m| == WORDS && Spread(fl) && 0 <= k < |fl| && 0 <= j < |fl| && j != k
    ensures var m' := Unlinked(m, fl, k);
            && W(m', fl[j] + 2) == (if j == k + 1 then PrevIn(fl, k) else W(m, fl[j] + 2))
            && W(m', fl[j] + 4) == (if j + 1 == k then NextIn(fl, k) else W(m, fl[j] + 4))
  {
    UnlinkedWords(m, fl, k);
    assert fl[j] % 4 == 0;
    assert 0 < k ==> fl[k - 1] % 4 == 0 && (j + 1 == k || fl[j] != fl[k - 1]);
    assert k + 1 < |fl| ==> fl[k + 1] % 4 == 0 && (j == k + 1 || fl[j] != fl[k + 1]);
  }

  // ---- insert_into_free_list ----

  // A block that can be added to the list.
  ghost predicate Fits(fl: seq<int>, b: int) {
    && 0 <= b <= END - 8 && b % 4 == 0
    && (forall i | 0 <= i < |fl| :: fl[i] + 8 <= b || b + 8 <= fl[i])
  }

  ghost function Linked(m: Words, fl: seq<int>, b: int): Words
    requires |m| == WORDS && Spread(fl) && Fits(fl, b)
  {
    var m1 := Put(Put(m, b + 2, NIL), b + 4, NextIn(fl, -1));
    if fl == [] then m1 else Put(m1, fl[0] + 2, b)
  }

  lemma LinkedWords(m: Words, fl: seq<int>, b: int)
    requires |m| == WORDS && Spread(fl) && Fits(fl, b)
    ensures var m' := Linked(m, fl, b);
            && W(m', b + 2) == NIL && W(m', b + 4) == NextIn(fl, -1)
            && (fl != [] ==> W(m', fl[0] + 2) == b)
            && Same(m, m', {b + 2, b + 4} + (if fl != [] then {fl[0] + 2} else {}))
  {
    hide W, Put, Even, Spread, Fits;
    FitsAt(fl, b);
    LinkRange(fl, -1);
    var m1 := Put(m, b + 2, NIL);
    PutFrame(m, b + 2, NIL);
    var m2 := Put(m1, b + 4, NextIn(fl, -1));
    PutFrame(m1, b + 4, NextIn(fl, -1));
    if fl != [] {
      SpreadAt(fl, 0);
      PutFrame(m2, fl[0] + 2, b);
    }
  }

  lemma FitsAt(fl: seq<int>, b: int)
    requires Fits(fl, b)
    ensures 0 <= b <= END - 8 && Even(b + 2) && Even(b + 4)
    ensures fl != [] ==> fl[0] + 2 != b + 2 && fl[0] + 2 != b + 4
  {
    hide Even;
    EvenOfMultiple(b);
  }

  lemma LinkedFrame(m: Words, fl: seq<int>, b: int)
    requires |m| == WORDS && Spread(fl) && Fits(fl, b)
    ensures Same(m, Linked(m, fl, b), LinkWords([b] + fl))
  {
    var m', fl' := Linked(m, fl, b), [b] + fl;
    LinkedWords(m, fl, b);
    assert fl'[0] == b && (fl != [] ==> fl'[1] == fl[0]);
  }

  lemma LinkedAt(m: Words, fl: seq<int>, b: int, j: int)
    requires |m| == WORDS && Spread(fl) && Fits(fl, b) && 0 <= j < |fl|
    ensures var m' := Linked(m, fl, b);
            && W(m', fl[j] + 2) == (if j == 0 then b else W(m, fl[j] + 2))
            && W(m', fl[j] + 4) == W(m, fl[j] + 4)
  {
    LinkedWords(m, fl, b);
    assert fl[j] % 4 == 0 && fl[0] % 4 == 0 && (j == 0 || fl[j] != fl[0]);
  }

  lemma ConsSpread(fl: seq<int>, b: int)
    requires Spread(fl) && Fits(fl, b)
    ensures Spread([b] + fl)
    ensures forall i | 0 < i <= |fl| :: ([b] + fl)[i] == fl[i - 1]
  {
  }

  lemma LinksAfterInsertion(m: Words, m': Words, fl: seq<int>, b: int, head: int)
    requires |m| == WORDS && |m'| == WORDS && Links(m, fl, head) && Fits(fl, b)
    requires W(m', b + 2) == NIL && W(m', b + 4) == NextIn(fl, -1)
    requires forall j | 0 <= j < |fl| ::
               && W(m', fl[j] + 2) == (if j == 0 then b else W(m, fl[j] + 2))
               && W(m', fl[j] + 4) == W(m, fl[j] + 4)
    ensures Links(m', [b] + fl, b)
  {
    var fl' := [b] + fl;
    ConsSpread(fl, b);
    forall i {:trigger LinksAt(m', fl', i)} | 0 <= i < |fl'| ensures LinksAt(m', fl', i) {
      if i > 0 { assert fl'[i] == fl[i - 1] && LinksAt(m, fl, i - 1); }
    }
  }

  lemma LinkedKeepsLinks(m: Words, fl: seq<int>, b: int, head: int)
    requires |m| == WORDS && Links(m, fl, head) && Fits(fl, b)
    ensures Links(Linked(m, fl, b), [b] + fl, b)
  {
    LinkedWords(m, fl, b);
    forall j | 0 <= j < |fl| { LinkedAt(m, fl, b, j); }
    LinksAfterInsertion(m, Linked(m, fl, b), fl, b, head);
  }
}
