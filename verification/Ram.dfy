/** Physical memory below the kernel window as an array of 64-bit words, 512 to a page frame;
    page-table entries as bit fields of a word (kernel/arch/x86/paging.h); kernel pointers to
    frames (kernel/arch/x86/memlayout.h); and the free list of pages threaded through the first
    word of each free page (kernel/memory/pmm.cpp). */
module Ram {
  import opened Paging

  type u64 = x: int | 0 <= x < 0x1_0000_0000_0000_0000
  type Words = seq<u64>

  const PGSIZE := 4096
  const PTE_PER_PT := 512
  const KVA_KERNEL_BEGIN := 0xFFFF_FFFF_8000_0000
  const TWO64 := 0x1_0000_0000_0000_0000
  const VA_PMAP_BEGIN := 0xFFFF_8800_0000_0000
  const PHYSTOP := 0x4000_0000
  // Frames below PHYSTOP.
  const PHYS_FRAMES := 0x4_0000

  // ---- pte_t bit fields ----

  function Bit(b: bool): int { if b then 1 else 0 }

  predicate Encodable(e: Pte) {
    0 <= e.low < 16 && 0 <= e.avail < 16 && 0 <= e.addr < FRAMES && 0 <= e.high < 0x100_0000
  }

  // The fields of an entry, lowest bit first: p, w, u (1 bit each), pwt to dirty (4), large (1),
  // global and layer (4), addr (28), the rest (24).
  function Decode(x: u64): (e: Pte)
    ensures Encodable(e)
  {
    var q1 := x / 2;
    var q2 := q1 / 2;
    var q3 := q2 / 2;
    var q4 := q3 / 16;
    var q5 := q4 / 2;
    var q6 := q5 / 16;
    Pte(x % 2 == 1, q1 % 2 == 1, q2 % 2 == 1, q3 % 16, q4 % 2 == 1, q5 % 16, q6 % FRAMES, q6 / FRAMES)
  }

  function Encode(e: Pte): (x: u64)
    requires Encodable(e)
  {
    var q6 := e.addr + FRAMES * e.high;
    var q5 := e.avail + 16 * q6;
    var q4 := Bit(e.large) + 2 * q5;
    var q3 := e.low + 16 * q4;
    var q2 := Bit(e.u) + 2 * q3;
    var q1 := Bit(e.w) + 2 * q2;
    Bit(e.p) + 2 * q1
  }

  lemma Div2(q: int, r: int)
    requires 0 <= r < 2
    ensures (r + 2 * q) / 2 == q && (r + 2 * q) % 2 == r
  {
  }

  lemma Div16(q: int, r: int)
    requires 0 <= r < 16
    ensures (r + 16 * q) / 16 == q && (r + 16 * q) % 16 == r
  {
  }

  lemma DivFrames(q: int, r: int)
    requires 0 <= r < FRAMES
    ensures (r + FRAMES * q) / FRAMES == q && (r + FRAMES * q) % FRAMES == r
  {
  }

  // Reading back the fields of an encoded entry gives the entry.
  lemma DecodeEncode(e: Pte)
    requires Encodable(e)
    ensures Decode(Encode(e)) == e
  {
    var q6 := e.addr + FRAMES * e.high;
    var q5 := e.avail + 16 * q6;
    var q4 := Bit(e.large) + 2 * q5;
    var q3 := e.low + 16 * q4;
    var q2 := Bit(e.u) + 2 * q3;
    var q1 := Bit(e.w) + 2 * q2;
    assert Encode(e) / 2 == q1 && Encode(e) % 2 == Bit(e.p) by { Div2(q1, Bit(e.p)); }
    assert q1 / 2 == q2 && q1 % 2 == Bit(e.w) by { Div2(q2, Bit(e.w)); }
    assert q2 / 2 == q3 && q2 % 2 == Bit(e.u) by { Div2(q3, Bit(e.u)); }
    assert q3 / 16 == q4 && q3 % 16 == e.low by { Div16(q4, e.low); }
    assert q4 / 2 == q5 && q4 % 2 == Bit(e.large) by { Div2(q5, Bit(e.large)); }
    assert q5 / 16 == q6 && q5 % 16 == e.avail by { Div16(q6, e.avail); }
    assert q6 / FRAMES == e.high && q6 % FRAMES == e.addr by { DivFrames(e.high, e.addr); }
  }

  // Where the fields lie in the word.
  lemma EntryBits(e: Pte)
    requires Encodable(e)
    ensures var x := Encode(e);
            && (x % 2 == 1 <==> e.p) && (x / 2 % 2 == 1 <==> e.w) && (x / 4 % 2 == 1 <==> e.u) && x / 8 % 16 == e.low
            && (x / 128 % 2 == 1 <==> e.large) && x / 256 % 16 == e.avail && x / 4096 % 0x1000_0000 == e.addr
            && x / 0x100_0000_0000 == e.high
  {
    hide Decode;
    DecodeEncode(e);
    WordBits(Encode(e));
  }

  lemma WordBits(x: u64)
    ensures var e := Decode(x);
            && (x % 2 == 1 <==> e.p) && (x / 2 % 2 == 1 <==> e.w) && (x / 4 % 2 == 1 <==> e.u) && x / 8 % 16 == e.low
            && (x / 128 % 2 == 1 <==> e.large) && x / 256 % 16 == e.avail && x / 4096 % 0x1000_0000 == e.addr
            && x / 0x100_0000_0000 == e.high
  {
    assert x / 2 / 2 == x / 4;
    assert x / 4 / 2 == x / 8;
    assert x / 8 / 16 == x / 128;
    assert x / 128 / 2 == x / 256;
    assert x / 256 / 16 == x / 4096;
    assert x / 4096 / FRAMES == x / 0x100_0000_0000;
  }

  // Writing back the fields of a word gives the word.
  lemma EncodeDecode(x: u64)
    ensures Encode(Decode(x)) == x
  {
  }

  // ---- kernel pointers ----

  function KV2P(a: u64): u64 { (a - KVA_KERNEL_BEGIN) % TWO64 }

  function P2KV(a: u64): u64 { (a + KVA_KERNEL_BEGIN) % TWO64 }

  function KV2V(a: u64): u64 { (a - (KVA_KERNEL_BEGIN - VA_PMAP_BEGIN)) % TWO64 }

  function KvaToPteAddr(a: u64): int { KV2P(a) / PGSIZE % 0x1_0000_0000 }

  // Kernel pointer to frame g, and the frame a kernel pointer names.
  function PtrTo(g: int): u64
    requires 0 <= g < PHYS_FRAMES
  {
    P2KV(g * PGSIZE)
  }

  function FrameOf(p: u64): int { KV2P(p) / PGSIZE }

  // A table pointer survives the trip through the addr field of an entry, and is never null.
  lemma PointerRoundTrip(g: int)
    requires 0 <= g < PHYS_FRAMES
    ensures FrameOf(PtrTo(g)) == g && PtrTo(g) != 0
    ensures KvaToPteAddr(PtrTo(g)) == g && P2KV(g * PGSIZE) == PtrTo(g)
    ensures PtrTo(g) == KVA_KERNEL_BEGIN + g * PGSIZE == 0xFFFF_FFFF_8000_0000 + g * 4096
  {
    assert g * PGSIZE < PHYSTOP;
  }

  // ---- tables in memory ----

  ghost function View(m: Words): Tables {
    (f: int, i: int) => if 0 <= f && 0 <= i < 512 && f * 512 + i < |m| then Decode(m[f * 512 + i]) else ZERO
  }

  // One word written.
  lemma ViewWrite(m: Words, f: int, i: int, x: u64)
    requires 0 <= f && 0 <= i < 512 && f * 512 + i < |m|
    ensures LeafWritten(View(m), View(m[f * 512 + i := x]), At(f, i), Decode(x))
  {
    hide Decode;
    var m' := m[f * 512 + i := x];
    forall h, j {:trigger View(m')(h, j)} | !(h == f && j == i) ensures View(m')(h, j) == View(m)(h, j) {
      if 0 <= h && 0 <= j < 512 && h * 512 + j < |m| { assert h * 512 + j != f * 512 + i; }
    }
  }

  lemma DecodeZero()
    ensures Decode(0) == ZERO
  {
  }

  // The byte memset fills a new table with: (x << 9) truncated to 8 bits, whatever the layer.
  lemma FillByteIsZero(layer: int)
    ensures (layer - 1) * 512 % 256 == 0
  {
    assert (layer - 1) * 512 == 256 * (2 * (layer - 1));
  }

  // ---- the page free list ----

  ghost function PtrAt(free: seq<int>, k: int): int
    requires 0 <= k <= |free| && forall j | 0 <= j < |free| :: 0 <= free[j] < PHYS_FRAMES
  {
    if k == |free| then 0 else PtrTo(free[k])
  }

  ghost predicate Frames(free: seq<int>, frames: int) {
    && frames <= PHYS_FRAMES
    && (forall k | 0 <= k < |free| :: 0 <= free[k] < frames)
    && (forall j, k | 0 <= j < k < |free| :: free[j] != free[k])
  }

  ghost predicate LinkAt(m: Words, frames: int, free: seq<int>, k: int)
    requires |m| == frames * 512 && Frames(free, frames) && 0 <= k < |free|
  {
    m[free[k] * 512] == PtrAt(free, k + 1)
  }

  // head and the first words of the pages in free link exactly free.
  ghost predicate FreeList(m: Words, frames: int, free: seq<int>, head: int) {
    && |m| == frames * 512 && Frames(free, frames) && head == PtrAt(free, 0)
    && forall k {:trigger LinkAt(m, frames, free, k)} | 0 <= k < |free| :: LinkAt(m, frames, free, k)
  }

  // Words outside the first word of free pages can change.
  lemma FreeListFrame(m: Words, m': Words, frames: int, free: seq<int>, head: int)
    requires FreeList(m, frames, free, head) && |m'| == |m|
    requires forall k | 0 <= k < |free| :: m'[free[k] * 512] == m[free[k] * 512]
    ensures FreeList(m', frames, free, head)
  {
    forall k {:trigger LinkAt(m', frames, free, k)} | 0 <= k < |free| ensures LinkAt(m', frames, free, k) {
      assert LinkAt(m, frames, free, k);
    }
  }

  lemma FreeListPush(m: Words, frames: int, free: seq<int>, head: u64, g: int)
    requires FreeList(m, frames, free, head) && 0 <= g < frames && g !in free
    ensures FreeList(m[g * 512 := head], frames, [g] + free, PtrTo(g))
  {
    var m', free' := m[g * 512 := head], [g] + free;
    forall k {:trigger LinkAt(m', frames, free', k)} | 0 <= k < |free'| ensures LinkAt(m', frames, free', k) {
      if k > 0 {
        assert LinkAt(m, frames, free, k - 1);
        assert free'[k] == free[k - 1] && free[k - 1] in free;
      }
    }
  }

  lemma FreeListPop(m: Words, frames: int, free: seq<int>, head: u64)
    requires FreeList(m, frames, free, head) && free != []
    ensures FreeList(m, frames, free[1..], m[free[0] * 512])
    ensures head == PtrTo(free[0]) && free[0] !in free[1..]
  {
    assert LinkAt(m, frames, free, 0);
    forall k {:trigger LinkAt(m, frames, free[1..], k)} | 0 <= k < |free[1..]| ensures LinkAt(m, frames, free[1..], k) {
      assert LinkAt(m, frames, free, k + 1);
    }
  }
}
