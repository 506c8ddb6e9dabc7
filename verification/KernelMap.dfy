/** init_vmm (kernel/memory/vmm.cpp): the kernel's 1 GB pages, and their agreement with KV2P. */
module KernelMap {
  import opened Paging
  import opened Ram
  import opened Vmm

  const GB_FRAMES := 262144

  function LargePte(frame: int): Pte {
    ZERO.(p := true, w := true, large := true, addr := frame)
  }

  // Frame that entry i of kpdpe maps.
  function KernelBase(i: int): int {
    if i < 510 then i * GB_FRAMES else (i - 510) * GB_FRAMES
  }

  // Frame of page v of PML4 slot 511 after init_vmm.
  function KernelFrame(v: int): int {
    KernelBase(Idx(v, 3)) + v % GB_FRAMES
  }

  // The walk of v leaves its first table for tables other than a and b.
  ghost predicate Avoids(e: Tables, f: int, l: int, v: int, a: int, b: int)
    requires 1 <= l <= 4
    decreases l
  {
    var x := e(f, Idx(v, l));
    x.p && !Stops(x, l) ==> x.addr != a && x.addr != b && Avoids(e, x.addr, l - 1, v, a, b)
  }

  // Outside tables a and b nothing changed.
  ghost predicate SameOutside(e: Tables, e': Tables, a: int, b: int) {
    forall f, i {:trigger e'(f, i)} | f != a && f != b :: e'(f, i) == e(f, i)
  }

  lemma {:induction false} AvoidingWalk(e: Tables, e': Tables, f: int, l: int, v: int, a: int, b: int)
    requires 1 <= l <= 4 && f != a && f != b && SameOutside(e, e', a, b) && Avoids(e, f, l, v, a, b)
    ensures Walk(e', f, l, v) == Walk(e, f, l, v)
    decreases l
  {
    hide Idx, LeafFrame;
    var x := e(f, Idx(v, l));
    if x.p && !Stops(x, l) { AvoidingWalk(e, e', x.addr, l - 1, v, a, b); }
  }

  // The first i entries of table b are the kernel's large pages.
  ghost predicate KernelEntries(e: Tables, b: int, i: int) {
    forall j | 0 <= j < i :: e(b, j) == LargePte(KernelBase(j))
  }

  lemma KernelWalk(e: Tables, a: int, b: int, v: int)
    requires KernelEntries(e, b, 512) && e(a, 511) == ZERO.(p := true, w := true, addr := b)
    requires Idx(v, 4) == 511
    ensures Walk(e, a, 4, v) == Mapped(KernelFrame(v), true, false)
  {
    hide Idx;
    IdxRange(v, 3);
    var i := Idx(v, 3);
    assert e(b, i) == LargePte(KernelBase(i));
    assert LeafFrame(KernelBase(i), v, 3) == KernelFrame(v);
  }

  // Entry i of kpdpe := a present, writeable large page at physical address pa.
  method SetLarge(ram: array<u64>, kpdpe: int, i: int, pa: u64, ghost e: Tables)
    requires 0 <= i < 512 && 0 <= kpdpe < PHYS_FRAMES && kpdpe * 512 + 512 <= ram.Length
    requires KernelProgress(e, View(ram[..]), kpdpe, i) && pa / PGSIZE == KernelBase(i)
    modifies ram
    ensures KernelProgress(e, View(ram[..]), kpdpe, i + 1)
  {
    hide View, Decode, Encode, KernelBase, LeafWritten, KernelProgress;
    KernelBaseRange(i);
    var x := LargePte(pa / PGSIZE);
    DecodeEncode(x);
    ghost var m := ram[..];
    ram[kpdpe * 512 + i] := Encode(x);
    assert ram[..] == m[kpdpe * 512 + i := Encode(x)];
    ViewWrite(m, kpdpe, i, Encode(x));
    KernelStep(e, View(m), View(ram[..]), kpdpe, i);
  }

  method InitVmm(ram: array<u64>, kpml4: int, kpdpe: int)
    requires 0 <= kpml4 < PHYS_FRAMES && 0 <= kpdpe < PHYS_FRAMES && kpml4 != kpdpe
    requires kpml4 * 512 + 512 <= ram.Length && kpdpe * 512 + 512 <= ram.Length
    modifies ram
    ensures forall v | 0 <= v < VPAGES && Idx(v, 4) == 511 ::
              Walk(View(ram[..]), kpml4, 4, v) == Mapped(KernelFrame(v), true, false)
    ensures forall v | 0 <= v < VPAGES && Idx(v, 4) != 511 && Avoids(old(View(ram[..])), kpml4, 4, v, kpml4, kpdpe) ::
              Walk(View(ram[..]), kpml4, 4, v) == Walk(old(View(ram[..])), kpml4, 4, v)
  {
    hide View, Decode, Encode, Idx, Walk, LeafWritten, KernelEntries, KernelProgress;
    ghost var e := View(ram[..]);
    var i := 0;
    KernelStart(e, kpdpe);
    while i < PTE_PER_PT - 2
      invariant 0 <= i <= PTE_PER_PT - 2
      invariant KernelProgress(e, View(ram[..]), kpdpe, i)
    {
      SetLarge(ram, kpdpe, i, i * 0x4000_0000, e);
      i := i + 1;
    }
    SetLarge(ram, kpdpe, PTE_PER_PT - 2, 0, e);
    SetLarge(ram, kpdpe, PTE_PER_PT - 1, 0x4000_0000, e);
    var top := ZERO.(p := true, w := true, addr := KvaToPteAddr(PtrTo(kpdpe)));
    PointerRoundTrip(kpdpe);
    DecodeEncode(top);
    ghost var m := ram[..];
    ram[kpml4 * 512 + 511] := Encode(top);
    assert ram[..] == m[kpml4 * 512 + 511 := Encode(top)];
    ViewWrite(m, kpml4, 511, Encode(top));
    KernelDone(e, View(m), View(ram[..]), kpml4, kpdpe);
  }

  lemma KernelBaseRange(i: int)
    requires 0 <= i < 512
    ensures 0 <= KernelBase(i) < FRAMES
  {
  }

  ghost predicate KernelProgress(e: Tables, e': Tables, b: int, i: int) {
    KernelEntries(e', b, i) && forall f, j {:trigger e'(f, j)} | f != b :: e'(f, j) == e(f, j)
  }

  lemma KernelStart(e: Tables, b: int)
    ensures KernelProgress(e, e, b, 0)
  {
  }

  lemma KernelStep(e: Tables, e1: Tables, e2: Tables, b: int, i: int)
    requires KernelProgress(e, e1, b, i) && LeafWritten(e1, e2, At(b, i), LargePte(KernelBase(i)))
    ensures KernelProgress(e, e2, b, i + 1)
  {
    forall f, j {:trigger e2(f, j)} | f != b ensures e2(f, j) == e(f, j) {
      assert e2(f, j) == e1(f, j);
    }
  }

  lemma KernelDone(e: Tables, e1: Tables, e2: Tables, a: int, b: int)
    requires a != b && KernelProgress(e, e1, b, 512)
    requires LeafWritten(e1, e2, At(a, 511), ZERO.(p := true, w := true, addr := b))
    ensures forall v | 0 <= v < VPAGES && Idx(v, 4) == 511 :: Walk(e2, a, 4, v) == Mapped(KernelFrame(v), true, false)
    ensures forall v | 0 <= v < VPAGES && Idx(v, 4) != 511 && Avoids(e, a, 4, v, a, b) ::
              Walk(e2, a, 4, v) == Walk(e, a, 4, v)
  {
    hide Idx, KernelFrame, KernelBase;
    assert KernelEntries(e2, b, 512) by {
      forall j | 0 <= j < 512 ensures e2(b, j) == LargePte(KernelBase(j)) { assert e2(b, j) == e1(b, j); }
    }
    forall f, j {:trigger e2(f, j)} | f != b && !(f == a && j == 511) ensures e2(f, j) == e(f, j) {
      assert e2(f, j) == e1(f, j);
    }
    forall v | 0 <= v < VPAGES && Idx(v, 4) == 511 ensures Walk(e2, a, 4, v) == Mapped(KernelFrame(v), true, false) {
      KernelWalk(e2, a, b, v);
    }
    forall v | 0 <= v < VPAGES && Idx(v, 4) != 511 && Avoids(e, a, 4, v, a, b)
      ensures Walk(e2, a, 4, v) == Walk(e, a, 4, v)
    {
      var x := e(a, Idx(v, 4));
      assert e2(a, Idx(v, 4)) == x;
      if x.p { AvoidingWalk(e, e2, x.addr, 3, v, a, b); }
    }
  }

  // The walk agrees with KV2P on the top 2 GB, and gives the offset from the start of PML4 slot 511
  // everywhere else in the slot.
  lemma KernelFrameIsKV2P(va: u64)
    requires va >= TWO64 - 0x80_0000_0000
    ensures Idx(PageOf(va), 4) == 511
    ensures va >= KVA_KERNEL_BEGIN ==> KernelFrame(PageOf(va)) == KV2P(va) / PGSIZE
    ensures va < KVA_KERNEL_BEGIN ==> KernelFrame(PageOf(va)) == (va - (TWO64 - 0x80_0000_0000)) / PGSIZE
  {
    hide Idx, KernelFrame, KV2P;
    var q := va / PGSIZE - (TWO64 - 0x80_0000_0000) / PGSIZE;
    assert 0 <= q < 512 * GB_FRAMES && PageOf(va) == 511 * 134217728 + q;
    SlotIdx(q);
    if va >= KVA_KERNEL_BEGIN { TopFrame(va, q); } else { LowFrame(va, q); }
  }

  lemma TopFrame(va: u64, q: int)
    requires va >= KVA_KERNEL_BEGIN && q == va / PGSIZE - (TWO64 - 0x80_0000_0000) / PGSIZE
    ensures KernelFrame(511 * 134217728 + q) == KV2P(va) / PGSIZE
  {
    assert 0 <= q < 512 * GB_FRAMES;
    SlotIdx(q);
    assert q >= 510 * GB_FRAMES && q / GB_FRAMES >= 510;
    assert KV2P(va) == va - KVA_KERNEL_BEGIN;
  }

  lemma LowFrame(va: u64, q: int)
    requires TWO64 - 0x80_0000_0000 <= va < KVA_KERNEL_BEGIN && q == va / PGSIZE - (TWO64 - 0x80_0000_0000) / PGSIZE
    ensures KernelFrame(511 * 134217728 + q) == (va - (TWO64 - 0x80_0000_0000)) / PGSIZE
  {
    assert 0 <= q < 510 * GB_FRAMES && q / GB_FRAMES < 510;
    SlotIdx(q);
  }

  lemma SlotIdx(q: int)
    requires 0 <= q < 512 * GB_FRAMES
    ensures var v := 511 * 134217728 + q; Idx(v, 4) == 511 && Idx(v, 3) == q / GB_FRAMES && v % GB_FRAMES == q % GB_FRAMES
  {
    var v := 511 * 134217728 + q;
    assert 134217728 == 512 * GB_FRAMES;
    assert v / GB_FRAMES == 511 * 512 + q / GB_FRAMES;
  }
}
