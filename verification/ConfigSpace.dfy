/** Configuration-space registers of kernel/devices/pci/Device.hpp and kernel/devices/pci.c: 8-, 16-
    and 32-bit accesses built from 32-bit aligned ones, against a space of bytes. */
module ConfigSpace {

  // A byte register of one device function.
  datatype Reg = Reg(bus: bv32, device: bv32, func: bv32, offset: bv32)

  ghost predicate InSpace(r: Reg) {
    r.bus < 256 && r.device < 32 && r.func < 8 && r.offset < 256
  }

  // The packed address of a function's register 0, and the address of another of its registers.
  function Base(r: Reg): bv32 {
    0x8000_0000 | (r.bus << 16) | (r.device << 11) | (r.func << 8)
  }

  function Plus(base: bv32, offset: bv32): bv32 {
    (base & 0xFFFF_FF00) | ((base + (offset & 0xFC)) & 0xFF)
  }

  function Address(r: Reg): bv32 { Plus(Base(r), r.offset) }

  function Lane(offset: bv32): bv32 { offset & 3 }

  function Pack(bus: bv32, device: bv32, func: bv32, word: bv32): bv32 {
    0x8000_0000 | (bus << 16) | (device << 11) | (func << 8) | word
  }

  function BusOf(a: bv32): bv32 { (a >> 16) & 0xFF }

  function DeviceOf(a: bv32): bv32 { (a >> 11) & 31 }

  function FunctionOf(a: bv32): bv32 { (a >> 8) & 7 }

  function WordOf(a: bv32): bv32 { a & 0xFF }

  function WordPart(offset: bv32): bv32 { offset & 0xFC }

  // The fields of section 3.2.2.3.2 of PCI Local Bus Specification 3.0 can be read back.
  lemma Unpack(bus: bv32, device: bv32, func: bv32, word: bv32)
    requires bus < 256 && device < 32 && func < 8 && word < 256
    ensures var a := Pack(bus, device, func, word);
            BusOf(a) == bus && DeviceOf(a) == device && FunctionOf(a) == func && WordOf(a) == word
  {
  }

  lemma AddressIsPack(bus: bv32, device: bv32, func: bv32, offset: bv32)
    requires bus < 256 && device < 32 && func < 8 && offset < 256
    ensures Address(Reg(bus, device, func, offset)) == Pack(bus, device, func, WordPart(offset)) && WordPart(offset) < 256
  {
  }

  // The bits of an address: enable, seven zeros, bus, device, function, and a word offset.
  lemma AddressBits(r: Reg)
    requires InSpace(r)
    ensures var a := Address(r);
            && a & 0x8000_0000 == 0x8000_0000 && a & 0x7F00_0000 == 0
            && (a >> 16) & 0xFF == r.bus && (a >> 11) & 0x1F == r.device && (a >> 8) & 0x7 == r.func
            && a & 0xFC == r.offset & 0xFC && a & 0x3 == 0
  {
  }

  // Two registers share an address exactly when they are in the same aligned word of one function.
  lemma AddressInjective(r: Reg, s: Reg)
    requires InSpace(r) && InSpace(s)
    ensures Address(r) == Address(s) <==>
            r.bus == s.bus && r.device == s.device && r.func == s.func && WordPart(r.offset) == WordPart(s.offset)
  {
    hide Address, Pack, BusOf, DeviceOf, FunctionOf, WordOf, WordPart;
    AddressIsPack(r.bus, r.device, r.func, r.offset);
    AddressIsPack(s.bus, s.device, s.func, s.offset);
    Unpack(r.bus, r.device, r.func, WordPart(r.offset));
    Unpack(s.bus, s.device, s.func, WordPart(s.offset));
  }

  lemma OffsetParts(o: bv32, p: bv32)
    requires o < 256 && p < 256 && WordPart(o) == WordPart(p)
    ensures o == p <==> Lane(o) == Lane(p)
  {
  }

  lemma SameRegister(r: Reg, s: Reg)
    requires InSpace(r) && InSpace(s) && Address(r) == Address(s)
    ensures r == s <==> Lane(r.offset) == Lane(s.offset)
  {
    hide Address, WordPart, Lane;
    AddressInjective(r, s);
    OffsetParts(r.offset, s.offset);
  }

  // ---- bytes of a word ----

  function ByteOf(word: bv32, lane: bv32): bv32
    requires lane < 4
  {
    (word >> (lane * 8)) & 0xFF
  }

  function Merge(word: bv32, mask: bv32, value: bv32, lane: bv32): bv32
    requires lane < 4
  {
    (word & !(mask << (lane * 8))) | (value << (lane * 8))
  }

  lemma Merge8(word: bv32, value: bv32, lane: bv32, k: bv32)
    requires lane < 4 && k < 4 && value < 0x100
    ensures ByteOf(Merge(word, 0xFF, value, lane), k) == if k == lane then value else ByteOf(word, k)
  {
    hide ByteOf, Merge;
    if lane == 0 { Merge8Lane0(word, value, k); }
    else if lane == 1 { Merge8Lane1(word, value, k); }
    else if lane == 2 { Merge8Lane2(word, value, k); }
    else { Merge8Lane3(word, value, k); }
  }

  lemma Merge8Lane0(word: bv32, value: bv32, k: bv32)
    requires k < 4 && value < 0x100
    ensures ByteOf(Merge(word, 0xFF, value, 0), k) == if k == 0 then value else ByteOf(word, k)
  {
    if k == 0 {
    } else if k == 1 {
    } else if k == 2 {
    } else {
    }
  }

  lemma Merge8Lane1(word: bv32, value: bv32, k: bv32)
    requires k < 4 && value < 0x100
    ensures ByteOf(Merge(word, 0xFF, value, 1), k) == if k == 1 then value else ByteOf(word, k)
  {
    if k == 0 {
    } else if k == 1 {
    } else if k == 2 {
    } else {
    }
  }

  lemma Merge8Lane2(word: bv32, value: bv32, k: bv32)
    requires k < 4 && value < 0x100
    ensures ByteOf(Merge(word, 0xFF, value, 2), k) == if k == 2 then value else ByteOf(word, k)
  {
    if k == 0 {
    } else if k == 1 {
    } else if k == 2 {
    } else {
    }
  }

  lemma Merge8Lane3(word: bv32, value: bv32, k: bv32)
    requires k < 4 && value < 0x100
    ensures ByteOf(Merge(word, 0xFF, value, 3), k) == if k == 3 then value else ByteOf(word, k)
  {
    if k == 0 {
    } else if k == 1 {
    } else if k == 2 {
    } else {
    }
  }

  function Low(value: bv32): bv32 { value & 0xFF }

  function High(value: bv32): bv32 { value >> 8 }

  function Join(low: bv32, high: bv32): bv32 { low | (high << 8) }

  // A 16-bit value in lane 3 loses its upper byte.
  lemma Merge16(word: bv32, value: bv32, lane: bv32, k: bv32)
    requires lane < 4 && k < 4 && value < 0x1_0000
    ensures ByteOf(Merge(word, 0xFFFF, value, lane), k) ==
            if k == lane then Low(value) else if k == lane + 1 then High(value) else ByteOf(word, k)
  {
    hide ByteOf, Merge, Low, High;
    if lane == 0 { Merge16Lane0(word, value, k); }
    else if lane == 1 { Merge16Lane1(word, value, k); }
    else if lane == 2 { Merge16Lane2(word, value, k); }
    else { Merge16Lane3(word, value, k); }
  }

  lemma Merge16Lane0(word: bv32, value: bv32, k: bv32)
    requires k < 4 && value < 0x1_0000
    ensures ByteOf(Merge(word, 0xFFFF, value, 0), k) ==
            if k == 0 then Low(value) else if k == 1 then High(value) else ByteOf(word, k)
  {
    if k == 0 {
    } else if k == 1 {
    } else if k == 2 {
    } else {
    }
  }

  lemma Merge16Lane1(word: bv32, value: bv32, k: bv32)
    requires k < 4 && value < 0x1_0000
    ensures ByteOf(Merge(word, 0xFFFF, value, 1), k) ==
            if k == 1 then Low(value) else if k == 2 then High(value) else ByteOf(word, k)
  {
    if k == 0 {
    } else if k == 1 {
    } else if k == 2 {
    } else {
    }
  }

  lemma Merge16Lane2(word: bv32, value: bv32, k: bv32)
    requires k < 4 && value < 0x1_0000
    ensures ByteOf(Merge(word, 0xFFFF, value, 2), k) ==
            if k == 2 then Low(value) else if k == 3 then High(value) else ByteOf(word, k)
  {
    if k == 0 {
    } else if k == 1 {
    } else if k == 2 {
    } else {
    }
  }

  lemma Merge16Lane3(word: bv32, value: bv32, k: bv32)
    requires k < 4 && value < 0x1_0000
    ensures ByteOf(Merge(word, 0xFFFF, value, 3), k) == if k == 3 then Low(value) else ByteOf(word, k)
  {
    if k == 0 {
    } else if k == 1 {
    } else if k == 2 {
    } else {
    }
  }

  lemma LaneBound(offset: bv32)
    ensures Lane(offset) < 4
  {
  }

  type Space = bv32 -> bv32

  ghost function Byte(space: Space, r: Reg): bv32 {
    LaneBound(r.offset);
    ByteOf(space(Address(r)), Lane(r.offset))
  }

  // The byte at offset o of a function lies in the word that holds it, o modulo 4 bytes up.
  lemma ByteIs(space: Space, r: Reg)
    ensures Byte(space, r) == (space(Address(r)) >> ((r.offset & 3) * 8)) & 0xFF
  {
    LaneBound(r.offset);
  }

  // ---- the three writes and reads, on bytes ----

  function Next(r: Reg): Reg { r.(offset := r.offset + 1) }

  // Same word, next lane: the next register, unless r is the last of its word.
  lemma NextRegister(r: Reg, s: Reg)
    requires InSpace(r) && InSpace(s) && Address(r) == Address(s)
    ensures Lane(s.offset) == Lane(r.offset) + 1 <==> s == Next(r) && Lane(r.offset) != 3
  {
    hide Address;
    AddressInjective(r, s);
    NextOffset(r.offset, s.offset);
  }

  lemma NextOffset(o: bv32, p: bv32)
    requires o < 256 && p < 256 && WordPart(o) == WordPart(p)
    ensures Lane(p) == Lane(o) + 1 <==> p == o + 1 && Lane(o) != 3
  {
  }

  lemma NextInWord(r: Reg)
    requires InSpace(r) && Lane(r.offset) != 3
    ensures InSpace(Next(r)) && Address(Next(r)) == Address(r) && Lane(Next(r).offset) == Lane(r.offset) + 1
  {
    hide Address;
    assert Next(r).offset < 256 && WordPart(Next(r).offset) == WordPart(r.offset);
    AddressInjective(r, Next(r));
  }

  ghost predicate Stored8(now: Space, was: Space, r: Reg, value: bv32) {
    forall s | InSpace(s) :: Byte(now, s) == if s == r then value else Byte(was, s)
  }

  ghost predicate Stored16(now: Space, was: Space, r: Reg, value: bv32) {
    forall s | InSpace(s) :: Byte(now, s) ==
                             if s == r then Low(value)
                             else if s == Next(r) && Lane(r.offset) != 3 then High(value)
                             else Byte(was, s)
  }

  ghost predicate Stored32(now: Space, was: Space, r: Reg, value: bv32) {
    forall s | InSpace(s) :: Byte(now, s) ==
                             if Address(s) == Address(r) then LaneBound(s.offset); ByteOf(value, Lane(s.offset))
                             else Byte(was, s)
  }

  // A read of 16 bits in lane 3 sees one byte.
  ghost function Value16(space: Space, r: Reg): bv32 {
    Join(Byte(space, r), if Lane(r.offset) == 3 then 0 else Byte(space, Next(r)))
  }

  lemma Split16(value: bv32)
    requires value < 0x1_0000
    ensures Join(Low(value), High(value)) == value
    ensures Join(Low(value), 0) == value <==> value < 0x100
  {
  }

  // Reading back a 16-bit write gives the value exactly when it fits in the lanes from r on.
  lemma ReadBack16(now: Space, was: Space, r: Reg, value: bv32)
    requires InSpace(r) && value < 0x1_0000 && Stored16(now, was, r, value)
    ensures Value16(now, r) == value <==> Lane(r.offset) != 3 || value < 0x100
  {
    hide Byte, Lane, Address, Join, Low, High;
    Split16(value);
    if Lane(r.offset) != 3 {
      NextInWord(r);
      assert Next(r).offset != r.offset;
    }
  }

  lemma Parts16(a: bv32, b: bv32)
    requires a < 0x100 && b < 0x100
    ensures Low(Join(a, b)) == a && High(Join(a, b)) == b
  {
  }

  lemma ByteBound(space: Space, r: Reg)
    ensures Byte(space, r) < 0x100
  {
    LaneBound(r.offset);
  }

  // A register access through -> reads and writes back: on plain registers nothing changes.
  lemma WriteBack16(now: Space, was: Space, r: Reg)
    requires InSpace(r) && Stored16(now, was, r, Value16(was, r))
    ensures forall s | InSpace(s) :: Byte(now, s) == Byte(was, s)
  {
    hide Byte, Lane, Address, Join, Low, High;
    ByteBound(was, r);
    ByteBound(was, Next(r));
    Parts16(Byte(was, r), if Lane(r.offset) == 3 then 0 else Byte(was, Next(r)));
  }

  lemma MergeStores16(now: Space, was: Space, r: Reg, value: bv32)
    requires InSpace(r) && value < 0x1_0000 && Lane(r.offset) < 4
    requires now(Address(r)) == Merge(was(Address(r)), 0xFFFF, value, Lane(r.offset))
    requires forall a | a != Address(r) :: now(a) == was(a)
    ensures Stored16(now, was, r, value)
  {
    hide Address, Lane, Merge, ByteOf, Low, High;
    forall s | InSpace(s)
      ensures Byte(now, s) == if s == r then Low(value)
                              else if s == Next(r) && Lane(r.offset) != 3 then High(value)
                              else Byte(was, s)
    {
      LaneBound(s.offset);
      if Lane(r.offset) != 3 { NextInWord(r); }
      if Address(s) == Address(r) {
        SameRegister(r, s);
        NextRegister(r, s);
        Merge16(was(Address(r)), value, Lane(r.offset), Lane(s.offset));
      }
    }
  }

  lemma EvenOffset(o: bv32)
    requires o < 256
    ensures o & 0xFE < 256 && WordPart(o & 0xFE) == WordPart(o) && Lane(o & 0xFE) == o & 2 && o & 2 < 4
  {
  }

  // The configuration mechanism: an address latch and a data window.
  class Ports {
    var latch: bv32
    var space: Space

    method OutAddress(a: bv32)
      modifies this`latch
      ensures latch == a
    {
      latch := a;
    }

    method InData() returns (word: bv32)
      ensures word == space(latch)
    {
      word := space(latch);
    }

    method OutData(word: bv32)
      modifies this`space
      ensures space(latch) == word && forall a | a != latch :: space(a) == old(space)(a)
    {
      var was, at := space, latch;
      space := a => if a == at then word else was(a);
    }

    method Write8(r: Reg, value: bv32)
      requires InSpace(r) && value < 0x100
      modifies this
      ensures Stored8(space, old(space), r, value)
    {
      hide Address, Lane, Merge, ByteOf;
      LaneBound(r.offset);
      OutAddress(Address(r));
      var cur := InData();
      OutData(Merge(cur, 0xFF, value, Lane(r.offset)));
      forall s | InSpace(s) ensures Byte(space, s) == if s == r then value else Byte(old(space), s) {
        LaneBound(s.offset);
        if Address(s) == Address(r) {
          SameRegister(r, s);
          Merge8(cur, value, Lane(r.offset), Lane(s.offset));
        }
      }
    }

    method Write16(r: Reg, value: bv32)
      requires InSpace(r) && value < 0x1_0000
      modifies this
      ensures Stored16(space, old(space), r, value)
    {
      hide Address, Lane, Merge, Stored16;
      LaneBound(r.offset);
      OutAddress(Address(r));
      var cur := InData();
      OutData(Merge(cur, 0xFFFF, value, Lane(r.offset)));
      MergeStores16(space, old(space), r, value);
    }

    // pci.c takes the lane from bit 1 of the offset only: an odd offset is rounded down.
    method PciWrite16(r: Reg, value: bv32)
      requires InSpace(r) && value < 0x1_0000
      modifies this
      ensures Stored16(space, old(space), r.(offset := r.offset & 0xFE), value)
    {
      hide Address, Lane, Merge, Stored16, WordPart;
      EvenOffset(r.offset);
      AddressInjective(r, r.(offset := r.offset & 0xFE));
      OutAddress(Address(r));
      var cur := InData();
      OutData(Merge(cur, 0xFFFF, value, r.offset & 2));
      MergeStores16(space, old(space), r.(offset := r.offset & 0xFE), value);
    }

    method Write32(r: Reg, value: bv32)
      requires InSpace(r)
      modifies this
      ensures Stored32(space, old(space), r, value)
    {
      hide Address, Lane, ByteOf;
      OutAddress(Address(r));
      OutData(value);
    }

    method Read(r: Reg) returns (word: bv32)
      requires InSpace(r)
      modifies this`latch
      ensures Low(word) == Byte(space, r) && Low16(word) == Value16(space, r)
      ensures Lane(r.offset) < 4 && word == Shift(space(Address(r)), Lane(r.offset))
      ensures Lane(r.offset) == 0 ==> word == space(Address(r))
    {
      hide Address, Lane, Shift, Low, Low16, Join, ByteOf;
      LaneBound(r.offset);
      OutAddress(Address(r));
      word := InData();
      Shifted(word, Lane(r.offset));
      if Lane(r.offset) != 3 { NextInWord(r); }
      word := Shift(word, Lane(r.offset));
    }

    // operator-> and the write-back when its temporary dies: reading a register this way changes
    // nothing, except that a 32-bit register off its word boundary is written back shifted.
    method MemberAccess(r: Reg, size: int) returns (value: bv32)
      requires InSpace(r) && (size == 1 || size == 2 || size == 4)
      modifies this
      ensures size == 1 ==> value == Byte(old(space), r)
      ensures size == 2 ==> value == Value16(old(space), r)
      ensures size == 4 ==> Lane(r.offset) < 4 && value == Shift(old(space)(Address(r)), Lane(r.offset))
      ensures SameBytes(space, old(space)) <==> size != 4 || Lane(r.offset) == 0 || old(space)(Address(r)) == 0
    {
      hide Address, Lane, Low, Low16, Join, ByteOf, Shift;
      LaneBound(r.offset);
      value := Read(r);
      Truncated(value);
      if size == 1 {
        value := Low(value);
        Write8(r, value);
      } else if size == 2 {
        value := Low16(value);
        Write16(r, value);
        WriteBack16(space, old(space), r);
      } else {
        Write32(r, value);
        WriteBack32(space, old(space), r);
      }
    }
  }

  ghost predicate SameBytes(now: Space, was: Space) {
    forall s | InSpace(s) :: Byte(now, s) == Byte(was, s)
  }

  // Writing a word back shifted down by its lane gives the same bytes exactly when nothing is
  // shifted or the word is zero.
  lemma WriteBack32(now: Space, was: Space, r: Reg)
    requires InSpace(r) && Lane(r.offset) < 4 && Stored32(now, was, r, Shift(was(Address(r)), Lane(r.offset)))
    ensures SameBytes(now, was) <==> Lane(r.offset) == 0 || was(Address(r)) == 0
  {
    hide Address, Lane, ByteOf, Shift;
    var word, lane := was(Address(r)), Lane(r.offset);
    ShiftFixed(word, lane);
    if SameBytes(now, was) {
      forall k: bv32 | k < 4 ensures ByteOf(Shift(word, lane), k) == ByteOf(word, k) {
        var s := InWord(r, k);
        assert Byte(now, s) == Byte(was, s);
      }
      SameWord(Shift(word, lane), word);
    }
    if lane == 0 || word == 0 {
      forall s | InSpace(s) ensures Byte(now, s) == Byte(was, s) {
        LaneBound(s.offset);
      }
    }
  }

  lemma ShiftFixed(word: bv32, lane: bv32)
    requires lane < 4
    ensures Shift(word, lane) == word <==> lane == 0 || word == 0
  {
    if lane == 1 { assert word >> 8 == word <==> word == 0; }
    else if lane == 2 { assert word >> 16 == word <==> word == 0; }
    else if lane == 3 { assert word >> 24 == word <==> word == 0; }
  }

  // The four bytes determine the word.
  lemma SameWord(a: bv32, b: bv32)
    requires forall k: bv32 | k < 4 :: ByteOf(a, k) == ByteOf(b, k)
    ensures a == b
  {
    assert ByteOf(a, 0) == ByteOf(b, 0) && ByteOf(a, 1) == ByteOf(b, 1);
    assert ByteOf(a, 2) == ByteOf(b, 2) && ByteOf(a, 3) == ByteOf(b, 3);
    FourBytes(a);
    FourBytes(b);
  }

  lemma FourBytes(a: bv32)
    ensures a == ByteOf(a, 0) | (ByteOf(a, 1) << 8) | (ByteOf(a, 2) << 16) | (ByteOf(a, 3) << 24)
  {
  }

  // The register in lane k of the word of r.
  lemma InWord(r: Reg, k: bv32) returns (s: Reg)
    requires InSpace(r) && k < 4
    ensures InSpace(s) && Address(s) == Address(r) && Lane(s.offset) == k
  {
    s := r.(offset := (r.offset & 0xFC) | k);
    LaneOf(r.offset, k);
    AddressInjective(r, s);
  }

  lemma LaneOf(o: bv32, k: bv32)
    requires o < 256 && k < 4
    ensures var p := (o & 0xFC) | k; p < 256 && WordPart(p) == WordPart(o) && Lane(p) == k
  {
  }

  lemma Truncated(word: bv32)
    ensures Low(word) < 0x100 && Low16(word) < 0x1_0000
  {
  }

  function Shift(word: bv32, lane: bv32): bv32
    requires lane < 4
  {
    word >> (lane * 8)
  }

  function Low16(word: bv32): bv32 { word & 0xFFFF }

  lemma Shifted(word: bv32, lane: bv32)
    requires lane < 4
    ensures Low(Shift(word, lane)) == ByteOf(word, lane)
    ensures Low16(Shift(word, lane)) == Join(ByteOf(word, lane), if lane == 3 then 0 else ByteOf(word, lane + 1))
    ensures lane == 0 ==> Shift(word, lane) == word
  {
    hide Low, Low16, Join, Shift, ByteOf;
    if lane == 0 { Shifted0(word); }
    else if lane == 1 { Shifted1(word); }
    else if lane == 2 { Shifted2(word); }
    else { Shifted3(word); }
  }

  lemma LowHalf(x: bv32)
    ensures Low16(x) == Join(x & 0xFF, (x >> 8) & 0xFF)
  {
  }

  lemma ShiftBy0(w: bv32)
    ensures Shift(w, 0) == w && ByteOf(w, 0) == w & 0xFF && ByteOf(w, 1) == (w >> 8) & 0xFF
  {
  }

  lemma Shifted0(w: bv32)
    ensures Low(Shift(w, 0)) == ByteOf(w, 0) && Low16(Shift(w, 0)) == Join(ByteOf(w, 0), ByteOf(w, 1)) && Shift(w, 0) == w
  {
    hide Low16, Join, Shift, ByteOf;
    ShiftBy0(w);
    LowHalf(w);
  }

  lemma ShiftBy1(w: bv32)
    ensures var x := Shift(w, 1); x & 0xFF == ByteOf(w, 1) && (x >> 8) & 0xFF == ByteOf(w, 2)
  {
  }

  lemma Shifted1(w: bv32)
    ensures Low(Shift(w, 1)) == ByteOf(w, 1) && Low16(Shift(w, 1)) == Join(ByteOf(w, 1), ByteOf(w, 2))
  {
    hide Low16, Join, Shift, ByteOf;
    ShiftBy1(w);
    LowHalf(Shift(w, 1));
  }

  lemma ShiftBy2(w: bv32)
    ensures var x := Shift(w, 2); x & 0xFF == ByteOf(w, 2) && (x >> 8) & 0xFF == ByteOf(w, 3)
  {
  }

  lemma Shifted2(w: bv32)
    ensures Low(Shift(w, 2)) == ByteOf(w, 2) && Low16(Shift(w, 2)) == Join(ByteOf(w, 2), ByteOf(w, 3))
  {
    hide Low16, Join, Shift, ByteOf;
    ShiftBy2(w);
    LowHalf(Shift(w, 2));
  }

  lemma ShiftBy3(w: bv32)
    ensures var x := Shift(w, 3); x & 0xFF == ByteOf(w, 3) && (x >> 8) & 0xFF == 0
  {
  }

  lemma Shifted3(w: bv32)
    ensures Low(Shift(w, 3)) == ByteOf(w, 3) && Low16(Shift(w, 3)) == Join(ByteOf(w, 3), 0)
  {
    hide Low16, Join, Shift, ByteOf;
    ShiftBy3(w);
    LowHalf(Shift(w, 3));
  }
}
