/** PCI enumeration (kernel/devices/pci/HostController.cpp, with the multi-host loop of
    kernel/devices/pci.c): a depth-first search over buses through PCI-to-PCI bridges with a
    visited set, over any bridge topology. */
module Pci {

  const BUSES := 256
  const DEVICES := 32
  const FUNCTIONS := 8
  const DEVICE_NOT_PRESENT := 0xFFFF
  const BRIDGE_DEVICE := 0x06
  const PCI_TO_PCI := 0x04

  datatype Addr = Addr(bus: int, dev: int, fn: int)

  type u8 = x: int | 0 <= x < 256

  // The configuration registers that enumeration reads.
  datatype Regs = Regs(vendor: int, classId: u8, subclass: u8, headerType: u8, secondaryBus: u8)

  type Topology = Addr -> Regs

  predicate Present(r: Regs) { r.vendor != DEVICE_NOT_PRESENT }

  predicate MultiFunction(r: Regs) { r.headerType / 128 == 1 }

  predicate Bridge(r: Regs) { r.classId == BRIDGE_DEVICE && r.subclass == PCI_TO_PCI }

  // A function enumeration must report: function 0 of a present device, and the other present
  // functions of a multi-function device.
  predicate Visible(t: Topology, a: Addr) {
    && 0 <= a.bus < BUSES && 0 <= a.dev < DEVICES && 0 <= a.fn < FUNCTIONS
    && Present(t(a.(fn := 0)))
    && (a.fn == 0 || (MultiFunction(t(a.(fn := 0))) && Present(t(a))))
  }

  predicate IsBus(b: int) { 0 <= b < BUSES }

  // ---- reachable buses ----

  ghost predicate Leads(t: Topology, a: Addr, y: int) {
    Visible(t, a) && Bridge(t(a)) && t(a).secondaryBus == y
  }

  // A visible bridge on bus x leads to bus y.
  ghost predicate Edge(t: Topology, x: int, y: int) {
    exists a: Addr :: a.bus == x && Leads(t, a, y)
  }

  ghost predicate IsPath(t: Topology, path: seq<int>, x: int, y: int) {
    && path != [] && path[0] == x && path[|path| - 1] == y
    && forall i | 0 <= i < |path| - 1 :: Edge(t, path[i], path[i + 1])
  }

  ghost predicate Reach(t: Topology, x: int, y: int) {
    exists path :: IsPath(t, path, x, y)
  }

  lemma ReachSelf(t: Topology, x: int)
    ensures Reach(t, x, x)
  {
    assert IsPath(t, [x], x, x);
  }

  lemma ReachStep(t: Topology, x: int, y: int, z: int)
    requires Edge(t, x, y) && Reach(t, y, z)
    ensures Reach(t, x, z)
  {
    var path :| IsPath(t, path, y, z);
    var path' := [x] + path;
    forall i | 0 <= i < |path'| - 1 ensures Edge(t, path'[i], path'[i + 1]) {
      if i > 0 { assert path'[i] == path[i - 1] && path'[i + 1] == path[i]; }
    }
    assert IsPath(t, path', x, z);
  }

  // Every edge that leaves a bus of s ends in v.
  ghost predicate ClosedInto(t: Topology, s: set<int>, v: set<int>) {
    forall x, y | x in s && Edge(t, x, y) :: y in v
  }

  lemma {:induction false} ClosedReach(t: Topology, v: set<int>, path: seq<int>, x: int, y: int)
    requires ClosedInto(t, v, v) && x in v && IsPath(t, path, x, y)
    ensures y in v
    decreases |path|
  {
    if |path| > 1 {
      assert Edge(t, path[0], path[1]);
      var rest := path[1..];
      forall i | 0 <= i < |rest| - 1 ensures Edge(t, rest[i], rest[i + 1]) {
        assert rest[i] == path[i + 1] && rest[i + 1] == path[i + 2];
      }
      ClosedReach(t, v, rest, path[1], y);
    }
  }

  // ---- lists of functions ----

  ghost function FuncsOn(t: Topology, buses: set<int>): set<Addr> {
    set b, d, f | b in buses && 0 <= d < DEVICES && 0 <= f < FUNCTIONS && Visible(t, Addr(b, d, f)) :: Addr(b, d, f)
  }

  // Visible functions of bus b in devices [lo, hi).
  ghost function FuncsOfDevices(t: Topology, b: int, lo: int, hi: int): set<Addr> {
    set d, f | lo <= d < hi && 0 <= f < FUNCTIONS && Visible(t, Addr(b, d, f)) :: Addr(b, d, f)
  }

  // Visible functions of device d of bus b with numbers in [lo, hi).
  ghost function FuncsOf(t: Topology, b: int, d: int, lo: int, hi: int): set<Addr> {
    set f | lo <= f < hi && Visible(t, Addr(b, d, f)) :: Addr(b, d, f)
  }

  // out lists the elements of s, each exactly once.
  ghost predicate ListsOnce(out: seq<Addr>, s: set<Addr>) {
    && (forall a :: a in out <==> a in s)
    && (forall i, j | 0 <= i < j < |out| :: out[i] != out[j])
  }

  lemma ListsConcat(x: seq<Addr>, s: set<Addr>, y: seq<Addr>, r: set<Addr>)
    requires ListsOnce(x, s) && ListsOnce(y, r) && s !! r
    ensures ListsOnce(x + y, s + r)
  {
    forall i, j | 0 <= i < j < |x + y| ensures (x + y)[i] != (x + y)[j] {
      if i < |x| <= j {
        assert x[i] in x && y[j - |x|] in y;
      }
    }
  }

  // What a visit adds: newly visited buses, closed into what is visited, all reachable from bus b.
  ghost predicate Explored(t: Topology, b: int, before: set<int>, after: set<int>) {
    && before <= after
    && ClosedInto(t, after - before, after)
    && (forall x | x in after && x !in before :: Reach(t, b, x))
  }

  lemma ExploredTrans(t: Topology, b: int, v: set<int>, v1: set<int>, v2: set<int>)
    requires Explored(t, b, v, v1) && Explored(t, b, v1, v2)
    ensures Explored(t, b, v, v2)
  {
  }

  lemma FuncsOnUnion(t: Topology, a: set<int>, b: set<int>)
    ensures FuncsOn(t, a + b) == FuncsOn(t, a) + FuncsOn(t, b)
  {
  }

  class HostController {
    const topo: Topology
    const enumerated: array<bool>
    ghost var probed: set<int>  // the bus numbers the visited set has been indexed with

    constructor (topo: Topology)
      ensures this.topo == topo && fresh(enumerated) && Valid() && Visited() == {}
    {
      this.topo := topo;
      enumerated := new bool[BUSES](_ => false);
      probed := {};
    }

    ghost predicate Valid()
      reads this, enumerated
    {
      enumerated.Length == BUSES && probed == Visited()
    }

    ghost function Visited(): set<int>
      requires enumerated.Length == BUSES
      reads enumerated
    {
      set b | 0 <= b < BUSES && enumerated[b]
    }

    ghost function Unvisited(): set<int>
      requires enumerated.Length == BUSES
      reads enumerated
    {
      (set b | 0 <= b < BUSES && IsBus(b)) - Visited()
    }

    method EnumerateFunction(bus: int, dev: int, fn: int) returns (out: seq<Addr>)
      requires Valid() && Visible(topo, Addr(bus, dev, fn)) && bus in Visited()
      modifies enumerated, this`probed
      ensures Valid()
      ensures Explored(topo, bus, old(Visited()), Visited())
      ensures forall y | Leads(topo, Addr(bus, dev, fn), y) :: y in Visited()
      ensures ListsOnce(out, {Addr(bus, dev, fn)} + FuncsOn(topo, Visited() - old(Visited())))
      decreases Unvisited(), 1
    {
      hide ListsOnce, Explored, FuncsOn, Visible, Bridge, Edge;
      ghost var v, a := Visited(), Addr(bus, dev, fn);
      out := [Addr(bus, dev, fn)];
      ListsSingle(a);
      if Bridge(topo(Addr(bus, dev, fn))) {
        var below := EnumeratePciBus(topo(Addr(bus, dev, fn)).secondaryBus);
        ExploredThrough(topo, a, v, Visited());
        ListsFunction(topo, a, v, Visited(), below);
        out := out + below;
      } else {
        ExploredNothing(topo, bus, v);
        FuncsOnNothing(topo, v, Visited());
        assert {a} + FuncsOn(topo, Visited() - v) == {a};
      }
    }

    method EnumerateDevice(bus: int, dev: int) returns (out: seq<Addr>)
      requires Valid() && 0 <= bus < BUSES && 0 <= dev < DEVICES && bus in Visited()
      modifies enumerated, this`probed
      ensures Valid()
      ensures Explored(topo, bus, old(Visited()), Visited())
      ensures forall f, y | Leads(topo, Addr(bus, dev, f), y) :: y in Visited()
      ensures ListsOnce(out, FuncsOf(topo, bus, dev, 0, FUNCTIONS) + FuncsOn(topo, Visited() - old(Visited())))
      ensures forall f :: Addr(bus, dev, f) in out <==> ByteListed(topo, bus, dev, f)
      decreases Unvisited(), 2
    {
      hide ListsOnce, Explored, FuncsOn, FuncsOf, Leads, Present, MultiFunction, Reach, Edge, ByteListed;
      ghost var v := Visited();
      ExploredNothing(topo, bus, v);
      if !Present(topo(Addr(bus, dev, 0))) {
        NoFunctions(topo, bus, dev, v);
        DeviceByBytes(topo, bus, dev, v, v, []);
        return [];
      }
      OneFunction(topo, bus, dev);
      out := EnumerateFunction(bus, dev, 0);
      ghost var first := Visited();
      FirstFunction(topo, bus, dev);
      ExploredGrows(topo, bus, v, first);
      if MultiFunction(topo(Addr(bus, dev, 0))) {
        var fn := 1;
        while fn < FUNCTIONS
          invariant Valid() && 1 <= fn <= FUNCTIONS && v <= Visited()
          invariant Explored(topo, bus, v, Visited())
          invariant FollowedUpTo(topo, bus, dev, fn, Visited())
          invariant ListsOnce(out, FuncsOf(topo, bus, dev, 0, fn) + FuncsOn(topo, Visited() - v))
        {
          ghost var v1 := Visited();
          if Present(topo(Addr(bus, dev, fn))) {
            VisibleFunction(topo, bus, dev, fn);
            var more := EnumerateFunction(bus, dev, fn);
            ExploredGrows(topo, bus, v1, Visited());
            ExploredTrans(topo, bus, v, v1, Visited());
            ListsNextFunction(topo, bus, dev, fn, v, v1, Visited(), out, more);
            out := out + more;
          } else {
            HiddenFunction(topo, bus, dev, fn, v1);
          }
          fn := fn + 1;
        }
        FollowedAll(topo, bus, dev, Visited());
      } else {
        SingleFunction(topo, bus, dev, Visited());
      }
      DeviceByBytes(topo, bus, dev, v, Visited(), out);
    }

    method EnumeratePciBus(bus: int) returns (out: seq<Addr>)
      requires Valid() && 0 <= bus < BUSES
      modifies enumerated, this`probed
      ensures Valid()
      ensures Explored(topo, bus, old(Visited()), Visited()) && bus in Visited()
      ensures ListsOnce(out, FuncsOn(topo, Visited() - old(Visited())))
      decreases Unvisited(), 0
    {
      hide ListsOnce, Explored, FuncsOn, FuncsOfDevices, Reach, Edge, Leads;
      ghost var v := Visited();
      ExploredNothing(topo, bus, v);
      probed := probed + {bus};
      if enumerated[bus] {
        FuncsOnNothing(topo, v, v);
        ListsNone();
        return [];
      }
      enumerated[bus] := true;
      ghost var v1 := Visited();
      assert v1 == v + {bus};
      out := [];
      var dev := 0;
      ExploredNothing(topo, bus, v1);
      BusStart(topo, bus, v1);
      while dev < DEVICES
        invariant Valid() && 0 <= dev <= DEVICES && v1 <= Visited()
        invariant Explored(topo, bus, v1, Visited())
        invariant BusFollowedUpTo(topo, bus, dev, Visited())
        invariant ListsOnce(out, FuncsOfDevices(topo, bus, 0, dev) + FuncsOn(topo, Visited() - v1))
      {
        ghost var v2 := Visited();
        var more := EnumerateDevice(bus, dev);
        ExploredGrows(topo, bus, v2, Visited());
        ExploredTrans(topo, bus, v1, v2, Visited());
        ListsNextDevice(topo, bus, dev, v1, v2, Visited(), out, more);
        out := out + more;
        dev := dev + 1;
      }
      BusDone(topo, bus, v, Visited());
    }

    // Buses the search starts from: those of all host bridges at (0, 0, x), or bus 0 alone.
    static ghost function Starts(t: Topology): set<int> {
      if MultiFunction(t(Addr(0, 0, 0))) then {0, 1, 2, 3, 4, 5, 6, 7} else {0}
    }

    method AttachedDevices() returns (out: seq<Addr>)
      requires Valid() && Visited() == {}
      modifies enumerated, this`probed
      ensures Valid()
      ensures forall a :: a in out <==> Visible(topo, a) && ReachFrom(topo, Starts(topo), a.bus)
      ensures forall i, j | 0 <= i < j < |out| :: out[i] != out[j]
      ensures ListsByBytes(topo, out)
      ensures forall b :: b in probed <==> ReachFrom(topo, Starts(topo), b)
      ensures FitsCArray(probed) <==> forall y | ReachFrom(topo, Starts(topo), y) :: y < 8
    {
      hide ListsOnce, Explored, FuncsOn, Reach, Edge, Searched, ReachFrom, ListsByBytes;
      ghost var starts := Starts(topo);
      SearchedNothing(topo, starts);
      if !MultiFunction(topo(Addr(0, 0, 0))) {
        out := EnumeratePciBus(0);
        SearchedOneMore(topo, starts, 0, {}, Visited(), [], out);
        assert [] + out == out;
      } else {
        out := [];
        var bus := 0;
        while bus < FUNCTIONS
          invariant Valid() && 0 <= bus <= FUNCTIONS && (forall x | 0 <= x < bus :: x in Visited())
          invariant Searched(topo, starts, Visited(), out)
        {
          ghost var v := Visited();
          var more := EnumeratePciBus(bus);
          ExploredGrows(topo, bus, v, Visited());
          SearchedOneMore(topo, starts, bus, v, Visited(), out, more);
          out := out + more;
          bus := bus + 1;
        }
      }
      SearchedAll(topo, starts, Visited(), out);
      AttachedByBytes(topo, out);
    }

    // attached_devices as written: with several host bridges no bus is enumerated.
    method AttachedDevicesAsWritten() returns (out: seq<Addr>)
      requires Valid() && Visited() == {}
      modifies enumerated, this`probed
      ensures ListsAttached(topo, out) <==>
              topo(Addr(0, 0, 0)).headerType < 128 || forall a :: !Attached(topo, a)
    {
      hide Searched, ReachFrom;
      out := [];
      if !MultiFunction(topo(Addr(0, 0, 0))) {
        out := AttachedDevices();
      } else {
        // the loop over the host bridges only prints
        assert forall a :: Attached(topo, a) ==> a !in out;
      }
    }
  }

  const C_ARRAY := 8

  // Every bus number indexes the visited array of pci.c inside its 8 entries.
  ghost predicate FitsCArray(buses: set<int>) {
    forall b | b in buses :: b < C_ARRAY
  }

  // A function the enumeration is for.
  ghost predicate Attached(t: Topology, a: Addr) {
    Visible(t, a) && ReachFrom(t, HostController.Starts(t), a.bus)
  }

  ghost predicate ListsAttached(t: Topology, out: seq<Addr>) {
    && (forall a :: a in out <==> Attached(t, a))
    && (forall i, j | 0 <= i < j < |out| :: out[i] != out[j])
  }

  // ---- what the list holds, in register values ----

  // Function f of a device is listed with it: function 0 of a device that answers, and the others that
  // answer if the top bit of the header type of function 0 is set.
  predicate ByteListed(t: Topology, bus: int, dev: int, f: int) {
    && 0 <= f < 8 && t(Addr(bus, dev, 0)).vendor != 0xFFFF
    && (f == 0 || (t(Addr(bus, dev, 0)).headerType >= 128 && t(Addr(bus, dev, f)).vendor != 0xFFFF))
  }

  // Every function of bus b is listed.
  ghost predicate BusListed(t: Topology, out: seq<Addr>, b: int) {
    forall d, f :: Addr(b, d, f) in out <==> 0 <= d < 32 && ByteListed(t, b, d, f)
  }

  // Bus b is behind a listed bridge.
  ghost predicate BehindListed(t: Topology, out: seq<Addr>, b: int) {
    exists a :: a in out && t(a).classId == 6 && t(a).subclass == 4 && t(a).secondaryBus == b
  }

  predicate StartBus(t: Topology, b: int) {
    b == 0 || (1 <= b < 8 && t(Addr(0, 0, 0)).headerType >= 128)
  }

  // The buses searched from are listed, and those behind listed bridges; no other bus has a listed
  // function, and a listed bus is listed whole.
  ghost predicate ListsByBytes(t: Topology, out: seq<Addr>) {
    && (forall b | StartBus(t, b) || BehindListed(t, out, b) :: BusListed(t, out, b))
    && (forall a | a in out :: (StartBus(t, a.bus) || BehindListed(t, out, a.bus)) && BusListed(t, out, a.bus))
  }

  lemma VisibleByBytes(t: Topology, b: int, d: int, f: int)
    ensures Visible(t, Addr(b, d, f)) <==> 0 <= b < 256 && 0 <= d < 32 && ByteListed(t, b, d, f)
  {
  }

  lemma BridgeByBytes(t: Topology, a: Addr, y: int)
    ensures Leads(t, a, y) <==> Visible(t, a) && t(a).classId == 6 && t(a).subclass == 4 && t(a).secondaryBus == y
  {
  }

  lemma StartsByBytes(t: Topology, b: int)
    ensures b in HostController.Starts(t) <==> StartBus(t, b)
  {
  }

  lemma DeviceByBytes(t: Topology, bus: int, dev: int, v: set<int>, v': set<int>, out: seq<Addr>)
    requires 0 <= bus < BUSES && 0 <= dev < DEVICES && bus in v
    requires ListsOnce(out, FuncsOf(t, bus, dev, 0, FUNCTIONS) + FuncsOn(t, v' - v))
    ensures forall f :: Addr(bus, dev, f) in out <==> ByteListed(t, bus, dev, f)
  {
    hide ByteListed, Visible;
    forall f ensures Addr(bus, dev, f) in out <==> ByteListed(t, bus, dev, f) {
      VisibleByBytes(t, bus, dev, f);
      FunctionRange(t, bus, dev, f);
    }
  }

  lemma FunctionRange(t: Topology, bus: int, dev: int, f: int)
    ensures ByteListed(t, bus, dev, f) ==> 0 <= f < FUNCTIONS
  {
  }

  // A bus reached is listed whole.
  lemma ReachedIsListed(t: Topology, out: seq<Addr>, b: int)
    requires (forall a :: a in out <==> Attached(t, a)) && ReachFrom(t, HostController.Starts(t), b) && 0 <= b < 256
    ensures BusListed(t, out, b)
  {
    hide ReachFrom, ByteListed, Visible;
    forall d, f ensures Addr(b, d, f) in out <==> 0 <= d < 32 && ByteListed(t, b, d, f) {
      VisibleByBytes(t, b, d, f);
    }
  }

  lemma AttachedByBytes(t: Topology, out: seq<Addr>)
    requires forall a :: a in out <==> Attached(t, a)
    ensures ListsByBytes(t, out)
  {
    hide Visible, BusListed, StartBus, BehindListed, ReachFrom, HostController.Starts;
    forall b | StartBus(t, b) || BehindListed(t, out, b) ensures BusListed(t, out, b) {
      if StartBus(t, b) { StartReached(t, b); } else { BehindReached(t, out, b); }
      ReachedIsListed(t, out, b);
    }
    forall a | a in out ensures (StartBus(t, a.bus) || BehindListed(t, out, a.bus)) && BusListed(t, out, a.bus) {
      ReachedFrom(t, out, a.bus);
      VisibleByBytes(t, a.bus, a.dev, a.fn);
      ReachedIsListed(t, out, a.bus);
    }
  }

  lemma StartReached(t: Topology, b: int)
    requires StartBus(t, b)
    ensures 0 <= b < 256 && ReachFrom(t, HostController.Starts(t), b)
  {
    hide HostController.Starts;
    StartsByBytes(t, b);
    ReachSelf(t, b);
  }

  lemma BehindReached(t: Topology, out: seq<Addr>, b: int)
    requires (forall a :: a in out <==> Attached(t, a)) && BehindListed(t, out, b)
    ensures 0 <= b < 256 && ReachFrom(t, HostController.Starts(t), b)
  {
    hide Visible, HostController.Starts, Leads, Reach, Edge;
    var a :| a in out && t(a).classId == 6 && t(a).subclass == 4 && t(a).secondaryBus == b;
    BridgeByBytes(t, a, b);
    EdgeThrough(t, a, b);
    var x :| x in HostController.Starts(t) && Reach(t, x, a.bus);
    ReachOnward(t, x, a.bus, b);
  }

  lemma EdgeThrough(t: Topology, a: Addr, y: int)
    requires Leads(t, a, y)
    ensures Edge(t, a.bus, y)
  {
  }

  lemma ReachOnward(t: Topology, x: int, y: int, z: int)
    requires Reach(t, x, y) && Edge(t, y, z)
    ensures Reach(t, x, z)
  {
    hide Edge;
    var path :| IsPath(t, path, x, y);
    var path' := path + [z];
    forall i | 0 <= i < |path'| - 1 ensures Edge(t, path'[i], path'[i + 1]) {
      if i < |path| - 1 { assert path'[i] == path[i] && path'[i + 1] == path[i + 1]; }
    }
    assert IsPath(t, path', x, z);
  }

  // A bus reached is one to start from, or behind a bridge that is listed.
  lemma ReachedFrom(t: Topology, out: seq<Addr>, b: int)
    requires (forall a :: a in out <==> Attached(t, a)) && ReachFrom(t, HostController.Starts(t), b)
    ensures StartBus(t, b) || BehindListed(t, out, b)
  {
    hide Visible, HostController.Starts, Leads, StartBus;
    var x :| x in HostController.Starts(t) && Reach(t, x, b);
    var path :| IsPath(t, path, x, b);
    StartsByBytes(t, x);
    var n := |path| - 1;
    if n > 0 {
      var before := path[..n];
      forall i | 0 <= i < |before| - 1 ensures Edge(t, before[i], before[i + 1]) {
        assert before[i] == path[i] && before[i + 1] == path[i + 1];
      }
      assert IsPath(t, before, x, path[n - 1]);
      assert Edge(t, path[n - 1], path[n]);
      var a: Addr :| a.bus == path[n - 1] && Leads(t, a, b);
      BridgeByBytes(t, a, b);
      assert Attached(t, a);
    }
  }

  // One bridge on bus 0, to bus 8, and nothing else.
  function BridgeToBus8(a: Addr): Regs {
    if a == Addr(0, 0, 0) then Regs(0x8086, BRIDGE_DEVICE, PCI_TO_PCI, 0x01, 8)
    else Regs(DEVICE_NOT_PRESENT, 0xFF, 0xFF, 0xFF, 0xFF)
  }

  // There pci.c indexes its array past the end.
  lemma BusEightIsReached()
    ensures ReachFrom(BridgeToBus8, HostController.Starts(BridgeToBus8), 8)
  {
    var t: Topology := BridgeToBus8;
    assert Leads(t, Addr(0, 0, 0), 8);
    assert Edge(t, 0, 8);
    ReachSelf(t, 8);
    ReachStep(t, 0, 8, 8);
  }

  // A present multi-function host bridge is itself attached, so the C++ text then lists too little.
  lemma MultiHostIsAttached(t: Topology)
    requires MultiFunction(t(Addr(0, 0, 0))) && Present(t(Addr(0, 0, 0)))
    ensures Attached(t, Addr(0, 0, 0))
  {
    ReachSelf(t, 0);
    assert 0 in HostController.Starts(t);
  }

  // Visited buses hold the targets of the bridges among functions [0, hi) of device d.
  ghost predicate FollowedUpTo(t: Topology, b: int, d: int, hi: int, v: set<int>) {
    forall f, y | 0 <= f < hi && Leads(t, Addr(b, d, f), y) :: y in v
  }

  lemma NoFunctions(t: Topology, b: int, d: int, v: set<int>)
    requires !Present(t(Addr(b, d, 0)))
    ensures ListsOnce([], FuncsOf(t, b, d, 0, FUNCTIONS) + FuncsOn(t, v - v))
    ensures forall f, y | Leads(t, Addr(b, d, f), y) :: y in v
  {
  }

  lemma OneFunction(t: Topology, b: int, d: int)
    requires 0 <= b < BUSES && 0 <= d < DEVICES && Present(t(Addr(b, d, 0)))
    ensures Visible(t, Addr(b, d, 0))
  {
  }

  lemma FirstFunction(t: Topology, b: int, d: int)
    requires Visible(t, Addr(b, d, 0))
    ensures FuncsOf(t, b, d, 0, 1) == {Addr(b, d, 0)}
  {
  }

  lemma VisibleFunction(t: Topology, b: int, d: int, f: int)
    requires Visible(t, Addr(b, d, 0)) && MultiFunction(t(Addr(b, d, 0))) && Present(t(Addr(b, d, f))) && 0 <= f < FUNCTIONS
    ensures Visible(t, Addr(b, d, f))
  {
  }

  lemma HiddenFunction(t: Topology, b: int, d: int, f: int, v: set<int>)
    requires !Present(t(Addr(b, d, f))) && 0 < f && FollowedUpTo(t, b, d, f, v)
    ensures FuncsOf(t, b, d, 0, f + 1) == FuncsOf(t, b, d, 0, f) && FollowedUpTo(t, b, d, f + 1, v)
  {
  }

  lemma FollowedAll(t: Topology, b: int, d: int, v: set<int>)
    requires FollowedUpTo(t, b, d, FUNCTIONS, v)
    ensures forall f, y | Leads(t, Addr(b, d, f), y) :: y in v
  {
  }

  lemma SingleFunction(t: Topology, b: int, d: int, v: set<int>)
    requires !MultiFunction(t(Addr(b, d, 0))) && FollowedUpTo(t, b, d, 1, v)
    ensures FuncsOf(t, b, d, 0, FUNCTIONS) == FuncsOf(t, b, d, 0, 1)
    ensures forall f, y | Leads(t, Addr(b, d, f), y) :: y in v
  {
    forall f | 0 < f < FUNCTIONS ensures !Visible(t, Addr(b, d, f)) {}
  }

  lemma ExploredGrows(t: Topology, b: int, v: set<int>, v': set<int>)
    requires Explored(t, b, v, v')
    ensures v <= v'
  {
  }

  lemma ListsNextFunction(t: Topology, b: int, d: int, f: int, v: set<int>, v1: set<int>, v2: set<int>,
                          out: seq<Addr>, more: seq<Addr>)
    requires b in v && v <= v1 <= v2 && 0 <= f && Visible(t, Addr(b, d, f))
    requires ListsOnce(out, FuncsOf(t, b, d, 0, f) + FuncsOn(t, v1 - v))
    requires ListsOnce(more, {Addr(b, d, f)} + FuncsOn(t, v2 - v1))
    ensures ListsOnce(out + more, FuncsOf(t, b, d, 0, f + 1) + FuncsOn(t, v2 - v))
  {
    hide ListsOnce, Visible;
    ListsConcat(out, FuncsOf(t, b, d, 0, f) + FuncsOn(t, v1 - v), more, {Addr(b, d, f)} + FuncsOn(t, v2 - v1));
    assert FuncsOf(t, b, d, 0, f + 1) == FuncsOf(t, b, d, 0, f) + {Addr(b, d, f)};
    FuncsOnUnion(t, v1 - v, v2 - v1);
    assert v2 - v == (v1 - v) + (v2 - v1);
    assert FuncsOf(t, b, d, 0, f + 1) + FuncsOn(t, v2 - v)
        == (FuncsOf(t, b, d, 0, f) + FuncsOn(t, v1 - v)) + ({Addr(b, d, f)} + FuncsOn(t, v2 - v1));
  }

  ghost predicate ReachFrom(t: Topology, starts: set<int>, y: int) {
    exists x :: x in starts && Reach(t, x, y)
  }

  // The visited buses are closed, reachable from the starts, and out lists their functions.
  ghost predicate Searched(t: Topology, starts: set<int>, v: set<int>, out: seq<Addr>) {
    && ClosedInto(t, v, v) && (forall y | y in v :: ReachFrom(t, starts, y))
    && ListsOnce(out, FuncsOn(t, v))
  }

  lemma SearchedNothing(t: Topology, starts: set<int>)
    ensures Searched(t, starts, {}, [])
  {
  }

  lemma SearchedOneMore(t: Topology, starts: set<int>, b: int, v: set<int>, v': set<int>, out: seq<Addr>, more: seq<Addr>)
    requires Searched(t, starts, v, out) && b in starts && Explored(t, b, v, v')
    requires ListsOnce(more, FuncsOn(t, v' - v))
    ensures Searched(t, starts, v', out + more)
  {
    hide ListsOnce, Reach, Edge;
    assert FuncsOn(t, v) !! FuncsOn(t, v' - v);
    ListsConcat(out, FuncsOn(t, v), more, FuncsOn(t, v' - v));
    FuncsOnUnion(t, v, v' - v);
    assert v' == v + (v' - v);
    forall y | y in v' ensures ReachFrom(t, starts, y) {
      if y !in v { assert Reach(t, b, y); }
    }
  }

  lemma SearchedAll(t: Topology, starts: set<int>, v: set<int>, out: seq<Addr>)
    requires Searched(t, starts, v, out) && starts <= v
    ensures forall a :: a in out <==> Visible(t, a) && ReachFrom(t, starts, a.bus)
    ensures forall i, j | 0 <= i < j < |out| :: out[i] != out[j]
    ensures forall y :: y in v <==> ReachFrom(t, starts, y)
  {
    forall y | ReachFrom(t, starts, y) ensures y in v {
      var x :| x in starts && Reach(t, x, y);
      var path :| IsPath(t, path, x, y);
      ClosedReach(t, v, path, x, y);
    }
    forall a ensures a in FuncsOn(t, v) <==> Visible(t, a) && ReachFrom(t, starts, a.bus) {
      assert a == Addr(a.bus, a.dev, a.fn);
    }
  }

  // Visited buses hold the targets of the bridges in devices [0, hi) of bus b.
  ghost predicate BusFollowedUpTo(t: Topology, b: int, hi: int, v: set<int>) {
    forall d, f, y | 0 <= d < hi && Leads(t, Addr(b, d, f), y) :: y in v
  }

  lemma ListsNone()
    ensures ListsOnce([], {})
  {
  }

  lemma BusStart(t: Topology, b: int, v: set<int>)
    ensures ListsOnce([], FuncsOfDevices(t, b, 0, 0) + FuncsOn(t, v - v))
  {
  }

  lemma ListsNextDevice(t: Topology, b: int, d: int, v: set<int>, v1: set<int>, v2: set<int>,
                        out: seq<Addr>, more: seq<Addr>)
    requires b in v && v <= v1 <= v2 && 0 <= d
    requires ListsOnce(out, FuncsOfDevices(t, b, 0, d) + FuncsOn(t, v1 - v))
    requires ListsOnce(more, FuncsOf(t, b, d, 0, FUNCTIONS) + FuncsOn(t, v2 - v1))
    ensures ListsOnce(out + more, FuncsOfDevices(t, b, 0, d + 1) + FuncsOn(t, v2 - v))
  {
    hide ListsOnce, Visible;
    ListsConcat(out, FuncsOfDevices(t, b, 0, d) + FuncsOn(t, v1 - v),
                more, FuncsOf(t, b, d, 0, FUNCTIONS) + FuncsOn(t, v2 - v1));
    assert FuncsOfDevices(t, b, 0, d + 1) == FuncsOfDevices(t, b, 0, d) + FuncsOf(t, b, d, 0, FUNCTIONS);
    FuncsOnUnion(t, v1 - v, v2 - v1);
    assert v2 - v == (v1 - v) + (v2 - v1);
    assert FuncsOfDevices(t, b, 0, d + 1) + FuncsOn(t, v2 - v)
        == (FuncsOfDevices(t, b, 0, d) + FuncsOn(t, v1 - v)) + (FuncsOf(t, b, d, 0, FUNCTIONS) + FuncsOn(t, v2 - v1));
  }

  // With all devices of bus b enumerated, b itself is closed too.
  lemma BusDone(t: Topology, b: int, v: set<int>, v': set<int>)
    requires b !in v && Explored(t, b, v + {b}, v') && BusFollowedUpTo(t, b, DEVICES, v')
    ensures Explored(t, b, v, v')
    ensures FuncsOfDevices(t, b, 0, DEVICES) + FuncsOn(t, v' - (v + {b})) == FuncsOn(t, v' - v)
  {
    ReachSelf(t, b);
    forall x, y | x in v' - v && Edge(t, x, y) ensures y in v' {
      if x == b {
        var a: Addr :| a.bus == x && Leads(t, a, y);
        assert a == Addr(b, a.dev, a.fn);
      }
    }
    assert v' - v == (v' - (v + {b})) + {b};
    FuncsOnUnion(t, v' - (v + {b}), {b});
    assert FuncsOn(t, {b}) == FuncsOfDevices(t, b, 0, DEVICES);
  }

  lemma ListsSingle(a: Addr)
    ensures ListsOnce([a], {a})
  {
  }

  lemma ExploredNothing(t: Topology, b: int, v: set<int>)
    ensures Explored(t, b, v, v)
  {
  }

  lemma FuncsOnNothing(t: Topology, v: set<int>, v': set<int>)
    requires v' <= v
    ensures FuncsOn(t, v' - v) == {}
  {
  }

  // What was explored from the bus behind bridge a was explored from a's bus.
  lemma ExploredThrough(t: Topology, a: Addr, v: set<int>, v': set<int>)
    requires Visible(t, a) && Bridge(t(a)) && Explored(t, t(a).secondaryBus, v, v')
    ensures Explored(t, a.bus, v, v')
  {
    hide Reach;
    assert Leads(t, a, t(a).secondaryBus);
    assert Edge(t, a.bus, t(a).secondaryBus);
    forall x | x in v' && x !in v ensures Reach(t, a.bus, x) {
      ReachStep(t, a.bus, t(a).secondaryBus, x);
    }
  }

  lemma ListsFunction(t: Topology, a: Addr, v: set<int>, v': set<int>, below: seq<Addr>)
    requires a.bus in v && ListsOnce(below, FuncsOn(t, v' - v))
    ensures ListsOnce([a] + below, {a} + FuncsOn(t, v' - v))
  {
    hide ListsOnce;
    ListsSingle(a);
    ListsConcat([a], {a}, below, FuncsOn(t, v' - v));
  }
}
