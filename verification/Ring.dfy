/** The doubly linked ring of kernel/buffercache.c: links as index fields, refined to the sequence
    of buffers met from the front on. */
module Ring {
  import opened Common

  datatype Link = Link(next: int, prev: int)

  // Neighbours in the ring.
  ghost function Succ(ring: seq<int>, i: int): int
    requires 0 <= i < |ring|
  {
    if i + 1 == |ring| then ring[0] else ring[i + 1]
  }

  ghost function Pred(ring: seq<int>, i: int): int
    requires 0 <= i < |ring|
  {
    if i == 0 then ring[|ring| - 1] else ring[i - 1]
  }

  ghost predicate Distinct(ring: seq<int>, n: int) {
    && (forall i | 0 <= i < |ring| :: 0 <= ring[i] < n)
    && (forall i, j | 0 <= i < j < |ring| :: ring[i] != ring[j])
  }

  ghost predicate LinkedAt(m: seq<Link>, ring: seq<int>, i: int)
    requires 0 <= i < |ring| && Distinct(ring, |m|)
  {
    m[ring[i]].next == Succ(ring, i) && m[ring[i]].prev == Pred(ring, i)
  }

  ghost predicate IsRing(m: seq<Link>, ring: seq<int>) {
    && ring != [] && Distinct(ring, |m|)
    && forall i {:trigger LinkedAt(m, ring, i)} | 0 <= i < |ring| :: LinkedAt(m, ring, i)
  }

  lemma WithoutAll(ring: seq<int>, k: int, n: int)
    requires Distinct(ring, n) && 0 <= k < |ring|
    ensures Distinct(Without(ring, k), n) && ring[k] !in Without(ring, k)
    ensures Distinct([ring[k]] + Without(ring, k), n)
    ensures forall x | x in ring :: x in [ring[k]] + Without(ring, k)
    ensures k == 0 ==> [ring[k]] + Without(ring, k) == ring
  {
    assert ring == ring[..k] + [ring[k]] + ring[k + 1..];
  }

  // ---- removing the element at position k ----

  ghost function Unlink(m: seq<Link>, b: int): seq<Link>
    requires 0 <= b < |m| && 0 <= m[b].next < |m| && 0 <= m[b].prev < |m|
  {
    var m1 := m[m[b].prev := m[m[b].prev].(next := m[b].next)];
    m1[m[b].next := m1[m[b].next].(prev := m[b].prev)]
  }

  lemma WithoutNeighbours(ring: seq<int>, k: int, j: int)
    requires 0 <= k < |ring| && 0 <= j < |ring| && j != k
    ensures var r, i := Without(ring, k), if j < k then j else j - 1;
            && 0 <= i < |r| && r[i] == ring[j]
            && Succ(r, i) == (if j + 1 == k || (j + 1 == |ring| && k == 0) then Succ(ring, k) else Succ(ring, j))
            && Pred(r, i) == (if (j == k + 1 || (j == 0 && k == |ring| - 1)) then Pred(ring, k) else Pred(ring, j))
  {
  }

  lemma UnlinkAt(m: seq<Link>, ring: seq<int>, k: int, j: int)
    requires IsRing(m, ring) && 0 <= k < |ring| && 0 <= j < |ring| && j != k
    requires Distinct(Without(ring, k), |m|)
    ensures LinkedAt(m, ring, k) && LinkedAt(m, ring, j)
    ensures LinkedAt(Unlink(m, ring[k]), Without(ring, k), if j < k then j else j - 1)
  {
    assert LinkedAt(m, ring, k) && LinkedAt(m, ring, j);
    WithoutNeighbours(ring, k, j);
  }

  lemma UnlinkKeepsRing(m: seq<Link>, ring: seq<int>, k: int)
    requires IsRing(m, ring) && 0 <= k < |ring| && |ring| > 1
    ensures LinkedAt(m, ring, k)
    ensures IsRing(Unlink(m, ring[k]), Without(ring, k))
  {
    assert LinkedAt(m, ring, k);
    var m', r := Unlink(m, ring[k]), Without(ring, k);
    forall i {:trigger LinkedAt(m', r, i)} | 0 <= i < |r| ensures LinkedAt(m', r, i) {
      UnlinkAt(m, ring, k, if i < k then i else i + 1);
    }
  }

  // ---- inserting in front ----

  ghost function PushFront(m: seq<Link>, front: int, b: int): seq<Link>
    requires 0 <= b < |m| && 0 <= front < |m| && 0 <= m[front].prev < |m|
  {
    var last := m[front].prev;
    var m1 := m[b := Link(front, last)];
    var m2 := m1[last := m1[last].(next := b)];
    m2[front := m2[front].(prev := b)]
  }

  lemma PushFrontKeepsRing(m: seq<Link>, ring: seq<int>, b: int)
    requires IsRing(m, ring) && 0 <= b < |m| && b !in ring
    ensures LinkedAt(m, ring, 0)
    ensures IsRing(PushFront(m, ring[0], b), [b] + ring)
  {
    assert LinkedAt(m, ring, 0);
    var m', r := PushFront(m, ring[0], b), [b] + ring;
    forall i {:trigger LinkedAt(m', r, i)} | 0 <= i < |r| ensures LinkedAt(m', r, i) {
      if i > 0 {
        assert LinkedAt(m, ring, i - 1);
        assert r[i] == ring[i - 1] && ring[i - 1] in ring;
      }
    }
  }

  // ---- as written ----

  // push_front as written links b only to the old front.
  function PushAsWritten(m: seq<Link>, front: int, b: int): (m': seq<Link>)
    requires 0 <= b < |m| && 0 <= front < |m|
    ensures |m'| == |m|
  {
    var m1 := m[b := Link(m[front].next, front)];
    m1[front := m1[front].(prev := b)]
  }

  // Whatever the ring, its last element still points at the old front, so the result is not a ring
  // that starts with b.
  lemma PushFrontAsWrittenBreaks(m: seq<Link>, ring: seq<int>, b: int)
    requires IsRing(m, ring) && 0 <= b < |m| && b !in ring
    ensures var m' := PushAsWritten(m, ring[0], b);
            !LinkedAt(m', [b] + ring, |ring|) && !IsRing(m', [b] + ring)
  {
    var n := |ring|;
    assert LinkedAt(m, ring, n - 1);
    var front, r := ring[0], [b] + ring;
    var m' := PushAsWritten(m, front, b);
    assert r[n] == ring[n - 1] && ring[n - 1] in ring && front in ring;
    assert Succ(r, n) == b && Succ(ring, n - 1) == front;
    assert m'[ring[n - 1]].next == m[ring[n - 1]].next == front;
  }

  const NULL := -1

  ghost predicate AllNull(m: seq<Link>) {
    forall i | 0 <= i < |m| :: m[i].next == NULL
  }

  // The links after pushing the elements of bs one after the other.
  ghost function PushAll(m: seq<Link>, front: int, bs: seq<int>): seq<Link>
    requires 0 <= front < |m| && forall i | 0 <= i < |bs| :: 0 <= bs[i] < |m|
    decreases |bs|
  {
    if bs == [] then m else PushAll(PushAsWritten(m, front, bs[0]), bs[0], bs[1..])
  }

  // init_buffer_cache as written: from zeroed links every next stays null, so the first step of any
  // scan leaves the buffers.
  lemma {:induction false} InitAsWrittenStaysNull(m: seq<Link>, front: int, bs: seq<int>)
    requires AllNull(m) && 0 <= front < |m| && forall i | 0 <= i < |bs| :: 0 <= bs[i] < |m|
    ensures AllNull(PushAll(m, front, bs))
    decreases |bs|
  {
    if bs != [] { InitAsWrittenStaysNull(PushAsWritten(m, front, bs[0]), bs[0], bs[1..]); }
  }

  // Removing the front and pushing it again as written, as the release of the front buffer does:
  // nothing points at it any more, so a scan that starts there never comes back to it.
  lemma ReleaseFrontAsWrittenBreaks(m: seq<Link>, ring: seq<int>)
    requires IsRing(m, ring) && |ring| > 1
    ensures LinkedAt(m, ring, 0)
    ensures var m' := PushAsWritten(Unlink(m, ring[0]), ring[0], ring[0]);
            forall i | 0 <= i < |ring| :: m'[ring[i]].next != ring[0]
  {
    assert LinkedAt(m, ring, 0);
    var m' := PushAsWritten(Unlink(m, ring[0]), ring[0], ring[0]);
    forall i | 0 <= i < |ring| ensures m'[ring[i]].next != ring[0] {
      assert LinkedAt(m, ring, i);
      if i + 1 < |ring| { assert ring[i + 1] != ring[0]; }
    }
  }

  // ---- walking all the way round from position s ----

  ghost function Rotate(ring: seq<int>, s: int): (r: seq<int>)
    requires 0 <= s < |ring|
    ensures |r| == |ring| && r[0] == ring[s]
  {
    ring[s..] + ring[..s]
  }

  ghost function Unrotate(n: int, s: int, i: int): int {
    if i < n - s then s + i else i - (n - s)
  }

  lemma RotateAt(ring: seq<int>, s: int, i: int)
    requires 0 <= s < |ring| && 0 <= i < |ring|
    ensures 0 <= Unrotate(|ring|, s, i) < |ring|
    ensures Rotate(ring, s)[i] == ring[Unrotate(|ring|, s, i)]
  {
  }

  lemma RotateLinked(m: seq<Link>, ring: seq<int>, s: int, i: int)
    requires IsRing(m, ring) && 0 <= s < |ring| && 0 <= i < |ring|
    ensures LinkedAt(m, Rotate(ring, s), i)
  {
    hide Rotate, IsRing;
    var r, n := Rotate(ring, s), |ring|;
    var j := Unrotate(n, s, i);
    assert LinkedAt(m, ring, j) by { RingAt(m, ring, j); }
    RotateAt(ring, s, i);
    RotateAt(ring, s, if i + 1 < n then i + 1 else 0);
    RotateAt(ring, s, if i > 0 then i - 1 else n - 1);
  }

  lemma RingAt(m: seq<Link>, ring: seq<int>, i: int)
    requires IsRing(m, ring) && 0 <= i < |ring|
    ensures Distinct(ring, |m|) && LinkedAt(m, ring, i)
  {
  }

  lemma RotateDistinct(ring: seq<int>, s: int, n: int)
    requires Distinct(ring, n) && 0 <= s < |ring|
    ensures Distinct(Rotate(ring, s), n)
    ensures forall x :: x in ring ==> x in Rotate(ring, s)
  {
    assert ring == ring[..s] + ring[s..];
  }

  lemma RotateKeepsRing(m: seq<Link>, ring: seq<int>, s: int)
    requires IsRing(m, ring) && 0 <= s < |ring|
    ensures IsRing(m, Rotate(ring, s))
  {
    var r := Rotate(ring, s);
    RotateDistinct(ring, s, |m|);
    forall i {:trigger LinkedAt(m, r, i)} | 0 <= i < |r| ensures LinkedAt(m, r, i) {
      RotateLinked(m, ring, s, i);
    }
  }
}
