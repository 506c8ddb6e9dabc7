/** The doubly linked list of kernel/libcppk/list.hpp as a sequence open at both ends. */
module List {

  class Node<T> {
    var data: T
    var prev: Node?<T>
    var next: Node?<T>

    constructor (value: T)
      ensures data == value && prev == null && next == null
    {
      data, prev, next := value, null, null;
    }
  }

  // The node at position i, null beyond either end.
  ghost function At<T>(nodes: seq<Node<T>>, i: int): Node?<T> {
    if 0 <= i < |nodes| then nodes[i] else null
  }

  ghost predicate Chained<T>(nodes: seq<Node<T>>, i: int)
    requires 0 <= i < |nodes|
    reads nodes[i]
  {
    nodes[i].next == At(nodes, i + 1) && nodes[i].prev == At(nodes, i - 1)
  }

  ghost function Data<T>(nodes: seq<Node<T>>): (s: seq<T>)
    reads nodes
    ensures |s| == |nodes| && forall i | 0 <= i < |nodes| :: s[i] == nodes[i].data
  {
    if nodes == [] then [] else [nodes[0].data] + Data(nodes[1..])
  }

  class Deque<T> {
    var head: Node?<T>
    var tail: Node?<T>
    var size: int
    ghost var nodes: seq<Node<T>>
    ghost var owned: set<Node<T>>  // handed out by the allocator and not yet taken back

    ghost predicate Valid()
      reads this, nodes
    {
      && head == At(nodes, 0) && tail == At(nodes, |nodes| - 1) && size == |nodes|
      && (forall i {:trigger Chained(nodes, i)} | 0 <= i < |nodes| :: Chained(nodes, i))
      && (forall i, j | 0 <= i < j < |nodes| :: nodes[i] != nodes[j])
      && (forall n | n in owned :: n in nodes) && (forall n | n in nodes :: n in owned)
    }

    constructor ()
      ensures Valid() && nodes == []
    {
      head, tail, size, nodes, owned := null, null, 0, [], {};
    }

    method PushFront(value: T)
      requires Valid()
      modifies this, nodes
      ensures Valid() && |nodes| > 0 && fresh(nodes[0]) && nodes[1..] == old(nodes)
      ensures Data(nodes) == [value] + old(Data(nodes))
    {
      hide Data;
      var node := new Node(value);
      node.next := head;
      if head != null { head.prev := node; }
      head := node;
      if tail == null { tail := node; }
      size := size + 1;
      nodes := [node] + nodes;
      owned := owned + {node};
      forall i {:trigger Chained(nodes, i)} | 0 <= i < |nodes| ensures Chained(nodes, i) {
        if i > 0 { assert old(Chained(nodes, i - 1)); }
      }
    }

    method PushBack(value: T)
      requires Valid()
      modifies this, nodes
      ensures Valid() && |nodes| > 0 && fresh(nodes[|nodes| - 1]) && nodes[..|nodes| - 1] == old(nodes)
      ensures Data(nodes) == old(Data(nodes)) + [value]
    {
      hide Data;
      var node := new Node(value);
      node.prev := tail;
      if tail != null { tail.next := node; }
      tail := node;
      if head == null { head := node; }
      size := size + 1;
      nodes := nodes + [node];
      owned := owned + {node};
      forall i {:trigger Chained(nodes, i)} | 0 <= i < |nodes| ensures Chained(nodes, i) {
        if i < |nodes| - 1 { assert old(Chained(nodes, i)); }
      }
    }

    // The allocator takes back only what it has handed out.
    method Deallocate(ghost n: Node<T>)
      requires n in owned
      modifies this`owned
      ensures owned == old(owned) - {n}
    {
      owned := owned - {n};
    }

    method PopFront()
      requires Valid()
      modifies this, nodes
      ensures Valid()
      ensures if old(nodes) == [] then nodes == [] && owned == old(owned)
              else nodes == old(nodes)[1..] && owned == old(owned) - {old(nodes)[0]} && Data(nodes) == old(Data(nodes))[1..]
    {
      hide Data;
      if head == null { return; }
      assert Chained(nodes, 0);
      var temp := head;
      head := head.next;
      if head != null { head.prev := null; } else { tail := null; }
      nodes := nodes[1..];
      Deallocate(temp);
      size := size - 1;
      forall i {:trigger Chained(nodes, i)} | 0 <= i < |nodes| ensures Chained(nodes, i) {
        assert old(Chained(nodes, i + 1));
      }
    }

    method PopBack()
      requires Valid()
      modifies this, nodes
      ensures Valid()
      ensures if old(nodes) == [] then nodes == [] && owned == old(owned)
              else
                var n := |old(nodes)| - 1;
                nodes == old(nodes)[..n] && owned == old(owned) - {old(nodes)[n]} && Data(nodes) == old(Data(nodes))[..n]
    {
      hide Data;
      if tail == null { return; }
      assert Chained(nodes, |nodes| - 1);
      var temp := tail;
      tail := tail.prev;
      if tail != null { tail.next := null; } else { head := null; }
      nodes := nodes[..|nodes| - 1];
      Deallocate(temp);
      size := size - 1;
      forall i {:trigger Chained(nodes, i)} | 0 <= i < |nodes| ensures Chained(nodes, i) {
        assert old(Chained(nodes, i));
      }
    }

    // Every node goes back to the allocator, once.
    method Clear()
      requires Valid()
      modifies this, nodes
      ensures Valid() && nodes == [] && owned == {} && size == 0
    {
      ghost var k := 0;
      while head != null
        invariant Valid() && 0 <= k <= |old(nodes)| && nodes == old(nodes)[k..]
        decreases |nodes|
      {
        PopFront();
        k := k + 1;
      }
    }

    // begin() to end()
    method Walk() returns (s: seq<T>)
      requires Valid()
      ensures s == Data(nodes)
    {
      hide Data;
      s := [];
      var current := head;
      while current != null
        invariant |s| <= |nodes| && current == At(nodes, |s|) && s == Data(nodes)[..|s|]
        decreases |nodes| - |s|
      {
        assert Chained(nodes, |s|);
        s := s + [current.data];
        current := current.next;
      }
    }
  }

  // The nodes met from tail by k prev links.
  ghost function Back<T>(n: Node?<T>, k: int): (s: seq<Node<T>>)
    requires k >= 0
    reads *
  {
    if n == null || k == 0 then [] else [n] + Back(n.prev, k - 1)
  }

  ghost function Reversed<T>(nodes: seq<Node<T>>): seq<Node<T>> {
    if nodes == [] then [] else [nodes[|nodes| - 1]] + Reversed(nodes[..|nodes| - 1])
  }

  // Walking back from the tail meets the nodes of the forward walk in reverse.
  lemma {:induction false} BackwardIsReverse<T>(d: Deque<T>, k: int)
    requires d.Valid() && 0 <= k <= |d.nodes|
    ensures Back(At(d.nodes, k - 1), k) == Reversed(d.nodes[..k])
    decreases k
  {
    if k > 0 {
      assert Chained(d.nodes, k - 1);
      BackwardIsReverse(d, k - 1);
      assert d.nodes[..k][..k - 1] == d.nodes[..k - 1];
    }
  }
}
