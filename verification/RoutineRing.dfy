/** The circular list of runnable coroutines, rewired in place. */
module RoutineRing {
  class Node {
    const id: nat
    var active: bool
    var prev: Node?
    var next: Node?

    constructor (id: nat)
      ensures this.id == id && !active && prev == null && next == null
    {
      this.id, active, prev, next := id, false, null, null;
    }
  }

  ghost function Without(s: seq<Node>, k: nat): (r: seq<Node>)
    requires k < |s|
    ensures |r| == |s| - 1 && forall i :: 0 <= i < |r| ==> r[i] == s[if i < k then i else i + 1]
  {
    s[..k] + s[k + 1..]
  }

  lemma WithoutMembers(s: seq<Node>, k: nat)
    requires k < |s| && forall i, j :: 0 <= i < j < |s| ==> s[i] != s[j]
    ensures forall m :: m in Without(s, k) <==> m in s && m != s[k]
  {
    forall m | m in s && m != s[k] ensures m in Without(s, k) {
      var i :| 0 <= i < |s| && s[i] == m;
      assert Without(s, k)[if i < k then i else i - 1] == m;
    }
  }

  class LinkedList {
    var header: Node?
    var tailer: Node?
    /** The members in ring order, from the header on. */
    ghost var nodes: seq<Node>

    /** Node i points to its successor around the ring and, unless it is the header, to its predecessor. */
    ghost predicate Wired(i: nat)
      requires i < |nodes|
      reads this, nodes
    {
      && nodes[i].next == nodes[if i + 1 < |nodes| then i + 1 else 0]
      && (i > 0 ==> nodes[i].prev == nodes[i - 1])
    }

    ghost predicate Valid()
      reads this, nodes
    {
      && (if nodes == [] then header == null else header == nodes[0] && tailer == nodes[|nodes| - 1])
      && (forall i, j :: 0 <= i < j < |nodes| ==> nodes[i] != nodes[j])
      && (forall i :: 0 <= i < |nodes| ==> Wired(i))
    }

    constructor ()
      ensures Valid() && nodes == []
    {
      header, tailer, nodes := null, null, [];
    }

    /** Appends a node from outside the ring behind the tail; the header's backward link is left as it is. */
    method Add(n: Node)
      requires Valid() && n !in nodes
      modifies this, n, nodes
      ensures Valid() && nodes == old(nodes) + [n]
      ensures old(nodes) == [] ==> n.prev == n
      ensures old(nodes) != [] ==> nodes[0].prev == old(nodes[0].prev)
      ensures n.active == old(n.active) && forall m :: m in old(nodes) ==> m.active == old(m.active)
    {
      ghost var before := nodes;
      var prev := tailer;
      if header == null {
        header := n;
        tailer := n;
        prev := n;
      }
      tailer.next := n;
      tailer := n;
      n.prev := prev;
      n.next := header;
      nodes := nodes + [n];
      forall i | 0 <= i < |nodes| ensures Wired(i) {
        if i < |before| {
          assert nodes[i] == before[i] && old(Wired(i));
          if i > 0 { assert nodes[i - 1] == before[i - 1]; }
        }
      }
    }

    /** Takes a member other than the header out; its successor comes next. */
    method LeaveOne(n: Node, ghost k: nat) returns (next: Node)
      requires Valid() && 0 < k < |nodes| && nodes[k] == n
      modifies this, nodes
      ensures Valid() && nodes == Without(old(nodes), k)
      ensures forall m :: m in nodes <==> m in old(nodes) && m != n
      ensures next == old(nodes[if k + 1 < |nodes| then k + 1 else 0]) && n.prev == null && n.next == null
      ensures forall m :: m in old(nodes) ==> m.active == old(m.active)
    {
      hide Without;
      assert Wired(k) && Wired(k - 1) && (k + 1 < |nodes| ==> Wired(k + 1));
      next := n.next;
      n.prev.next := next;
      next.prev := n.prev;
      if tailer == n {
        tailer := n.prev;
      }
      n.prev := null;
      n.next := null;
      WithoutMembers(nodes, k);
      nodes := Without(nodes, k);
      forall i | 0 <= i < |nodes| ensures Wired(i) {
        assert old(Wired(if i < k then i else i + 1));
      }
    }

    /** Marks a member as running or paused. */
    method SetActive(n: Node, active: bool)
      requires Valid() && n in nodes
      modifies n`active
      ensures Valid() && n.active == active
    {
      n.active := active;
      forall i | 0 <= i < |nodes| ensures Wired(i) {
        assert old(Wired(i));
      }
    }

    /** Following the links from the header visits the members in order and comes back to it. */
    ghost function Follow(k: nat): (r: Node)
      requires Valid() && k <= |nodes| && nodes != []
      reads this, nodes
      ensures r == nodes[if k < |nodes| then k else 0]
    {
      if k == 0 then header else
      assert Wired(k - 1);
      Follow(k - 1).next
    }
  }
}
