/** The circular doubly linked list of ccan/list. A list is a ring of nodes whose
    first node is the head; every operation rewires `next` and `prev` in place
    and is specified by the sequence of nodes that the ring then visits. */
module LinkedList {

  class ListNode {
    var next: ListNode?
    var prev: ListNode?

    /** list_node_init and list_head_init on fresh storage: linked to itself. */
    constructor ()
      ensures Ring([this])
    {
      next, prev := this, this;
    }
  }

  ghost predicate Distinct(c: seq<ListNode>) { forall i, j :: 0 <= i < j < |c| ==> c[i] != c[j] }

  /** Following `next` from c[0] visits exactly c and comes back, and every `prev`
      is the reverse of a `next`. */
  ghost predicate Ring(c: seq<ListNode>)
    reads c
  {
    && |c| > 0
    && Distinct(c)
    && (forall i {:trigger c[i].next} :: 0 <= i < |c| - 1 ==> c[i].next == c[i + 1])
    && (forall i {:trigger c[i].prev} :: 1 <= i < |c| ==> c[i].prev == c[i - 1])
    && c[|c| - 1].next == c[0]
    && c[0].prev == c[|c| - 1]
  }

  ghost function Without(c: seq<ListNode>, k: nat): seq<ListNode>
    requires k < |c|
  {
    c[..k] + c[k + 1..]
  }

  /** The same ring, read from another starting node. */
  lemma {:induction false} Rotate(c: seq<ListNode>, k: nat)
    requires Ring(c) && k < |c|
    ensures Ring(c[k..] + c[..k])
  {
  }

  method AddAfter(p: ListNode, n: ListNode, ghost c: seq<ListNode>, ghost k: nat)
    requires Ring(c) && k < |c| && c[k] == p && n !in c
    modifies p, p.next, n
    ensures Ring(c[..k + 1] + [n] + c[k + 1..])
  {
    n.next := p.next;
    n.prev := p;
    p.next.prev := n;
    p.next := n;
  }

  method AddBefore(p: ListNode, n: ListNode, ghost c: seq<ListNode>, ghost k: nat)
    requires Ring(c) && k < |c| && c[k] == p && n !in c
    modifies p, p.prev, n
    ensures k > 0 ==> Ring(c[..k] + [n] + c[k..])
    ensures k == 0 ==> Ring(c + [n])
  {
    n.next := p;
    n.prev := p.prev;
    p.prev.next := n;
    p.prev := n;
  }

  /** Take n out of its ring. A node that is linked only to itself, as after
      list_node_init or list_del_init, stays as it is. */
  method Del(n: ListNode, ghost c: seq<ListNode>, ghost k: nat)
    requires Ring(c) && k < |c| && c[k] == n
    modifies n.next, n.prev
    ensures |c| > 1 ==> Ring(Without(c, k))
    ensures |c| == 1 ==> Ring([n])
    ensures n.next == old(n.next) && n.prev == old(n.prev)
  {
    n.next.prev := n.prev;
    n.prev.next := n.next;
  }

  method DelInit(n: ListNode, ghost c: seq<ListNode>, ghost k: nat)
    requires Ring(c) && k < |c| && c[k] == n
    modifies n, n.next, n.prev
    ensures Ring([n]) && (|c| > 1 ==> Ring(Without(c, k)))
  {
    Del(n, c, k);
    n.next, n.prev := n, n;
  }

  /** Put n where o was. A node that is linked only to itself is not replaced: the
      two nodes end up on one ring. */
  method Swap(o: ListNode, n: ListNode, ghost c: seq<ListNode>, ghost k: nat)
    requires Ring(c) && k < |c| && c[k] == o && n !in c
    modifies n, o.next, o.prev
    ensures |c| > 1 ==> Ring(c[k := n]) && o.next == old(o.next) && o.prev == old(o.prev)
    ensures |c| == 1 ==> Ring([o, n])
  {
    n.next, n.prev := o.next, o.prev;
    n.next.prev := n;
    n.prev.next := n;
  }

  lemma {:induction false} DistinctConcat(a: seq<ListNode>, b: seq<ListNode>)
    requires Distinct(a) && Distinct(b) && forall x :: x in a ==> x !in b
    ensures Distinct(a + b)
  {
    forall i, j | 0 <= i < |a| && 0 <= j < |b| ensures a[i] != b[j] { assert a[i] in a; }
  }

  /** The ring `from` is emptied onto the end of the ring `to`. A ring's first
      node is the list head and the rest are the list's entries. */
  method AppendList(to: ListNode, from: ListNode, ghost a: seq<ListNode>, ghost b: seq<ListNode>)
    requires Ring(a) && a[0] == to && Ring(b) && b[0] == from
    requires forall x :: x in a ==> x !in b
    modifies to, from, to.prev, from.prev, from.next
    ensures Ring(a + b[1..]) && Ring([from])
  {
    assert a[0] in a && a[|a| - 1] in a && b[0] in b && b[|b| - 1] in b;
    DistinctConcat(a, b);
    var fromTail, toTail := from.prev, to.prev;
    to.prev := fromTail;
    fromTail.next := to;
    toTail.next := from;
    from.prev := toTail;
    DelInit(from, a + b, |a|);
    assert Without(a + b, |a|) == a + b[1..];
  }

  lemma {:induction false} RotateBack(a: seq<ListNode>, k: nat, b: seq<ListNode>)
    requires k < |a| && k == (if |a| == 1 then 0 else 1) && |b| > 0
    requires var d := a[k..] + a[..k]; Ring(Without(d + b, |d|))
    ensures Ring([a[0]] + b[1..] + a[1..])
  {
    var d := a[k..] + a[..k];
    var e := d + b[1..];
    assert Without(d + b, |d|) == e;
    Rotate(e, |d| - 1);
    assert e[|d| - 1..] + e[..|d| - 1] == [a[0]] + b[1..] + a[1..];
  }

  /** The ring `from` is emptied onto the front of the ring `to`. */
  method PrependList(to: ListNode, from: ListNode, ghost a: seq<ListNode>, ghost b: seq<ListNode>)
    requires Ring(a) && a[0] == to && Ring(b) && b[0] == from
    requires forall x :: x in a ==> x !in b
    modifies to, from, to.next, from.prev, from.next
    ensures Ring([to] + b[1..] + a[1..]) && Ring([from])
  {
    // read the ring of `to` from its second node, so that `to` comes last
    ghost var k := if |a| == 1 then 0 else 1;
    Rotate(a, k);
    ghost var d := a[k..] + a[..k];
    assert d[|d| - 1] == to && d[0] in a && b[0] in b && b[|b| - 1] in b;
    DistinctConcat(d, b);
    var fromTail, toHead := from.prev, to.next;
    to.next := from;
    from.prev := to;
    toHead.prev := fromTail;
    fromTail.next := toHead;
    DelInit(from, d + b, |d|);
    RotateBack(a, k, b);
  }

  ghost predicate RingFrom(node: ListNode, c: seq<ListNode>)
    reads c
  {
    Ring(c) && c[0] == node
  }

  /** Every next pointer in S is non-null and stays in S; prev pointers may be
      anything, including null. */
  ghost predicate Closed(S: set<ListNode>)
    reads S
  {
    forall x :: x in S ==> x.next != null && x.next in S
  }

  /** The nodes of path are distinct and linked both ways, one after the other. */
  ghost predicate Chain(path: seq<ListNode>)
    reads path
  {
    && |path| > 0
    && Distinct(path)
    && (forall i {:trigger path[i].next} :: 0 <= i < |path| - 1 ==> path[i].next == path[i + 1])
    && (forall i {:trigger path[i].prev} :: 1 <= i < |path| ==> path[i].prev == path[i - 1])
  }

  /** A chain whose last node is linked both ways with a node other than its first
      extends to a longer chain: prev pointers leave no way back into it. */
  lemma {:induction false} ChainExtends(path: seq<ListNode>, n: ListNode)
    requires Chain(path) && n != path[0]
    requires path[|path| - 1].next == n && n.prev == path[|path| - 1]
    ensures n !in path && Chain(path + [n])
  {
  }

  lemma {:induction false} RingExtends(path: seq<ListNode>, n: ListNode, c: seq<ListNode>)
    requires Chain(path) && path[|path| - 1].next == n && n != path[0]
    requires Ring(c) && path <= c
    ensures path + [n] <= c && n.prev == path[|path| - 1]
  {
  }

  /** list_check_node without an abort string: the node itself when it is on a
      consistent ring, null otherwise. The walk ends because it never visits a
      node of S twice. */
  method CheckNode(node: ListNode, ghost S: set<ListNode>) returns (r: ListNode?)
    requires node in S && Closed(S)
    ensures r == null || r == node
    ensures r != null <==> exists c :: RingFrom(node, c)
  {
    var p: ListNode, n: ListNode := node, node.next;
    ghost var path: seq<ListNode> := [node];
    ghost var rest := S - {node};
    while n != node
      invariant p in S && n in S && n == p.next
      invariant Chain(path) && path[0] == node && path[|path| - 1] == p
      invariant forall x :: x in rest <==> x in S && x !in path
      invariant forall c :: RingFrom(node, c) ==> path <= c
      decreases rest
    {
      forall c | RingFrom(node, c) ensures path + [n] <= c && n.prev == p { RingExtends(path, n, c); }
      if n.prev != p {
        return null;
      }
      ChainExtends(path, n);
      path, rest := path + [n], rest - {n};
      p, n := n, n.next;
    }
    if node.prev != p {
      assert forall c :: RingFrom(node, c) ==> c[|path| - 1] == p;
      return null;
    }
    assert RingFrom(node, path);
    return node;
  }
}
