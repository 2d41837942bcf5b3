/** The doubly linked list: every operation on its nodes refines an operation on a sequence. */
module Adlist {
  import opened Wrappers
  import opened Sequences

  class Node<T> {
    var prev: Node?<T>
    var next: Node?<T>
    const value: T

    constructor (value: T)
      ensures this.value == value && prev == null && next == null
    {
      this.value, prev, next := value, null, null;
    }
  }

  /** Node i of a chain, or null outside it. */
  function At<T>(nodes: seq<Node<T>>, i: int): Node?<T> {
    if 0 <= i < |nodes| then nodes[i] else null
  }

  predicate Linked<T>(nodes: seq<Node<T>>, i: int)
    requires 0 <= i < |nodes|
    reads nodes[i]
  {
    nodes[i].prev == At(nodes, i - 1) && nodes[i].next == At(nodes, i + 1)
  }

  function Values<T>(nodes: seq<Node<T>>): (vs: seq<T>)
    ensures |vs| == |nodes| && forall i | 0 <= i < |vs| :: vs[i] == nodes[i].value
  {
    seq(|nodes|, i requires 0 <= i < |nodes| => nodes[i].value)
  }

  lemma Apart<T>(s: seq<T>, i: int, j: int)
    requires Distinct(s) && 0 <= i < |s| && 0 <= j < |s|
    ensures s[i] == s[j] <==> i == j
  {
  }

  lemma DistinctInsert<T>(s: seq<T>, at: nat, x: T)
    requires Distinct(s) && at <= |s| && x !in s
    ensures Distinct(s[..at] + [x] + s[at..])
  {
  }

  lemma DistinctRemove<T>(s: seq<T>, k: nat)
    requires Distinct(s) && k < |s|
    ensures Distinct(s[..k] + s[k + 1..])
  {
  }

  lemma DistinctRotated<T>(s: seq<T>)
    requires Distinct(s) && |s| > 0
    ensures Distinct(s[1..] + [s[0]]) && Distinct([s[|s| - 1]] + s[..|s| - 1])
  {
  }

  lemma DistinctJoined<T>(a: seq<T>, b: seq<T>)
    requires Distinct(a) && Distinct(b) && forall x | x in a :: x !in b
    ensures Distinct(a + b)
  {
    forall i, j | 0 <= i < j < |a + b| ensures (a + b)[i] != (a + b)[j] {
      if i < |a| <= j { assert a[i] in a && b[j - |a|] in b; }
    }
  }

  class List<T> {
    var head: Node?<T>
    var tail: Node?<T>
    var len: nat
    ghost var nodes: seq<Node<T>>

    ghost predicate Valid()
      reads this, nodes
    {
      && len == |nodes| && head == At(nodes, 0) && tail == At(nodes, len - 1) && Distinct(nodes)
      && forall i | 0 <= i < |nodes| :: Linked(nodes, i)
    }

    constructor ()
      ensures Valid() && nodes == []
    {
      head, tail, len, nodes := null, null, 0, [];
    }

    method AddNodeHead(value: T)
      requires Valid()
      modifies this, nodes
      ensures Valid() && |nodes| > 0 && fresh(nodes[0]) && nodes == [nodes[0]] + old(nodes)
      ensures nodes[0].value == value
    {
      hide Distinct;
      ghost var before := nodes;
      var node := new Node(value);
      if len == 0 {
        head, tail := node, node;
      } else {
        node.next := head;
        head.prev := node;
        head := node;
      }
      len := len + 1;
      nodes := [node] + nodes;
      DistinctInsert(before, 0, node);
      assert before[..0] + [node] + before[0..] == nodes;
      forall i | 0 <= i < |nodes| ensures Linked(nodes, i) {
        if i > 0 {
          assert old(Linked(before, i - 1));
          Apart(before, 0, i - 1);
        }
      }
    }

    method AddNodeTail(value: T)
      requires Valid()
      modifies this, nodes
      ensures Valid() && |nodes| > 0 && fresh(nodes[|nodes| - 1]) && nodes == old(nodes) + [nodes[|nodes| - 1]]
      ensures nodes[|nodes| - 1].value == value
    {
      hide Distinct;
      ghost var before := nodes;
      var node := new Node(value);
      if len == 0 {
        head, tail := node, node;
      } else {
        node.prev := tail;
        tail.next := node;
        tail := node;
      }
      len := len + 1;
      nodes := nodes + [node];
      DistinctInsert(before, |before|, node);
      assert before[..|before|] + [node] + before[|before|..] == nodes;
      forall i | 0 <= i < |nodes| ensures Linked(nodes, i) {
        if i < |before| {
          assert old(Linked(before, i));
          Apart(before, |before| - 1, i);
        }
      }
    }

    /** Insert before or after node k. */
    method InsertNode(oldNode: Node<T>, value: T, after: bool, ghost k: nat)
      requires Valid() && k < |nodes| && nodes[k] == oldNode
      modifies this, nodes
      ensures Valid()
      ensures var at := if after then k + 1 else k;
              && |nodes| == |old(nodes)| + 1 && fresh(nodes[at]) && nodes[at].value == value
              && nodes == old(nodes)[..at] + [nodes[at]] + old(nodes)[at..]
    {
      hide Distinct;
      var node := new Node(value);
      assert Linked(nodes, k);
      Apart(nodes, k, 0);
      Apart(nodes, k, |nodes| - 1);
      if after {
        node.prev, node.next := oldNode, oldNode.next;
        if tail == oldNode { tail := node; }
      } else {
        node.next, node.prev := oldNode, oldNode.prev;
        if head == oldNode { head := node; }
      }
      Splice(node, if after then k + 1 else k);
    }

    /** The second half of an insertion: the neighbours of a node that knows its place. */
    method Splice(node: Node<T>, ghost at: nat)
      requires at <= |nodes| && len == |nodes| && Distinct(nodes) && node !in nodes
      requires node.prev == At(nodes, at - 1) && node.next == At(nodes, at)
      requires forall i | 0 <= i < |nodes| :: Linked(nodes, i)
      modifies `len, `nodes, nodes
      ensures len == |nodes| && Distinct(nodes) && nodes == old(nodes)[..at] + [node] + old(nodes)[at..]
      ensures forall i | 0 <= i < |nodes| :: Linked(nodes, i)
    {
      hide Distinct;
      ghost var before := nodes;
      if node.prev != null { node.prev.next := node; }
      if node.next != null { node.next.prev := node; }
      len := len + 1;
      nodes := before[..at] + [node] + before[at..];
      DistinctInsert(before, at, node);
      forall i | 0 <= i < |nodes| ensures Linked(nodes, i) {
        if i != at {
          var j := if i < at then i else i - 1;
          assert old(Linked(before, j));
          if at > 0 { Apart(before, at - 1, j); }
          if at < |before| { Apart(before, at, j); }
        }
      }
    }

    /** Unlink node k; the node itself keeps its links. */
    method DelNode(node: Node<T>, ghost k: nat)
      requires Valid() && k < |nodes| && nodes[k] == node
      modifies this, nodes
      ensures Valid() && nodes == old(nodes)[..k] + old(nodes)[k + 1..]
      ensures node.prev == old(node.prev) && node.next == old(node.next)
    {
      hide Distinct;
      ghost var before := nodes;
      assert old(Linked(before, k));
      if k > 0 { Apart(before, k - 1, k); }
      if k + 1 < |before| { Apart(before, k + 1, k); }
      if node.prev != null { node.prev.next := node.next; } else { head := node.next; }
      if node.next != null { node.next.prev := node.prev; } else { tail := node.prev; }
      len := len - 1;
      nodes := before[..k] + before[k + 1..];
      DistinctRemove(before, k);
      forall i | 0 <= i < |nodes| ensures Linked(nodes, i) {
        var j := if i < k then i else i + 1;
        assert old(Linked(before, j));
        if k > 0 { Apart(before, k - 1, j); }
        if k + 1 < |before| { Apart(before, k + 1, j); }
      }
    }

    /** The node at an index, counted from the tail when negative; null when there is none. */
    method Index(index: int) returns (n: Node?<T>)
      requires Valid()
      ensures n == At(nodes, if index < 0 then len + index else index)
    {
      hide Distinct;
      var i := index;
      if i < 0 {
        i := -i - 1;
        n := tail;
        while i != 0 && n != null
          invariant i >= 0 && n == At(nodes, len + index + i)
          decreases i
        {
          assert Linked(nodes, len + index + i);
          n, i := n.prev, i - 1;
        }
      } else {
        n := head;
        while i != 0 && n != null
          invariant 0 <= i <= index && n == At(nodes, index - i)
          decreases i
        {
          assert Linked(nodes, index - i);
          n, i := n.next, i - 1;
        }
      }
    }

    method RotateTailToHead()
      requires Valid()
      modifies this, nodes
      ensures Valid()
      ensures nodes == if |old(nodes)| <= 1 then old(nodes)
                       else [old(nodes)[|old(nodes)| - 1]] + old(nodes)[..|old(nodes)| - 1]
    {
      hide Distinct;
      if len <= 1 { return; }
      ghost var before, last := nodes, |nodes| - 1;
      assert Linked(before, last) && Linked(before, 0);
      Apart(before, 0, last);
      Apart(before, last - 1, last);
      var t := tail;
      tail := t.prev;
      tail.next := null;
      head.prev := t;
      t.prev := null;
      t.next := head;
      head := t;
      nodes := [before[last]] + before[..last];
      DistinctRotated(before);
      assert Linked(nodes, 0);
      forall i | 0 < i < |nodes| ensures Linked(nodes, i) {
        assert old(Linked(before, i - 1));
        Apart(before, i - 1, 0);
        Apart(before, i - 1, last);
        Apart(before, i - 1, last - 1);
      }
    }

    method RotateHeadToTail()
      requires Valid()
      modifies this, nodes
      ensures Valid()
      ensures nodes == if |old(nodes)| <= 1 then old(nodes) else old(nodes)[1..] + [old(nodes)[0]]
    {
      hide Distinct;
      if len <= 1 { return; }
      ghost var before, last := nodes, |nodes| - 1;
      assert Linked(before, 0) && Linked(before, last);
      Apart(before, 0, last);
      Apart(before, 0, 1);
      var h := head;
      head := h.next;
      head.prev := null;
      tail.next := h;
      h.next := null;
      h.prev := tail;
      tail := h;
      nodes := before[1..] + [before[0]];
      DistinctRotated(before);
      forall i | 0 <= i < |nodes| ensures Linked(nodes, i) {
        var j := if i == last then 0 else i + 1;
        assert old(Linked(before, j));
        Apart(before, j, 0);
        Apart(before, j, last);
        Apart(before, j, 1);
      }
    }

    /** All nodes of o go to the end of this list; o is left empty. */
    method Join(o: List<T>)
      requires Valid() && o.Valid() && o != this && forall n | n in nodes :: n !in o.nodes
      modifies this, o, nodes, o.nodes
      ensures Valid() && o.Valid() && nodes == old(nodes) + old(o.nodes) && o.nodes == []
    {
      hide Distinct;
      ghost var a, b := nodes, o.nodes;
      ghost var all := a + b;
      if o.head != null { o.head.prev := tail; }
      if tail != null { tail.next := o.head; } else { head := o.head; }
      forall i | 0 <= i < |a| ensures Linked(all, i) {
        assert old(Linked(a, i));
        Apart(a, i, |a| - 1);
        assert a[i] !in b;
      }
      forall i | |a| <= i < |all| ensures Linked(all, i) {
        assert old(Linked(b, i - |a|));
        Apart(b, i - |a|, 0);
        assert b[i - |a|] !in a;
      }
      label Chained:
      if o.tail != null { tail := o.tail; }
      len := len + o.len;
      o.head, o.tail, o.len := null, null, 0;
      nodes, o.nodes := all, [];
      DistinctJoined(a, b);
      NothingDistinct<Node<T>>();
      forall i | 0 <= i < |all| ensures Linked(all, i) { assert old@Chained(Linked(all, i)); }
    }

    /** Free every node, from the head on. */
    method Empty() returns (freed: seq<T>)
      requires Valid()
      modifies this
      ensures Valid() && nodes == [] && freed == Values(old(nodes))
    {
      hide Distinct;
      var current, i := head, 0;
      freed := [];
      while i < len
        invariant 0 <= i <= len && current == At(nodes, i) && freed == Values(nodes)[..i]
        invariant Valid() && nodes == old(nodes) && len == old(len)
      {
        assert Linked(nodes, i);
        var next := current.next;
        freed := freed + [current.value];
        current, i := next, i + 1;
      }
      NothingDistinct<Node<T>>();
      assert freed == Values(old(nodes));
      head, tail, len, nodes := null, null, 0, [];
    }
  }

  // ----------------------------------------------------------------- iterators

  class ListIter<T> {
    var next: Node?<T>
    const fromHead: bool

    constructor (list: List<T>, fromHead: bool)
      ensures this.fromHead == fromHead && next == if fromHead then list.head else list.tail
    {
      this.fromHead := fromHead;
      next := if fromHead then list.head else list.tail;
    }

    method Next() returns (current: Node?<T>)
      modifies this
      ensures current == old(next)
      ensures next == if current == null then null else if fromHead then current.next else current.prev
    {
      current := next;
      if current != null {
        next := if fromHead then current.next else current.prev;
      }
    }
  }

  function Kept<T>(nodes: seq<Node<T>>, drop: T -> bool): seq<Node<T>>
    decreases |nodes|
  {
    if nodes == [] then []
    else
      var last := nodes[|nodes| - 1];
      Kept(nodes[..|nodes| - 1], drop) + if drop(last.value) then [] else [last]
  }

  function KeptBack<T>(nodes: seq<Node<T>>, drop: T -> bool): seq<Node<T>>
    decreases |nodes|
  {
    if nodes == [] then [] else (if drop(nodes[0].value) then [] else [nodes[0]]) + KeptBack(nodes[1..], drop)
  }

  lemma {:induction false} KeptEither<T>(nodes: seq<Node<T>>, drop: T -> bool)
    ensures KeptBack(nodes, drop) == Kept(nodes, drop)
    decreases |nodes|
  {
    if |nodes| > 1 {
      var last := |nodes| - 1;
      KeptEither(nodes[1..], drop);
      KeptEither(nodes[..last], drop);
      KeptEither(nodes[1..last], drop);
      assert nodes[1..][..last - 1] == nodes[1..last] && nodes[..last][1..] == nodes[1..last];
    } else if |nodes| == 1 {
      assert nodes[..0] == [] && nodes[1..] == [];
    }
  }

  function Dropped<T>(nodes: seq<Node<T>>, k: nat, drop: T -> bool): seq<Node<T>>
    requires k < |nodes|
  {
    if drop(nodes[k].value) then nodes[..k] + nodes[k + 1..] else nodes
  }

  /** One turn of a loop over a list: take the next node, and delete it or not. */
  method VisitOne<T>(list: List<T>, iter: ListIter<T>, drop: T -> bool, ghost k: nat) returns (node: Node<T>)
    requires list.Valid() && k < |list.nodes| && iter.next == list.nodes[k]
    modifies list, list.nodes, iter
    ensures list.Valid() && node == old(list.nodes)[k] && list.nodes == Dropped(old(list.nodes), k, drop)
    ensures iter.next == At(old(list.nodes), if iter.fromHead then k + 1 else k - 1)
  {
    hide Distinct;
    assert Linked(list.nodes, k);
    var n := iter.Next();
    node := n;
    if drop(node.value) { list.DelNode(node, k); }
  }

  /** The list after the first i nodes have been visited from the head, and what was returned. */
  function FromHead<T>(all: seq<Node<T>>, i: nat, drop: T -> bool): (seq<Node<T>>, seq<Node<T>>)
    requires i <= |all|
  {
    (Kept(all[..i], drop) + all[i..], all[..i])
  }

  lemma HeadStep<T>(all: seq<Node<T>>, i: nat, drop: T -> bool)
    requires i < |all|
    ensures var k, now := |Kept(all[..i], drop)|, FromHead(all, i, drop);
            && k < |now.0| && now.0[k] == all[i] && At(now.0, k + 1) == At(all, i + 1)
            && FromHead(all, i + 1, drop) == (Dropped(now.0, k, drop), now.1 + [all[i]])
  {
    assert all[..i + 1][..i] == all[..i];
    var k, now := |Kept(all[..i], drop)|, FromHead(all, i, drop);
    assert FromHead(all, i + 1, drop).0 == Dropped(now.0, k, drop);
    assert FromHead(all, i + 1, drop).1 == now.1 + [all[i]];
  }

  lemma HeadEnds<T>(all: seq<Node<T>>, drop: T -> bool)
    ensures FromHead(all, 0, drop) == (all, []) && FromHead(all, |all|, drop) == (Kept(all, drop), all)
  {
    assert all[..|all|] == all;
    assert FromHead(all, 0, drop).0 == all && FromHead(all, |all|, drop).0 == Kept(all, drop);
  }

  /** The same when the nodes before i are still to come, seen from the tail. */
  function FromTail<T>(all: seq<Node<T>>, i: nat, drop: T -> bool): (seq<Node<T>>, seq<Node<T>>)
    requires i <= |all|
  {
    (all[..i] + KeptBack(all[i..], drop), seq(|all| - i, j requires 0 <= j < |all| - i => all[|all| - 1 - j]))
  }

  lemma TailStep<T>(all: seq<Node<T>>, i: nat, drop: T -> bool)
    requires 0 < i <= |all|
    ensures var now := FromTail(all, i, drop);
            && i <= |now.0| && now.0[i - 1] == all[i - 1] && At(now.0, i - 2) == At(all, i - 2)
            && FromTail(all, i - 1, drop) == (Dropped(now.0, i - 1, drop), now.1 + [all[i - 1]])
  {
    assert all[i - 1..][1..] == all[i..];
    var now := FromTail(all, i, drop);
    assert FromTail(all, i - 1, drop).0 == Dropped(now.0, i - 1, drop);
    assert FromTail(all, i - 1, drop).1 == now.1 + [all[i - 1]];
  }

  lemma TailEnds<T>(all: seq<Node<T>>, drop: T -> bool)
    ensures FromTail(all, |all|, drop) == (all, []) && FromTail(all, 0, drop).0 == Kept(all, drop)
  {
    assert all[..|all|] == all && all[0..] == all;
    assert FromTail(all, |all|, drop).0 == all && FromTail(all, |all|, drop).1 == [];
    KeptEither(all, drop);
  }

  /** Iterating and deleting nodes just returned visits every original node once, in order. */
  method VisitFromHead<T>(list: List<T>, drop: T -> bool) returns (visited: seq<Node<T>>)
    requires list.Valid()
    modifies list, list.nodes
    ensures list.Valid() && visited == old(list.nodes) && list.nodes == Kept(old(list.nodes), drop)
  {
    hide Distinct, Linked, Dropped, Kept, FromHead;
    ghost var all, i := list.nodes, 0;
    var iter := new ListIter(list, true);
    visited := [];
    HeadEnds(all, drop);
    while iter.next != null
      invariant 0 <= i <= |all| && iter.next == At(all, i) && iter.fromHead
      invariant list.Valid() && FromHead(all, i, drop) == (list.nodes, visited)
      invariant fresh(iter) && Within(list.nodes, all)
      decreases |all| - i
    {
      HeadStep(all, i, drop);
      DroppedWithin(list.nodes, |Kept(all[..i], drop)|, drop, all);
      var node := VisitOne(list, iter, drop, |Kept(all[..i], drop)|);
      visited, i := visited + [node], i + 1;
    }
  }

  /** The same from the tail. */
  method VisitFromTail<T>(list: List<T>, drop: T -> bool) returns (visited: seq<Node<T>>)
    requires list.Valid()
    modifies list, list.nodes
    ensures list.Valid() && list.nodes == Kept(old(list.nodes), drop)
    ensures |visited| == |old(list.nodes)|
    ensures forall j | 0 <= j < |visited| :: visited[j] == old(list.nodes)[|visited| - 1 - j]
  {
    hide Distinct, Linked, Dropped, Kept, FromTail;
    ghost var all, i := list.nodes, |list.nodes|;
    var iter := new ListIter(list, false);
    visited := [];
    TailEnds(all, drop);
    while iter.next != null
      invariant 0 <= i <= |all| && iter.next == At(all, i - 1) && !iter.fromHead
      invariant list.Valid() && FromTail(all, i, drop) == (list.nodes, visited)
      invariant fresh(iter) && Within(list.nodes, all)
      decreases i
    {
      TailStep(all, i, drop);
      DroppedWithin(list.nodes, i - 1, drop, all);
      var node := VisitOne(list, iter, drop, i - 1);
      visited, i := visited + [node], i - 1;
    }
    TailSeen(all, drop);
  }

  lemma TailSeen<T>(all: seq<Node<T>>, drop: T -> bool)
    ensures var seen := FromTail(all, 0, drop).1;
            |seen| == |all| && forall j | 0 <= j < |seen| :: seen[j] == all[|seen| - 1 - j]
  {
  }

  predicate Within<T>(nodes: seq<Node<T>>, all: seq<Node<T>>) {
    forall i | 0 <= i < |nodes| :: nodes[i] in all
  }

  lemma DroppedWithin<T>(nodes: seq<Node<T>>, k: nat, drop: T -> bool, all: seq<Node<T>>)
    requires k < |nodes| && Within(nodes, all)
    ensures Within(Dropped(nodes, k, drop), all)
  {
  }

  /** Copy a list; a value that cannot be copied ends the attempt. The original is left alone. */
  method Dup<T>(orig: List<T>, dup: T -> Option<T>) returns (copy: Option<List<T>>)
    requires orig.Valid()
    ensures copy.None? <==> exists i | 0 <= i < |orig.nodes| :: dup(orig.nodes[i].value).None?
    ensures copy.Some? ==> fresh(copy.value) && copy.value.Valid() && |copy.value.nodes| == |orig.nodes|
                           && forall i | 0 <= i < |orig.nodes| ::
                                dup(orig.nodes[i].value) == Some(copy.value.nodes[i].value)
    ensures orig.Valid() && orig.nodes == old(orig.nodes)
  {
    hide Distinct;
    var c := new List<T>();
    var iter := new ListIter(orig, true);
    ghost var i := 0;
    while iter.next != null
      invariant 0 <= i <= |orig.nodes| && iter.next == At(orig.nodes, i) && iter.fromHead
      invariant fresh(c) && fresh(c.nodes) && fresh(iter) && c.Valid() && |c.nodes| == i
      invariant forall j | 0 <= j < i :: dup(orig.nodes[j].value) == Some(c.nodes[j].value)
      decreases |orig.nodes| - i
    {
      assert Linked(orig.nodes, i);
      var node := iter.Next();
      var value := dup(node.value);
      if value.None? {
        return None;
      }
      c.AddNodeTail(value.value);
      i := i + 1;
    }
    copy := Some(c);
  }

  /** The first node whose value matches, or null. */
  method SearchKey<T>(list: List<T>, match_: T -> bool) returns (found: Node?<T>, ghost k: nat)
    requires list.Valid()
    ensures k <= |list.nodes| && found == At(list.nodes, k)
    ensures forall i | 0 <= i < k :: !match_(list.nodes[i].value)
    ensures found != null ==> match_(found.value)
  {
    hide Distinct;
    var iter := new ListIter(list, true);
    k := 0;
    while iter.next != null
      invariant k <= |list.nodes| && iter.next == At(list.nodes, k) && iter.fromHead && fresh(iter)
      invariant forall i | 0 <= i < k :: !match_(list.nodes[i].value)
      decreases |list.nodes| - k
    {
      assert Linked(list.nodes, k);
      var node := iter.Next();
      if match_(node.value) { return node, k; }
      k := k + 1;
    }
    found := null;
  }
}
