/** Sequences without repetition, with one element put in or taken out. */
module Sequences {

  /** The sequence with `x` put in at position `k`. */
  function Splice<T>(s: seq<T>, k: nat, x: T): (r: seq<T>)
    requires k <= |s|
    ensures |r| == |s| + 1
  {
    s[..k] + [x] + s[k..]
  }

  /** The sequence without the element at position `k`. */
  function Cut<T>(s: seq<T>, k: nat): (r: seq<T>)
    requires k < |s|
    ensures |r| == |s| - 1
  {
    s[..k] + s[k + 1..]
  }

  ghost predicate Distinct<T>(s: seq<T>) {
    forall i, j | 0 <= i < j < |s| :: s[i] != s[j]
  }

  lemma SpliceAt<T>(s: seq<T>, k: nat, x: T, i: nat)
    requires k <= |s| && i <= |s|
    ensures Splice(s, k, x)[i] == if i < k then s[i] else if i == k then x else s[i - 1]
  {}

  lemma CutAt<T>(s: seq<T>, k: nat, i: nat)
    requires k < |s| && i < |s| - 1
    ensures Cut(s, k)[i] == if i < k then s[i] else s[i + 1]
  {}

  lemma SpliceDistinct<T>(s: seq<T>, k: nat, x: T)
    requires k <= |s| && Distinct(s) && x !in s
    ensures Distinct(Splice(s, k, x))
  {
    hide Splice;
    forall i, j | 0 <= i < j <= |s| ensures Splice(s, k, x)[i] != Splice(s, k, x)[j] {
      SpliceAt(s, k, x, i);
      SpliceAt(s, k, x, j);
    }
  }

  lemma CutDistinct<T>(s: seq<T>, k: nat)
    requires k < |s| && Distinct(s)
    ensures Distinct(Cut(s, k)) && s[k] !in Cut(s, k)
  {
    hide Cut;
    forall i, j | 0 <= i < j < |s| - 1 ensures Cut(s, k)[i] != Cut(s, k)[j] {
      CutAt(s, k, i);
      CutAt(s, k, j);
    }
    forall i | 0 <= i < |s| - 1 ensures Cut(s, k)[i] != s[k] {
      CutAt(s, k, i);
    }
  }

  lemma CutMembers<T>(s: seq<T>, k: nat)
    requires k < |s| && Distinct(s)
    ensures forall x | x in Cut(s, k) :: x in s && x != s[k]
    ensures forall x | x in s && x != s[k] :: x in Cut(s, k)
  {
    CutDistinct(s, k);
  }
}

/** The intrusive circular doubly linked list with a permanent sentinel.

    The links are rewritten in place exactly as the source does.  Each list carries a ghost
    sequence of the nodes it links, each node the ghost list it is in and whether the memory
    around it is still allocated: every primitive demands live nodes, so a verified caller
    never follows a link of freed memory. */
module Lists {
  import opened Sequences

  /** `struct gt_list_node`; `owner` stands for the structure it is embedded in, which the source
      finds by subtracting an offset from the node's address. */
  class Node {
    var prev: Node?
    var next: Node?
    var owner: object?
    ghost var home: List?
    ghost var live: bool

    constructor (owner: object?)
      ensures prev == next == null && home == null && live && this.owner == owner
    {
      prev, next, home, live := null, null, null, true;
      this.owner := owner;
    }
  }

  ghost function Around(head: Node, s: seq<Node>, i: int): Node {
    if 0 <= i < |s| then s[i] else head
  }

  /** The links run through `s` in both directions, from the sentinel and back to it. */
  ghost predicate Linked(head: Node, s: seq<Node>)
    reads head, s
  {
    && head.next == Around(head, s, 0) && head.prev == Around(head, s, |s| - 1)
    && (forall i {:trigger s[i].next} | 0 <= i < |s| :: s[i].next == Around(head, s, i + 1))
    && (forall i {:trigger s[i].prev} | 0 <= i < |s| :: s[i].prev == Around(head, s, i - 1))
    && head !in s && Distinct(s)
  }

  /** `struct gt_list` */
  class List {
    const head: Node
    ghost var nodes: seq<Node>

    constructor ()
      ensures fresh(head) && head.prev == head.next == null && head.live
      ensures head.home == this && nodes == []
    {
      head := new Node(null);
      nodes := [];
      new;
      head.home := this;
    }

    /** The node at position `i`; both ends of the chain meet in the sentinel. */
    ghost function At(i: int): Node
      reads this
    {
      Around(head, nodes, i)
    }

    /** The first node, if there is one. */
    ghost function Firsts(): set<Node>
      reads this
    {
      if nodes == [] then {} else {nodes[0]}
    }

    ghost predicate Valid()
      reads this, head, nodes
    {
      && head.home == this && head.live
      && (forall i {:trigger nodes[i].home} {:trigger nodes[i].live} | 0 <= i < |nodes| ::
            nodes[i].home == this && nodes[i].live)
      && Linked(head, nodes)
    }

    /** `gt_list_init` */
    method Init()
      requires head.home == this && head.live
      modifies this`nodes, head`next, head`prev
      ensures Valid() && nodes == []
    {
      head.prev := head;
      head.next := head;
      nodes := [];
    }

    /** `gt_list_is_empty` */
    predicate IsEmpty()
      reads this, head
    {
      head.prev == head && head.next == head
    }

    /** The sentinel points to itself exactly when no node is linked. */
    lemma EmptyMeansNone()
      requires Valid()
      ensures IsEmpty() <==> nodes == []
    {
      if nodes != [] {
        assert nodes[0].home == this;
      }
    }

    /** `gt_list_front` */
    method Front() returns (node: Node?)
      requires Valid()
      ensures node == if nodes == [] then null else nodes[0]
    {
      EmptyMeansNone();
      node := if IsEmpty() then null else head.next;
    }

    /** `gt_list_back` */
    method Back() returns (node: Node?)
      requires Valid()
      ensures node == if nodes == [] then null else nodes[|nodes| - 1]
    {
      EmptyMeansNone();
      node := if IsEmpty() then null else head.prev;
    }
  }

  // Linking

  /** The links of `s` with the sentinel `head`, once the four stores have put `node` in at position `k`. */
  ghost predicate Inserted(head: Node, s: seq<Node>, k: nat, node: Node)
    requires k <= |s|
    reads head, s, node
  {
    && node.next == Around(head, s, k) && node.prev == Around(head, s, k - 1)
    && head.next == (if k == 0 then node else Around(head, s, 0))
    && head.prev == (if k == |s| then node else Around(head, s, |s| - 1))
    && (forall i {:trigger s[i].next} | 0 <= i < |s| ::
          s[i].next == if i == k - 1 then node else Around(head, s, i + 1))
    && (forall i {:trigger s[i].prev} | 0 <= i < |s| ::
          s[i].prev == if i == k then node else Around(head, s, i - 1))
  }

  /** `__gt_list_link`: the four stores in source order; `prev` and `next` may be the same node. */
  method Link(node: Node, prev: Node, next: Node, ghost head: Node, ghost s: seq<Node>, ghost k: nat)
    requires k <= |s| && prev == Around(head, s, k - 1) && next == Around(head, s, k)
    requires Linked(head, s) && node != head && node !in s
    requires node.live && prev.live && next.live
    modifies node`prev, node`next, prev`next, next`prev
    ensures Inserted(head, s, k, node)
  {
    next.prev := node;
    node.next := next;
    prev.next := node;
    node.prev := prev;
  }

  lemma InsertedNext(head: Node, s: seq<Node>, k: nat, node: Node)
    requires k <= |s| && Inserted(head, s, k, node)
    ensures var r := Splice(s, k, node);
            && head.next == Around(head, r, 0)
            && forall i | 0 <= i < |r| :: r[i].next == Around(head, r, i + 1)
  {
    hide Splice;
    var r := Splice(s, k, node);
    SpliceAt(s, k, node, 0);
    forall i | 0 <= i < |r| ensures r[i].next == Around(head, r, i + 1) {
      SpliceAt(s, k, node, i);
      if i < |s| { SpliceAt(s, k, node, i + 1); }
    }
  }

  lemma InsertedPrev(head: Node, s: seq<Node>, k: nat, node: Node)
    requires k <= |s| && Inserted(head, s, k, node)
    ensures var r := Splice(s, k, node);
            && head.prev == Around(head, r, |r| - 1)
            && forall i | 0 <= i < |r| :: r[i].prev == Around(head, r, i - 1)
  {
    hide Splice;
    var r := Splice(s, k, node);
    SpliceAt(s, k, node, |s|);
    forall i | 0 <= i < |r| ensures r[i].prev == Around(head, r, i - 1) {
      SpliceAt(s, k, node, i);
      if i > 0 { SpliceAt(s, k, node, i - 1); }
    }
  }

  lemma InsertedLinks(head: Node, s: seq<Node>, k: nat, node: Node)
    requires k <= |s| && Inserted(head, s, k, node)
    requires Distinct(s) && head !in s && node !in s && node != head
    ensures Linked(head, Splice(s, k, node))
    ensures forall n | n in Splice(s, k, node) :: n == node || n in s
  {
    hide Splice, Distinct;
    InsertedNext(head, s, k, node);
    InsertedPrev(head, s, k, node);
    SpliceDistinct(s, k, node);
    forall i | 0 <= i <= |s| ensures Splice(s, k, node)[i] == node || Splice(s, k, node)[i] in s {
      SpliceAt(s, k, node, i);
    }
  }

  /** `gt_list_insert_before`: `pos` is a linked node or the sentinel. */
  method InsertBefore(pos: Node, node: Node, ghost list: List, ghost k: nat)
    requires list.Valid() && k <= |list.nodes| && pos == list.At(k)
    requires node.home == null && node.live
    modifies list`nodes, node`prev, node`next, node`home, pos`prev, list.At(k - 1)`next
    ensures list.Valid() && node.home == list && node.live
    ensures list.nodes == Splice(old(list.nodes), k, node)
    ensures forall m: List | old(allocated(m)) && m != list && old(m.Valid()) :: m.Valid() && m.nodes == old(m.nodes)
  {
    hide Splice, Distinct;
    ghost var s := list.nodes;
    assert forall i | 0 <= i < |s| :: s[i].home == list;
    assert pos.prev == list.At(k - 1);
    node.home := list;
    Link(node, pos.prev, pos, list.head, s, k);
    InsertedLinks(list.head, s, k, node);
    list.nodes := Splice(s, k, node);
    assert forall n | n in list.nodes :: n.home == list && n.live;
  }

  /** `gt_list_insert_after`: `pos` is a linked node or the sentinel. */
  method InsertAfter(pos: Node, node: Node, ghost list: List, ghost k: nat)
    requires list.Valid() && k <= |list.nodes| && pos == list.At(k - 1)
    requires node.home == null && node.live
    modifies list`nodes, node`prev, node`next, node`home, pos`next, list.At(k)`prev
    ensures list.Valid() && node.home == list && node.live
    ensures list.nodes == Splice(old(list.nodes), k, node)
    ensures forall m: List | old(allocated(m)) && m != list && old(m.Valid()) :: m.Valid() && m.nodes == old(m.nodes)
  {
    hide Splice, Distinct;
    ghost var s := list.nodes;
    assert forall i | 0 <= i < |s| :: s[i].home == list;
    assert pos.next == list.At(k);
    node.home := list;
    Link(node, pos, pos.next, list.head, s, k);
    InsertedLinks(list.head, s, k, node);
    list.nodes := Splice(s, k, node);
    assert forall n | n in list.nodes :: n.home == list && n.live;
  }

  /** `gt_list_push_front` */
  method PushFront(list: List, node: Node)
    requires list.Valid() && node.home == null && node.live
    modifies list`nodes, node`prev, node`next, node`home, list.head`next, list.At(0)`prev
    ensures list.Valid() && node.home == list && node.live
    ensures list.nodes == [node] + old(list.nodes)
    ensures forall m: List | old(allocated(m)) && m != list && old(m.Valid()) :: m.Valid() && m.nodes == old(m.nodes)
  {
    InsertAfter(list.head, node, list, 0);
  }

  /** `gt_list_push_back` */
  method PushBack(list: List, node: Node)
    requires list.Valid() && node.home == null && node.live
    modifies list`nodes, node`prev, node`next, node`home, list.head`prev, list.At(|list.nodes| - 1)`next
    ensures list.Valid() && node.home == list && node.live
    ensures list.nodes == old(list.nodes) + [node]
    ensures forall m: List | old(allocated(m)) && m != list && old(m.Valid()) :: m.Valid() && m.nodes == old(m.nodes)
  {
    InsertBefore(list.head, node, list, |list.nodes|);
  }

  // Unlinking

  /** The links of `s` with the sentinel `head`, once the node at position `k` has been taken out. */
  ghost predicate Removed(head: Node, s: seq<Node>, k: nat)
    requires k < |s|
    reads head, s
  {
    && s[k].next == null && s[k].prev == null
    && head.next == Around(head, s, if k == 0 then 1 else 0)
    && head.prev == Around(head, s, if k == |s| - 1 then k - 1 else |s| - 1)
    && (forall i {:trigger s[i].next} | 0 <= i < |s| && i != k ::
          s[i].next == Around(head, s, if i == k - 1 then k + 1 else i + 1))
    && (forall i {:trigger s[i].prev} | 0 <= i < |s| && i != k ::
          s[i].prev == Around(head, s, if i == k + 1 then k - 1 else i - 1))
  }

  /** `__gt_list_unlink`: works from the node alone. */
  method Unlink(node: Node, ghost head: Node, ghost s: seq<Node>, ghost k: nat)
    requires k < |s| && node == s[k] && Linked(head, s)
    requires node.live && Around(head, s, k - 1).live && Around(head, s, k + 1).live
    modifies node`prev, node`next, Around(head, s, k - 1)`next, Around(head, s, k + 1)`prev
    ensures Removed(head, s, k)
  {
    assert node.next == Around(head, s, k + 1) && node.prev == Around(head, s, k - 1);
    node.next.prev := node.prev;
    node.prev.next := node.next;
    node.prev := null;
    node.next := null;
  }

  lemma RemovedNext(head: Node, s: seq<Node>, k: nat)
    requires k < |s| && Removed(head, s, k)
    ensures var r := Cut(s, k);
            && head.next == Around(head, r, 0)
            && forall i | 0 <= i < |r| :: r[i].next == Around(head, r, i + 1)
  {
    hide Cut;
    var r := Cut(s, k);
    if |r| > 0 { CutAt(s, k, 0); }
    forall i | 0 <= i < |r| ensures r[i].next == Around(head, r, i + 1) {
      CutAt(s, k, i);
      if i + 1 < |r| { CutAt(s, k, i + 1); }
    }
  }

  lemma RemovedPrev(head: Node, s: seq<Node>, k: nat)
    requires k < |s| && Removed(head, s, k)
    ensures var r := Cut(s, k);
            && head.prev == Around(head, r, |r| - 1)
            && forall i | 0 <= i < |r| :: r[i].prev == Around(head, r, i - 1)
  {
    hide Cut;
    var r := Cut(s, k);
    if |r| > 0 { CutAt(s, k, |r| - 1); }
    forall i | 0 <= i < |r| ensures r[i].prev == Around(head, r, i - 1) {
      CutAt(s, k, i);
      if i > 0 { CutAt(s, k, i - 1); }
    }
  }

  lemma RemovedLinks(head: Node, s: seq<Node>, k: nat)
    requires k < |s| && Removed(head, s, k)
    requires Distinct(s) && head !in s
    ensures Linked(head, Cut(s, k))
    ensures s[k] !in Cut(s, k) && forall n | n in Cut(s, k) :: n in s
  {
    hide Cut, Distinct;
    RemovedNext(head, s, k);
    RemovedPrev(head, s, k);
    CutDistinct(s, k);
    forall i | 0 <= i < |s| - 1 ensures Cut(s, k)[i] in s {
      CutAt(s, k, i);
    }
  }

  /** `gt_list_remove`: the node is left detached, with both links null. */
  method Remove(node: Node, ghost list: List, ghost k: nat)
    requires list.Valid() && k < |list.nodes| && node == list.nodes[k]
    modifies list`nodes, node`prev, node`next, node`home, list.At(k - 1)`next, list.At(k + 1)`prev
    ensures list.Valid() && list.nodes == Cut(old(list.nodes), k)
    ensures node.prev == node.next == null && node.home == null && node.live
    ensures forall m: List | old(allocated(m)) && m != list && old(m.Valid()) :: m.Valid() && m.nodes == old(m.nodes)
  {
    hide Cut, Distinct;
    ghost var s := list.nodes;
    assert forall i | 0 <= i < |s| :: s[i].home == list && s[i].live;
    Unlink(node, list.head, s, k);
    RemovedLinks(list.head, s, k);
    list.nodes := Cut(s, k);
    node.home := null;
    assert forall n | n in list.nodes :: n.home == list && n.live;
  }

  /** `gt_list_move_front`: the node may come from the same list or from another one. */
  method MoveFront(list: List, node: Node, ghost source: List, ghost k: nat)
    requires list.Valid() && source.Valid() && k < |source.nodes| && node == source.nodes[k]
    modifies list`nodes, list.head`next, list.At(0)`prev
    modifies source`nodes, node`prev, node`next, node`home, source.At(k - 1)`next, source.At(k + 1)`prev
    ensures list.Valid() && source.Valid() && node.home == list && node.live
    ensures list == source ==> list.nodes == [node] + Cut(old(list.nodes), k)
    ensures list != source ==> list.nodes == [node] + old(list.nodes) && source.nodes == Cut(old(source.nodes), k)
    ensures forall m: List | old(allocated(m)) && m != list && m != source && old(m.Valid()) ::
              m.Valid() && m.nodes == old(m.nodes)
  {
    hide Cut, Distinct, Linked;
    MovedFirst(source, k);
    Remove(node, source, k);
    PushFront(list, node);
  }

  /** `gt_list_move_back` */
  method MoveBack(list: List, node: Node, ghost source: List, ghost k: nat)
    requires list.Valid() && source.Valid() && k < |source.nodes| && node == source.nodes[k]
    modifies list`nodes, list.head`prev, list.At(|list.nodes| - 1)`next
    modifies source`nodes, node`prev, node`next, node`home, source.At(k - 1)`next, source.At(k + 1)`prev
    ensures list.Valid() && source.Valid() && node.home == list && node.live
    ensures list == source ==> list.nodes == Cut(old(list.nodes), k) + [node]
    ensures list != source ==> list.nodes == old(list.nodes) + [node] && source.nodes == Cut(old(source.nodes), k)
    ensures forall m: List | old(allocated(m)) && m != list && m != source && old(m.Valid()) ::
              m.Valid() && m.nodes == old(m.nodes)
  {
    hide Cut, Distinct, Linked;
    MovedFirst(source, k);
    Remove(node, source, k);
    PushBack(list, node);
  }

  /** The ends of a list after its node `k` has been taken out are old ends or old neighbours of the node. */
  lemma MovedFirst(list: List, k: nat)
    requires k < |list.nodes|
    ensures Around(list.head, Cut(list.nodes, k), 0) == list.At(if k == 0 then 1 else 0)
    ensures Around(list.head, Cut(list.nodes, k), |list.nodes| - 2)
            == list.At(if k == |list.nodes| - 1 then k - 1 else |list.nodes| - 1)
  {
    hide Cut;
    var s := list.nodes;
    if |s| > 1 {
      CutAt(s, k, 0);
      CutAt(s, k, |s| - 2);
    }
  }

  // Walking

  /** The node reached from the sentinel by `k` steps along `next`. */
  ghost function Forward(list: List, k: nat): (node: Node)
    requires list.Valid()
    reads list, list.head, list.nodes
    ensures node == list.head || node in list.nodes
  {
    if k == 0 then list.head else Forward(list, k - 1).next
  }

  /** The node reached from the sentinel by `k` steps along `prev`. */
  ghost function Backward(list: List, k: nat): (node: Node)
    requires list.Valid()
    reads list, list.head, list.nodes
    ensures node == list.head || node in list.nodes
  {
    if k == 0 then list.head else Backward(list, k - 1).prev
  }

  lemma {:induction false} WalkPositions(list: List, k: nat)
    requires list.Valid() && k <= |list.nodes| + 1
    ensures Forward(list, k) == list.At(k - 1)
    ensures Backward(list, k) == list.At(|list.nodes| - k)
  {
    hide Distinct;
    if k != 0 {
      WalkPositions(list, k - 1);
    }
  }

  /** Both walks come back to the sentinel after all nodes, and one is the reverse of the other. */
  lemma BackwardReversesForward(list: List, k: nat)
    requires list.Valid() && k <= |list.nodes| + 1
    ensures Backward(list, k) == Forward(list, |list.nodes| + 1 - k)
    ensures Forward(list, |list.nodes| + 1) == Backward(list, |list.nodes| + 1) == list.head
    ensures 1 <= k <= |list.nodes| ==> Forward(list, k) == list.nodes[k - 1] != list.head
  {
    WalkPositions(list, k);
    WalkPositions(list, |list.nodes| + 1 - k);
    WalkPositions(list, |list.nodes| + 1);
  }

  /** The links determine the sequence: no two sequences fit the same links. */
  lemma LinksDetermineNodes(head: Node, s: seq<Node>, r: seq<Node>)
    requires Linked(head, s) && Linked(head, r)
    ensures s == r
  {
    var i := 0;
    while i < |s| && i < |r|
      invariant i <= |s| && i <= |r|
      invariant s[..i] == r[..i]
    {
      assert Around(head, s, i) == Around(head, r, i) by {
        if i > 0 {
          assert s[i - 1] == s[..i][i - 1] == r[..i][i - 1] == r[i - 1];
          assert s[i - 1].next == Around(head, s, i) && r[i - 1].next == Around(head, r, i);
        }
      }
      i := i + 1;
    }
    if i > 0 {
      assert s[i - 1] == s[..i][i - 1] == r[..i][i - 1] == r[i - 1];
      assert s[i - 1].next == Around(head, s, i) && r[i - 1].next == Around(head, r, i);
    }
    assert Around(head, s, i) == Around(head, r, i);
  }

  // Safe iteration

  /** The nodes of `s` that are not dropped, in order. */
  function Kept(s: seq<Node>, drop: set<Node>): (r: seq<Node>)
    ensures |r| <= |s|
    ensures forall n | n in r :: n in s && n !in drop
  {
    if s == [] then []
    else Kept(s[..|s| - 1], drop) + if s[|s| - 1] in drop then [] else [s[|s| - 1]]
  }

  lemma KeptNext(s: seq<Node>, drop: set<Node>, i: nat)
    requires i < |s|
    ensures Kept(s[..i + 1], drop) == Kept(s[..i], drop) + if s[i] in drop then [] else [s[i]]
  {
    assert s[..i + 1][..i] == s[..i];
  }

  /** Behind the nodes of `front` stands `x`: the sequence with `x`, and without it. */
  lemma AtSeam<T>(front: seq<T>, x: T, back: seq<T>)
    ensures (front + ([x] + back))[|front|] == x && (front + ([x] + back))[|front| + 1..] == back
    ensures Cut(front + ([x] + back), |front|) == front + back
    ensures (front + [x]) + back == front + ([x] + back)
  {}

  lemma KeptStep(head: Node, s: seq<Node>, drop: set<Node>, i: nat)
    requires i < |s|
    ensures var k := |Kept(s[..i], drop)|;
            var now := Kept(s[..i], drop) + s[i..];
            && now[k] == s[i] && now[k + 1..] == s[i + 1..]
            && Kept(s[..i + 1], drop) + s[i + 1..] == (if s[i] in drop then Cut(now, k) else now)
            && Around(head, Kept(s[..i + 1], drop) + s[i + 1..], |Kept(s[..i + 1], drop)|) == Around(head, now, k + 1)
  {
    hide Kept, Cut;
    var front, back := Kept(s[..i], drop), s[i + 1..];
    KeptNext(s, drop, i);
    AtSeam(front, s[i], back);
    assert s[i..] == [s[i]] + back;
    var next := Kept(s[..i + 1], drop);
    assert next == if s[i] in drop then front else front + [s[i]];
    assert (front + s[i..])[|front| + 1..] == back == (next + back)[|next|..];
  }

  lemma Cursor(list: List, k: nat)
    requires list.Valid()
    ensures list.At(k) == list.head <==> k >= |list.nodes|
    ensures k < |list.nodes| ==> list.At(k) == list.nodes[k] && list.nodes[k].next == list.At(k + 1)
    ensures list.At(k - 1).home == list.At(k + 1).home == list
    ensures list.At(k - 1) in list.nodes + [list.head] && list.At(k + 1) in list.nodes + [list.head]
    ensures list.head.next == list.At(0)
  {
    hide Distinct;
    assert forall n | n in list.nodes :: n.home == list;
  }

  /** The loop body: removes the current node when it is in `drop`. */
  method Visit(pos: Node, drop: set<Node>, ghost list: List, ghost k: nat)
    requires list.Valid() && k < |list.nodes| && pos == list.nodes[k]
    modifies list`nodes, pos`prev, pos`next, pos`home, list.At(k - 1)`next, list.At(k + 1)`prev
    ensures list.Valid()
    ensures list.nodes == if pos in drop then Cut(old(list.nodes), k) else old(list.nodes)
    ensures pos in drop ==> pos.prev == pos.next == null && pos.home == null
    ensures forall m: List | old(allocated(m)) && m != list && old(m.Valid()) :: m.Valid() && m.nodes == old(m.nodes)
  {
    if pos in drop {
      Remove(pos, list, k);
    }
  }

  /** The cursors stand at node `i` of the original sequence `s`; the nodes before it have been visited. */
  ghost predicate Scanning(list: List, s: seq<Node>, drop: set<Node>, i: nat, pos: Node, nxt: Node?)
    requires i <= |s|
    reads list, list.head, list.nodes, s
  {
    var k := |Kept(s[..i], drop)|;
    && list.Valid() && list.nodes == Kept(s[..i], drop) + s[i..]
    && pos == list.At(k) && nxt == pos.next
    && (forall n | n in list.nodes :: n in s)
    && forall j {:trigger s[j]} | 0 <= j < i && s[j] in drop :: s[j].prev == s[j].next == null && s[j].home == null
  }

  /** One turn of the loop: the body, then both cursors move on. */
  method Turn(list: List, pos: Node, nxt: Node, drop: set<Node>, ghost s: seq<Node>, ghost i: nat)
    returns (pos': Node, nxt': Node?)
    requires i < |s| && Scanning(list, s, drop, i, pos, nxt)
    modifies list`nodes, list.head, s
    ensures Scanning(list, s, drop, i + 1, pos', nxt')
    ensures forall m: List | old(allocated(m)) && m != list && old(m.Valid()) :: m.Valid() && m.nodes == old(m.nodes)
  {
    hide Linked, Kept, Cut, Around;
    ghost var k := |Kept(s[..i], drop)|;
    Cursor(list, k);
    KeptStep(list.head, s, drop, i);
    Visit(pos, drop, list, k);
    pos' := nxt;
    nxt' := pos'.next;
  }

  /** `GT_LIST_FOR_EACH_SAFE` with a body that removes the current node when it is in `drop`:
      every node is visited once, in order, and the kept ones stay linked in order. */
  method ForEachSafe(list: List, drop: set<Node>) returns (visited: seq<Node>)
    requires list.Valid()
    modifies list`nodes, list.head, list.nodes
    ensures list.Valid() && visited == old(list.nodes)
    ensures list.nodes == Kept(old(list.nodes), drop)
    ensures forall n | n in old(list.nodes) && n in drop :: n.prev == n.next == null && n.home == null
    ensures forall m: List | old(allocated(m)) && m != list && old(m.Valid()) :: m.Valid() && m.nodes == old(m.nodes)
  {
    hide Linked, Scanning, Around, Kept, List.Valid;
    ghost var s := list.nodes;
    ghost var i := 0;
    visited := [];
    Cursor(list, 0);
    var pos: Node := list.head.next;
    var nxt := pos.next;
    ScanStarts(list, drop);
    while pos != list.head
      invariant i <= |s| && visited == s[..i] && Scanning(list, s, drop, i, pos, nxt)
      invariant forall m: List | old(allocated(m)) && m != list && old(m.Valid()) ::
                  m.Valid() && m.nodes == old(m.nodes)
      decreases |s| - i
    {
      ScanFacts(list, s, drop, i, pos, nxt);
      visited := visited + [pos];
      pos, nxt := Turn(list, pos, nxt, drop, s, i);
      i := i + 1;
    }
    ScanFacts(list, s, drop, i, pos, nxt);
  }

  lemma ScanStarts(list: List, drop: set<Node>)
    requires list.Valid()
    ensures list.head.next == list.At(0) && Scanning(list, list.nodes, drop, 0, list.At(0), list.At(0).next)
  {
    Cursor(list, 0);
  }

  /** The cursor is at the sentinel exactly when every node has been visited. */
  lemma ScanFacts(list: List, s: seq<Node>, drop: set<Node>, i: nat, pos: Node, nxt: Node?)
    requires i <= |s| && Scanning(list, s, drop, i, pos, nxt)
    ensures list.Valid()
    ensures pos != list.head ==> i < |s| && pos == s[i] && nxt != null && s[..i + 1] == s[..i] + [pos]
    ensures pos == list.head ==> i == |s| && list.nodes == Kept(s, drop)
    ensures pos == list.head ==> forall n | n in s && n in drop :: n.prev == n.next == null && n.home == null
  {
    hide Linked, Kept, Around;
    Cursor(list, |Kept(s[..i], drop)|);
    assert s[..|s|] == s;
  }
}
