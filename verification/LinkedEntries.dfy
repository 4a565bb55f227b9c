/** The doubly linked list of entries that the search edits in place. A node is named by its
    position in the ghost sequence `all`; every next and prev pointer of every node, linked or
    lifted out, is a function of the order in which positions were removed. */
module LinkedEntries {
  import opened Linearizability

  class Node<V> {
    const value: V
    const matching: Node?<V>  // the return of a call; null for a return
    const id: int
    var next: Node?<V>
    var prev: Node?<V>

    constructor (value: V, matching: Node?<V>, id: int)
      ensures this.value == value && this.matching == matching && this.id == id
      ensures next == null && prev == null
    {
      this.value := value;
      this.matching := matching;
      this.id := id;
      this.next := null;
      this.prev := null;
    }
  }

  function At<V>(all: seq<Node<V>>, i: int): Node?<V>
  {
    if 0 <= i < |all| then all[i] else null
  }

  ghost predicate Distinct<V>(all: seq<Node<V>>)
  {
    forall i, j | 0 <= i < j < |all| :: all[i] != all[j]
  }

  // ----- neighbours, as positions -----

  /** The first position after `i` that is not dead, or `n`. */
  function NextIdx(n: nat, dead: set<int>, i: int): (j: int)
    requires i < n
    ensures i < j <= n
    ensures j < n ==> j !in dead
    ensures forall k | i < k < j :: k in dead
    decreases n - i
  {
    if i + 1 == n || i + 1 !in dead then i + 1 else NextIdx(n, dead, i + 1)
  }

  /** The last position before `i` that is not dead, or -1. */
  function PrevIdx(dead: set<int>, i: nat): (j: int)
    ensures -1 <= j < i
    ensures j >= 0 ==> j !in dead
    ensures forall k | j < k < i :: k in dead
  {
    if i == 0 || i - 1 !in dead then i - 1 else PrevIdx(dead, i - 1)
  }

  /** What had been removed when position `i` was; everything removed if `i` is still linked. */
  function Before(removed: seq<int>, i: int): set<int>
  {
    if removed == [] || removed[0] == i then {} else {removed[0]} + Before(removed[1..], i)
  }

  function NextOf(n: nat, removed: seq<int>, i: int): int
    requires i < n
  {
    NextIdx(n, Before(removed, i), i)
  }

  function PrevOf(removed: seq<int>, i: nat): int
  {
    PrevIdx(Before(removed, i), i)
  }

  /** The two pointers of a node. */
  datatype Links<V> = Links(next: Node?<V>, prev: Node?<V>)

  /** The pointers the nodes have. */
  ghost function Pointers<V>(all: seq<Node<V>>): (s: seq<Links<V>>)
    reads all
    ensures |s| == |all|
    ensures forall i | 0 <= i < |s| :: s[i].next == all[i].next && s[i].prev == all[i].prev
  {
    seq(|all|, i requires 0 <= i < |all| reads all => Links(all[i].next, all[i].prev))
  }

  /** The pointers the nodes must have after the given removals. */
  ghost function LinksAfter<V>(all: seq<Node<V>>, removed: seq<int>): (s: seq<Links<V>>)
    ensures |s| == |all|
    ensures forall i | 0 <= i < |s| ::
              s[i] == Links(At(all, NextOf(|all|, removed, i)), At(all, PrevOf(removed, i)))
  {
    seq(|all|, i requires 0 <= i < |all| => Links(At(all, NextOf(|all|, removed, i)), At(all, PrevOf(removed, i))))
  }

  ghost predicate Linked<V>(all: seq<Node<V>>, removed: seq<int>)
    reads all
  {
    Pointers(all) == LinksAfter(all, removed)
  }

  lemma LinkedPointers<V>(all: seq<Node<V>>, removed: seq<int>, i: nat)
    requires Linked(all, removed) && i < |all|
    ensures all[i].next == At(all, NextOf(|all|, removed, i)) && all[i].prev == At(all, PrevOf(removed, i))
  {
    assert Pointers(all)[i] == LinksAfter(all, removed)[i];
  }

  lemma {:induction false} BeforeSnoc(removed: seq<int>, x: int, i: int)
    requires x !in removed
    ensures Before(removed + [x], i) == if i in removed || i == x then Before(removed, i) else Before(removed, i) + {x}
    ensures i !in removed ==> Before(removed, i) == Elems(removed)
  {
    if removed == [] {
      assert removed + [x] == [x] && [x][1..] == [];
    } else {
      assert (removed + [x])[1..] == removed[1..] + [x];
      BeforeSnoc(removed[1..], x, i);
      assert Elems(removed) == {removed[0]} + Elems(removed[1..]);
    }
  }

  /** Which pointers change when a linked position is removed: those of its two neighbours. */
  lemma RemovalChangesNeighbours(n: nat, removed: seq<int>, x: nat, i: nat)
    requires 1 <= x < n && x !in removed && 0 !in removed && i < n
    ensures var p, q := PrevOf(removed, x), NextOf(n, removed, x);
            && 0 <= p && (i == p <==> i !in removed && NextOf(n, removed, i) == x)
            && (i == q <==> i !in removed && PrevOf(removed, i) == x)
            && NextOf(n, removed + [x], i) == (if i == p then q else NextOf(n, removed, i))
            && PrevOf(removed + [x], i) == (if i == q then p else PrevOf(removed, i))
  {
    hide Elems;
    BeforeSnoc(removed, x, i);
    BeforeSnoc(removed, x, x);
    BeforeSnoc(removed, x, 0);
    assert forall k :: k in Elems(removed) <==> k in removed by {
      ElemsIn(removed);
    }
  }

  lemma ElemsIn(c: seq<int>)
    ensures forall k :: k in Elems(c) <==> k in c
  {
  }

  // ----- construction -----

  /** Puts `n` in front of `mark`, if there is one. */
  method InsertBefore<V>(n: Node<V>, mark: Node?<V>) returns (r: Node<V>)
    requires mark != null ==> mark != n && mark.prev != n && mark.prev != mark
    modifies n, mark, if mark == null then null else mark.prev
    ensures r == n
    ensures mark != null ==> mark.prev == n && n.next == mark && mark.next == old(mark.next)
    ensures mark != null && old(mark.prev) != null ==>
              n.prev == old(mark.prev) && old(mark.prev).next == n && old(mark.prev).prev == old(mark.prev.prev)
    ensures mark == null || old(mark.prev) == null ==> n.prev == old(n.prev)
    ensures mark == null ==> n.next == old(n.next)
  {
    if mark != null {
      var beforeMark := mark.prev;
      mark.prev := n;
      n.next := mark;
      if beforeMark != null {
        n.prev := beforeMark;
        beforeMark.next := n;
      }
    }
    r := n;
  }

  ghost predicate Chain<V>(nodes: seq<Node<V>>)
    reads nodes
  {
    forall i | 0 <= i < |nodes| :: nodes[i].next == At(nodes, i + 1) && nodes[i].prev == At(nodes, i - 1)
  }

  /** The node at `k` carries entry `from + k`; a call also points to the next return with its id. */
  ghost predicate Carries<V>(nodes: seq<Node<V>>, h: seq<Entry<V>>, from: nat)
  {
    && from + |nodes| == |h|
    && forall k | 0 <= k < |nodes| ::
         && nodes[k].value == h[from + k].value && nodes[k].id == h[from + k].id
         && nodes[k].matching == MatchOf(nodes, h, from, k)
  }

  ghost function MatchOf<V>(nodes: seq<Node<V>>, h: seq<Entry<V>>, from: nat, k: nat): Node?<V>
    requires from + |nodes| == |h| && k < |nodes|
  {
    if h[from + k].kind == Call then At(nodes, Find(h, Return, h[from + k].id, from + k + 1) - from) else null
  }

  /** `matches` holds, for each id, the node of its first return in the part of the list built so far. */
  ghost predicate KnowsReturns<V>(matches: map<int, Node<V>>, nodes: seq<Node<V>>, h: seq<Entry<V>>, from: nat)
    requires from + |nodes| == |h|
  {
    && (forall id :: id in matches <==> Find(h, Return, id, from) < |h|)
    && (forall id | id in matches :: matches[id] == At(nodes, Find(h, Return, id, from) - from))
  }

  lemma FindFrom<V>(h: seq<Entry<V>>, from: nat, id: int)
    requires from < |h|
    ensures Find(h, Return, id, from) == if h[from].kind == Return
            && h[from].id == id then from else Find(h, Return, id, from + 1)
  {
  }

  lemma AtMore<V>(node: Node<V>, nodes: seq<Node<V>>, j: int)
    ensures j >= 1 ==> At([node] + nodes, j) == At(nodes, j - 1)
  {
  }

  lemma CarriesMore<V>(node: Node<V>, nodes: seq<Node<V>>, h: seq<Entry<V>>, from: nat, matches: map<int, Node<V>>)
    requires from < |h| && Carries(nodes, h, from + 1) && KnowsReturns(matches, nodes, h, from + 1)
    requires node.value == h[from].value && node.id == h[from].id
    requires node.matching == if h[from].kind == Call && node.id in matches then matches[node.id] else null
    ensures Carries([node] + nodes, h, from)
  {
    hide Find, At;
    var more := [node] + nodes;
    forall k | 0 <= k < |more|
      ensures more[k].value == h[from + k].value && more[k].id == h[from + k].id
      ensures more[k].matching == MatchOf(more, h, from, k)
    {
      AtMore(node, nodes, Find(h, Return, h[from + k].id, from + k + 1) - from);
      if k > 0 {
        assert more[k] == nodes[k - 1];
        assert nodes[k - 1].matching == MatchOf(nodes, h, from + 1, k - 1);
      } else {
        AtIsNull(nodes, |h| - from - 1);
      }
    }
  }

  lemma AtIsNull<V>(nodes: seq<Node<V>>, j: int)
    ensures j >= |nodes| ==> At(nodes, j) == null
  {
  }

  lemma KnowsReturnsMore<V>(node: Node<V>, nodes: seq<Node<V>>, h: seq<Entry<V>>, from: nat, matches: map<int, Node<V>>)
    requires from < |h| && from + 1 + |nodes| == |h| && KnowsReturns(matches, nodes, h, from + 1)
    requires node.id == h[from].id
    ensures KnowsReturns(if h[from].kind == Return then matches[node.id := node] else matches, [node] + nodes, h, from)
  {
    hide Find;
    forall id
      ensures Find(h, Return, id, from) == if h[from].kind == Return
              && h[from].id == id then from else Find(h, Return, id, from + 1)
    {
      FindFrom(h, from, id);
    }
    forall j | j >= 1
      ensures At([node] + nodes, j) == At(nodes, j - 1)
    {
      AtMore(node, nodes, j);
    }
  }

  lemma ChainMore<V>(node: Node<V>, nodes: seq<Node<V>>)
    requires forall i | 0 <= i < |nodes| ::
               nodes[i].next == At(nodes, i + 1) && (i > 0 ==> nodes[i].prev == At(nodes, i - 1))
    requires node.next == At(nodes, 0) && node.prev == null
    requires nodes != [] ==> nodes[0].prev == node
    ensures Chain([node] + nodes)
  {
    hide At;
    var more := [node] + nodes;
    forall i | 0 <= i < |more|
      ensures more[i].next == At(more, i + 1) && more[i].prev == At(more, i - 1)
    {
      AtMore(node, nodes, i + 1);
      AtMore(node, nodes, i - 1);
      assert At(more, 0) == node && At(more, -1) == null by { AtFirst(more); }
      if i > 0 {
        assert more[i] == nodes[i - 1];
      }
    }
  }

  lemma AtFirst<V>(nodes: seq<Node<V>>)
    ensures At(nodes, -1) == null && (nodes != [] ==> At(nodes, 0) == nodes[0])
  {
  }

  /** Puts a new node in front of the list. */
  method Prepend<V>(entry: Node<V>, root: Node?<V>, ghost nodes: seq<Node<V>>) returns (r: Node<V>)
    requires root == At(nodes, 0) && Chain(nodes) && Distinct(nodes)
    requires entry !in nodes && entry.next == null && entry.prev == null
    modifies entry, nodes
    ensures r == entry && Chain([entry] + nodes) && Distinct([entry] + nodes)
  {
    r := InsertBefore(entry, root);
    ChainMore(entry, nodes);
  }

  /** Builds the node of one more entry in front of the list. */
  method AddEntry<V>(elem: Entry<V>, root: Node?<V>, matches: map<int, Node<V>>, ghost nodes: seq<Node<V>>,
          ghost entries: seq<Entry<V>>, ghost i: nat)
    returns (root': Node<V>, matches': map<int, Node<V>>, ghost nodes': seq<Node<V>>)
    requires i < |entries| && elem == entries[i]
    requires root == At(nodes, 0) && Chain(nodes) && Distinct(nodes)
    requires i + 1 + |nodes| == |entries|
    requires Carries(nodes, entries, i + 1) && KnowsReturns(matches, nodes, entries, i + 1)
    modifies nodes
    ensures fresh(root') && nodes' == [root'] + nodes
    ensures Chain(nodes') && Distinct(nodes')
    ensures Carries(nodes', entries, i) && KnowsReturns(matches', nodes', entries, i)
  {
    hide Carries, KnowsReturns, Find, Chain, Distinct;
    var m: Node?<V> := if elem.kind == Call && elem.id in matches then matches[elem.id] else null;
    var entry := new Node(elem.value, m, elem.id);
    CarriesMore(entry, nodes, entries, i, matches);
    KnowsReturnsMore(entry, nodes, entries, i, matches);
    matches' := if elem.kind == Return then matches[elem.id := entry] else matches;
    root' := Prepend(entry, root, nodes);
    nodes' := [entry] + nodes;
  }

  method MakeLinkedEntries<V>(entries: seq<Entry<V>>) returns (root: Node?<V>, ghost nodes: seq<Node<V>>)
    ensures root == At(nodes, 0)
    ensures Carries(nodes, entries, 0) && Chain(nodes) && Distinct(nodes)
    ensures forall k | 0 <= k < |nodes| :: fresh(nodes[k])
  {
    root := null;
    nodes := [];
    var matches: map<int, Node<V>> := map[];
    var i := |entries|;
    assert Carries(nodes, entries, i) && KnowsReturns(matches, nodes, entries, i);
    hide Carries, KnowsReturns, Find, Chain, Distinct, At;
    while i > 0
      invariant 0 <= i <= |entries|
      invariant i + |nodes| == |entries| && root == At(nodes, 0)
      invariant Carries(nodes, entries, i) && Chain(nodes) && Distinct(nodes)
      invariant forall k | 0 <= k < |nodes| :: fresh(nodes[k])
      invariant KnowsReturns(matches, nodes, entries, i)
    {
      i := i - 1;
      root, matches, nodes := AddEntry(entries[i], root, matches, nodes, entries, i);
    }
  }

  /** The number of nodes from `n` on. */
  method Length<V>(n: Node?<V>, ghost nodes: seq<Node<V>>) returns (l: nat)
    requires n == At(nodes, 0) && Chain(nodes)
    ensures l == |nodes|
  {
    l := 0;
    var cur := n;
    while cur != null
      invariant l <= |nodes| && cur == At(nodes, l)
      decreases |nodes| - l
    {
      cur := cur.next;
      l := l + 1;
    }
  }

  /** The list as it is before any removal. */
  lemma ChainIsLinked<V>(all: seq<Node<V>>)
    requires Chain(all)
    ensures Linked(all, [])
  {
    forall i: nat | i < |all|
      ensures Pointers(all)[i] == LinksAfter(all, [])[i]
    {
      assert NextOf(|all|, [], i) == i + 1 && PrevOf([], i) == i - 1;
    }
  }

  // ----- what is reached by following the list -----

  /** The positions from `i` on that are not dead, in order. */
  function LiveFrom(n: nat, dead: set<int>, i: nat): seq<int>
    decreases n - i
  {
    if i >= n then [] else (if i in dead then [] else [i]) + LiveFrom(n, dead, i + 1)
  }

  /** Following next pointers from `node` visits exactly these positions, and each prev pointer
      leads back to the one before. */
  ghost predicate Visits<V>(all: seq<Node<V>>, from: Node?<V>, node: Node?<V>, positions: seq<int>)
    reads all
    decreases |positions|
  {
    if positions == [] then node == null
    else
      && 0 <= positions[0] < |all| && node == all[positions[0]]
      && node.prev == from && Visits(all, node, node.next, positions[1..])
  }

  lemma LiveFromNext(n: nat, dead: set<int>, i: nat)
    requires i < n && i !in dead
    ensures LiveFrom(n, dead, i) == [i] + LiveFrom(n, dead, NextIdx(n, dead, i))
  {
    LiveFromSkips(n, dead, i + 1, NextIdx(n, dead, i));
  }

  lemma {:induction false} LiveFromSkips(n: nat, dead: set<int>, i: nat, j: nat)
    requires i <= j <= n && forall k | i <= k < j :: k in dead
    ensures LiveFrom(n, dead, i) == LiveFrom(n, dead, j)
    decreases j - i
  {
    if i < j {
      LiveFromSkips(n, dead, i + 1, j);
    }
  }

  lemma PrevOfNext(n: nat, dead: set<int>, i: nat)
    requires i < n && i !in dead
    ensures var j := NextIdx(n, dead, i); j < n ==> PrevIdx(dead, j) == i
  {
  }

  /** After any removals, the list is the original one without the removed positions. */
  lemma {:induction false} ListIsWhatRemains<V>(all: seq<Node<V>>, removed: seq<int>, i: nat)
    requires Linked(all, removed) && i < |all| && i !in removed
    ensures Visits(all, all[i].prev, all[i], LiveFrom(|all|, Elems(removed), i))
    decreases |all| - i
  {
    hide NextIdx, PrevIdx, Elems;
    var dead, n := Elems(removed), |all|;
    ElemsIn(removed);
    LiveBefore(removed, i);
    var j := NextIdx(n, dead, i);
    LiveFromNext(n, dead, i);
    assert Pointers(all)[i] == LinksAfter(all, removed)[i];
    if j < n {
      LiveBefore(removed, j);
      PrevOfNext(n, dead, i);
      assert Pointers(all)[j] == LinksAfter(all, removed)[j];
      ListIsWhatRemains(all, removed, j);
    }
  }

  lemma LiveBefore(removed: seq<int>, i: int)
    requires i !in removed
    ensures Before(removed, i) == Elems(removed)
  {
    BeforeSnoc(removed, i, i);
  }

  // ----- lifting out a call and its return, and putting them back -----

  /** The pointers after the next pointer of `p` becomes `x` and the prev pointer of `q` becomes `y`. */
  ghost function Rewire<V>(all: seq<Node<V>>, links: seq<Links<V>>, p: int, q: int, x: int, y: int): (s: seq<Links<V>>)
    ensures |s| == |links|
    ensures forall i | 0 <= i < |s| ::
              s[i] == Links(if i == p then At(all, x) else links[i].next, if i == q then At(all, y) else links[i].prev)
  {
    seq(|links|, i requires 0 <= i < |links| =>
      Links(if i == p then At(all, x) else links[i].next, if i == q then At(all, y) else links[i].prev))
  }

  /** Joining the neighbours of a linked node removes it, and pointing them back at it restores
      every pointer: removal and restoration are inverse on the whole list. */
  lemma UnlinkAndRelink<V>(all: seq<Node<V>>, removed: seq<int>, x: nat)
    requires 1 <= x < |all| && x !in removed && 0 !in removed
    ensures var p, q := PrevOf(removed, x), NextOf(|all|, removed, x);
            && Rewire(all, LinksAfter(all, removed), p, q, q, p) == LinksAfter(all, removed + [x])
            && Rewire(all, LinksAfter(all, removed + [x]), p, q, x, x) == LinksAfter(all, removed)
  {
    hide NextOf, PrevOf, LinksAfter, Rewire;
    forall i: nat | i < |all| {
      RemovalChangesNeighbours(|all|, removed, x, i);
    }
  }

  lemma CallHasNeighbours(n: nat, removed: seq<int>, c: nat, r: nat)
    requires 1 <= c <= r < n && c !in removed && r !in removed && 0 !in removed
    ensures 0 <= PrevOf(removed, c) < c < NextOf(n, removed, c) <= n
    ensures c < r ==> NextOf(n, removed, c) <= r
    ensures PrevOf(removed + [c], c) == PrevOf(removed, c) && NextOf(n, removed + [c], c) == NextOf(n, removed, c)
  {
    BeforeSnoc(removed, c, c);
    ElemsIn(removed);
  }

  /** Joins the neighbours of a node, which keeps its own pointers. */
  method Unlink<V>(node: Node<V>, ghost all: seq<Node<V>>, ghost removed: seq<int>, ghost x: nat)
    requires Distinct(all) && Linked(all, removed)
    requires 1 <= x < |all| && x !in removed && 0 !in removed && all[x] == node
    modifies all
    ensures Linked(all, removed + [x])
  {
    ghost var p, q := PrevOf(removed, x), NextOf(|all|, removed, x);
    CallHasNeighbours(|all|, removed, x, x);
    UnlinkAndRelink(all, removed, x);
    hide NextOf, PrevOf, LinksAfter, Rewire, Pointers;
    assert node.next == At(all, q) && node.prev == At(all, p) by {
      assert Pointers(all)[x] == LinksAfter(all, removed)[x];
    }
    JoinNeighbours(node, all, p, q);
  }

  method JoinNeighbours<V>(node: Node<V>, ghost all: seq<Node<V>>, ghost p: int, ghost q: int)
    requires Distinct(all) && node in all
    requires 0 <= p < q <= |all| && node.prev == all[p] && node.next == At(all, q)
    modifies all
    ensures Pointers(all) == Rewire(all, old(Pointers(all)), p, q, q, p)
  {
    node.prev.next := node.next;
    if node.next != null {
      node.next.prev := node.prev;
    }
    assert forall i | 0 <= i < |all| :: all[i].next == (if i == p then At(all, q) else old(all[i].next));
    assert forall i | 0 <= i < |all| :: all[i].prev == (if i == q then At(all, p) else old(all[i].prev));
    hide At, Distinct;
  }

  /** Points the neighbours a node remembers back at it. */
  method Relink<V>(node: Node<V>, ghost all: seq<Node<V>>, ghost removed: seq<int>, ghost x: nat)
    requires Distinct(all) && Linked(all, removed + [x])
    requires 1 <= x < |all| && x !in removed && 0 !in removed && all[x] == node
    modifies all
    ensures Linked(all, removed)
  {
    ghost var p, q := PrevOf(removed, x), NextOf(|all|, removed, x);
    CallHasNeighbours(|all|, removed, x, x);
    UnlinkAndRelink(all, removed, x);
    hide NextOf, PrevOf, LinksAfter, Rewire, Pointers;
    assert node.next == At(all, q) && node.prev == At(all, p) by {
      assert Pointers(all)[x] == LinksAfter(all, removed + [x])[x];
    }
    PointNeighbours(node, all, p, x, q);
  }

  method PointNeighbours<V>(node: Node<V>, ghost all: seq<Node<V>>, ghost p: int, ghost x: int, ghost q: int)
    requires Distinct(all)
    requires 0 <= p < x < q <= |all| && all[x] == node && node.prev == all[p] && node.next == At(all, q)
    modifies all
    ensures Pointers(all) == Rewire(all, old(Pointers(all)), p, q, x, x)
  {
    node.prev.next := node;
    if node.next != null {
      node.next.prev := node;
    }
    assert forall i | 0 <= i < |all| :: all[i].next == (if i == p then At(all, x) else old(all[i].next));
    assert forall i | 0 <= i < |all| :: all[i].prev == (if i == q then At(all, x) else old(all[i].prev));
    hide At, Distinct;
  }

  /** Takes a call and its return out of the list. */
  method Lift<V>(entry: Node<V>, ghost all: seq<Node<V>>, ghost removed: seq<int>, ghost c: nat, ghost r: nat)
    requires Distinct(all) && Linked(all, removed)
    requires 1 <= c < r < |all| && c !in removed && r !in removed && 0 !in removed
    requires all[c] == entry && entry.matching == all[r]
    modifies all
    ensures Linked(all, removed + [c] + [r])
  {
    Unlink(entry, all, removed, c);
    Unlink(entry.matching, all, removed + [c], r);
  }

  /** Undoes `Lift`: every pointer of every node is what it was before. */
  method Unlift<V>(entry: Node<V>, ghost all: seq<Node<V>>, ghost removed: seq<int>, ghost c: nat, ghost r: nat)
    requires Distinct(all) && Linked(all, removed + [c] + [r])
    requires 1 <= c < r < |all| && c !in removed && r !in removed && 0 !in removed
    requires all[c] == entry && entry.matching == all[r]
    modifies all
    ensures Linked(all, removed)
  {
    Relink(entry.matching, all, removed + [c], r);
    Relink(entry, all, removed, c);
  }
}
