/**
 SPTcpBufferPool: one allocation is carved into read nodes and write nodes that share a reference
 count.  Free nodes sit on two intrusive lists threaded through the allocated memory itself.

 Memory is a set of maps from addresses; an address that has been freed is in none of them, so
 every access below is also a proof that the memory is still allocated.
 */
module BufferPool {
  import opened Words
  import opened BufferLayout

  const NULL := 0

  /** What malloc returned: its length, and the count kept in its header. */
  datatype Block = Block(extent: nat, refCount: nat)

  /** What a carved node holds: node[0], node[1], and its length, pointers included. */
  datatype Node = Node(owner: int, next: int, span: nat)

  /** Live memory: allocated blocks and the nodes carved from them, by address. */
  datatype Heap = Heap(blocks: map<int, Block>, nodes: map<int, Node>)

  function Elements(s: seq<int>): set<int>
  {
    if s == [] then {} else {s[0]} + Elements(s[1..])
  }

  predicate Distinct(s: seq<int>)
  {
    s == [] || (s[0] !in Elements(s[1..]) && Distinct(s[1..]))
  }

  lemma {:induction false} ElementsAt(s: seq<int>, i: nat)
    requires i < |s|
    ensures s[i] in Elements(s)
  {
    if i > 0 {
      ElementsAt(s[1..], i - 1);
    }
  }

  lemma {:induction false} ElementIndex(s: seq<int>, x: int) returns (i: nat)
    requires x in Elements(s)
    ensures i < |s| && s[i] == x
  {
    if s[0] == x {
      i := 0;
    } else {
      i := ElementIndex(s[1..], x);
      i := i + 1;
    }
  }

  lemma PushDistinct(x: int, s: seq<int>)
    requires Distinct(s) && x !in Elements(s)
    ensures Distinct([x] + s) && Elements([x] + s) == Elements(s) + {x}
  {
    assert ([x] + s)[1..] == s;
  }

  lemma {:induction false} ConcatDistinct(c: seq<int>, l: seq<int>)
    requires Distinct(c) && Distinct(l) && Elements(c) !! Elements(l)
    ensures Distinct(c + l) && Elements(c + l) == Elements(c) + Elements(l)
  {
    if c == [] {
      assert c + l == l;
    } else {
      ConcatDistinct(c[1..], l);
      assert c + l == [c[0]] + (c[1..] + l);
      PushDistinct(c[0], c[1..] + l);
    }
  }

  lemma {:induction false} IndicesDistinct(s: seq<int>)
    requires forall i, j :: 0 <= i < j < |s| ==> s[i] != s[j]
    ensures Distinct(s)
  {
    if s != [] {
      IndicesDistinct(s[1..]);
      if s[0] in Elements(s[1..]) {
        var i := ElementIndex(s[1..], s[0]);
        assert false;
      }
    }
  }

  lemma {:induction false} RemoveDistinct(s: seq<int>, k: nat)
    requires Distinct(s) && k < |s|
    ensures var t := s[..k] + s[k + 1..];
            Distinct(t) && Elements(t) == Elements(s) - {s[k]} && s[k] in Elements(s)
  {
    if k == 0 {
      assert s[..0] + s[1..] == s[1..];
    } else {
      RemoveDistinct(s[1..], k - 1);
      var t := s[1..][..k - 1] + s[1..][k..];
      assert s[..k] + s[k + 1..] == [s[0]] + t;
      PushDistinct(s[0], t);
    }
  }

  /** `list` is the chain of nodes that starts at `head` and ends at a null pointer. */
  predicate Linked(nodes: map<int, Node>, head: int, list: seq<int>)
    decreases |list|
  {
    if list == [] then head == NULL
    else head == list[0] && head != NULL && head in nodes && Linked(nodes, nodes[head].next, list[1..])
  }

  /** A chain depends on nothing but its own nodes. */
  lemma {:induction false} LinkedFrame(n: map<int, Node>, n': map<int, Node>, head: int, list: seq<int>)
    requires Linked(n, head, list)
    requires forall a :: a in Elements(list) && a in n ==> a in n' && n'[a] == n[a]
    ensures Linked(n', head, list)
    decreases |list|
  {
    if list != [] {
      LinkedFrame(n, n', n[head].next, list[1..]);
    }
  }

  /** The live nodes carved from block `b`. */
  function NodesOf(h: Heap, live: set<int>, b: int): set<int>
  {
    set a | a in live && a in h.nodes && h.nodes[a].owner == b
  }

  /** `[b, b + size)` overlaps no live block. */
  predicate Unused(h: Heap, b: int, size: nat)
  {
    forall c :: c in h.blocks ==> Apart(b, size, c, h.blocks[c].extent)
  }

  /** Two different live blocks do not overlap. */
  predicate ClearBlocks(h: Heap, b: int, c: int)
  {
    b in h.blocks && c in h.blocks && b != c ==> Apart(b, h.blocks[b].extent, c, h.blocks[c].extent)
  }

  ghost predicate BlocksApart(h: Heap)
  {
    && (forall b :: b in h.blocks ==> b > NULL && h.blocks[b].extent > HEADER)
    && (forall b, c {:trigger ClearBlocks(h, b, c)} :: ClearBlocks(h, b, c))
  }

  /** A node lies inside its block, behind the header. */
  predicate Inside(h: Heap, a: int)
    requires a in h.nodes
  {
    var n := h.nodes[a];
    n.span > META && n.owner in h.blocks && n.owner + HEADER <= a && a + n.span <= n.owner + h.blocks[n.owner].extent
  }

  ghost predicate NodesInside(h: Heap)
  {
    forall a {:trigger Inside(h, a)} :: a in h.nodes ==> Inside(h, a)
  }

  /** Two different nodes do not overlap. */
  predicate Clear(m: map<int, Node>, a: int, b: int)
  {
    a in m && b in m && a != b ==> Apart(a, m[a].span, b, m[b].span)
  }

  ghost predicate NodesApart(m: map<int, Node>)
  {
    forall a, b {:trigger Clear(m, a, b)} :: Clear(m, a, b)
  }

  /** Every live block counts exactly its live nodes, and has some: none is leaked, none dangles. */
  ghost predicate Counted(h: Heap, live: set<int>)
  {
    && live <= h.nodes.Keys
    && (forall b {:trigger NodesOf(h, live, b)} :: b in h.blocks ==> h.blocks[b].refCount == |NodesOf(h, live, b)| > 0)
  }

  ghost predicate Sound(h: Heap, live: set<int>)
  {
    BlocksApart(h) && NodesInside(h) && NodesApart(h.nodes) && Counted(h, live)
  }

  /** `--refCount` of the block of node `a`, and `free` of the block when that reaches zero. */
  function Dropped(h: Heap, a: int): Heap
    requires a in h.nodes && h.nodes[a].owner in h.blocks && h.blocks[h.nodes[a].owner].refCount > 0
  {
    var b := h.nodes[a].owner;
    var count := h.blocks[b].refCount - 1;
    if count == 0 then Freed(h, b) else h.(blocks := h.blocks[b := h.blocks[b].(refCount := count)])
  }

  /** The heap after `free(b)`: the block and every node in it are gone. */
  function Freed(h: Heap, b: int): Heap
  {
    Heap(h.blocks - {b}, map a | a in h.nodes && h.nodes[a].owner != b :: h.nodes[a])
  }

  /** Dropping a live node keeps the heap sound for the others, and frees the block exactly when it
      was the last live node of it. */
  lemma DroppedSound(h: Heap, live: set<int>, a: int)
    requires Sound(h, live) && a in live
    ensures Inside(h, a) && h.blocks[h.nodes[a].owner].refCount > 0
    ensures Sound(Dropped(h, a), live - {a})
    ensures Dropped(h, a).blocks.Keys
              == h.blocks.Keys - if NodesOf(h, live, h.nodes[a].owner) == {a} then {h.nodes[a].owner} else {}
  {
    assert Inside(h, a);
    DroppedCounted(h, live, a);
    var d := Dropped(h, a);
    forall x | x in d.nodes ensures Inside(d, x) {
      assert Inside(h, x);
    }
    forall x, y ensures Clear(d.nodes, x, y) {
      assert Clear(h.nodes, x, y);
    }
    forall b, c ensures ClearBlocks(d, b, c) {
      assert ClearBlocks(h, b, c);
    }
  }

  lemma DroppedCounted(h: Heap, live: set<int>, a: int)
    requires Counted(h, live) && NodesInside(h) && a in live
    ensures Inside(h, a) && h.blocks[h.nodes[a].owner].refCount > 0
    ensures Counted(Dropped(h, a), live - {a})
    ensures h.blocks[h.nodes[a].owner].refCount == 1 <==> NodesOf(h, live, h.nodes[a].owner) == {a}
  {
    assert Inside(h, a);
    var b := h.nodes[a].owner;
    assert h.blocks[b].refCount == |NodesOf(h, live, b)| > 0;
    var d := Dropped(h, a);
    assert NodesOf(h, live, b) == NodesOf(h, live - {a}, b) + {a};
    if h.blocks[b].refCount == 1 {
      assert NodesOf(h, live - {a}, b) == {};
      assert forall x :: x in live - {a} ==> (x in NodesOf(h, live - {a}, b) <==> h.nodes[x].owner == b);
    }
    forall c | c in d.blocks ensures d.blocks[c].refCount == |NodesOf(d, live - {a}, c)| > 0 {
      if c == b {
        assert NodesOf(d, live - {a}, c) == NodesOf(h, live - {a}, b);
      } else {
        assert NodesOf(d, live - {a}, c) == NodesOf(h, live, c);
      }
    }
  }

  /** `nodes` lie inside `[base, base + size)`, behind the header, without overlap. */
  ghost predicate Fits(base: int, size: nat, nodes: map<int, Node>)
  {
    && base > NULL && size > HEADER && |nodes| > 0
    && (forall a :: a in nodes ==>
          nodes[a].owner == base && nodes[a].span > META && base + HEADER <= a && a + nodes[a].span <= base + size)
    && NodesApart(nodes)
  }

  /** `h` with one more block, carved into `nodes`, all of them counted. */
  function Carved(h: Heap, base: int, size: nat, nodes: map<int, Node>): Heap
  {
    Heap(h.blocks[base := Block(size, |nodes|)], h.nodes + nodes)
  }

  /** A fresh block, and so every node in it, overlaps nothing that is already there. */
  lemma NewApartFromOld(h: Heap, base: int, size: nat, nodes: map<int, Node>, a: int, b: int)
    requires NodesInside(h) && Unused(h, base, size) && Fits(base, size, nodes) && a in h.nodes && b in nodes
    ensures Apart(a, h.nodes[a].span, b, nodes[b].span) && a != b
  {
    assert Inside(h, a);
    assert Apart(base, size, h.nodes[a].owner, h.blocks[h.nodes[a].owner].extent);
  }

  lemma CarvedBlocksApart(h: Heap, base: int, size: nat, nodes: map<int, Node>)
    requires BlocksApart(h) && Unused(h, base, size) && base > NULL && size > HEADER
    ensures base !in h.blocks && BlocksApart(Carved(h, base, size, nodes))
  {
    var g := Carved(h, base, size, nodes);
    forall b, c ensures ClearBlocks(g, b, c) {
      assert ClearBlocks(h, b, c);
    }
  }

  lemma CarvedApart(h: Heap, base: int, size: nat, nodes: map<int, Node>)
    requires NodesInside(h) && NodesApart(h.nodes) && Unused(h, base, size) && Fits(base, size, nodes)
    ensures nodes.Keys !! h.nodes.Keys && NodesApart(Carved(h, base, size, nodes).nodes)
  {
    forall a, b | a in h.nodes && b in nodes ensures Apart(a, h.nodes[a].span, b, nodes[b].span) && a != b {
      NewApartFromOld(h, base, size, nodes, a, b);
    }
    forall a, b ensures Clear(Carved(h, base, size, nodes).nodes, a, b) {
      assert Clear(h.nodes, a, b) && Clear(nodes, a, b);
    }
  }

  lemma CarvedInside(h: Heap, base: int, size: nat, nodes: map<int, Node>)
    requires NodesInside(h) && base !in h.blocks && Fits(base, size, nodes)
    ensures NodesInside(Carved(h, base, size, nodes))
  {
    var g := Carved(h, base, size, nodes);
    forall a | a in g.nodes ensures Inside(g, a) {
      if a !in nodes {
        assert Inside(h, a);
      }
    }
  }

  lemma CarvedNodesOf(h: Heap, live: set<int>, base: int, size: nat, nodes: map<int, Node>, b: int)
    requires live <= h.nodes.Keys && nodes.Keys !! h.nodes.Keys
    requires forall a :: a in nodes ==> nodes[a].owner == base
    requires forall a :: a in h.nodes ==> h.nodes[a].owner != base
    ensures NodesOf(Carved(h, base, size, nodes), live + nodes.Keys, b)
              == if b == base then nodes.Keys else NodesOf(h, live, b)
  {
    var g := Carved(h, base, size, nodes);
    forall a ensures a in NodesOf(g, live + nodes.Keys, b)
                     <==> a in if b == base then nodes.Keys else NodesOf(h, live, b)
    {
      if a in nodes {
        assert g.nodes[a] == nodes[a];
      } else if a in h.nodes {
        assert g.nodes[a] == h.nodes[a];
      }
    }
  }

  lemma CarvedCounted(h: Heap, live: set<int>, base: int, size: nat, nodes: map<int, Node>)
    requires Counted(h, live) && NodesInside(h) && base !in h.blocks && nodes.Keys !! h.nodes.Keys
    requires |nodes| > 0 && forall a :: a in nodes ==> nodes[a].owner == base
    ensures Counted(Carved(h, base, size, nodes), live + nodes.Keys)
  {
    var g := Carved(h, base, size, nodes);
    forall a | a in h.nodes ensures h.nodes[a].owner != base {
      assert Inside(h, a);
    }
    assert |nodes.Keys| == |nodes|;
    forall b | b in g.blocks ensures g.blocks[b].refCount == |NodesOf(g, live + nodes.Keys, b)| > 0 {
      CarvedNodesOf(h, live, base, size, nodes, b);
    }
  }

  /** Carving a fresh block into nodes keeps the heap sound, with every new node live. */
  lemma CarvedSound(h: Heap, live: set<int>, base: int, size: nat, nodes: map<int, Node>)
    requires Sound(h, live) && Unused(h, base, size) && Fits(base, size, nodes)
    ensures base !in h.blocks && nodes.Keys !! h.nodes.Keys
    ensures Sound(Carved(h, base, size, nodes), live + nodes.Keys)
  {
    CarvedBlocksApart(h, base, size, nodes);
    CarvedApart(h, base, size, nodes);
    CarvedInside(h, base, size, nodes);
    CarvedCounted(h, live, base, size, nodes);
  }

  /** One kind of buffer: the head of its free list, the list it starts, and the nodes handed out. */
  datatype Side = Side(head: int, list: seq<int>, out: set<int>)
  {
    function Nodes(): set<int> { Elements(list) + out }
  }

  /** The chain is intact and duplicate-free, no handed-out node is on it, and every node is allocated
      with the length of its kind. */
  ghost predicate SideOk(h: Heap, s: Side, span: nat)
  {
    && Linked(h.nodes, s.head, s.list) && Distinct(s.list) && Elements(s.list) !! s.out
    && s.Nodes() <= h.nodes.Keys && NULL !in s.Nodes()
    && (forall a :: a in s.Nodes() ==> h.nodes[a].span == span)
  }

  /** Only the links of nodes on the list matter to a side, and the lengths of all its nodes. */
  lemma SideFrame(h: Heap, g: Heap, s: Side, span: nat)
    requires SideOk(h, s, span)
    requires s.Nodes() <= g.nodes.Keys && forall a :: a in s.Nodes() ==> g.nodes[a] == h.nodes[a]
    ensures SideOk(g, s, span)
  {
    LinkedFrame(h.nodes, g.nodes, s.head, s.list);
  }

  /** Handing out the head of the list. */
  lemma SideTake(h: Heap, s: Side, span: nat)
    requires SideOk(h, s, span) && s.list != []
    ensures s.head in h.nodes && s.head !in s.out && s.head == s.list[0]
    ensures var t := Side(h.nodes[s.head].next, s.list[1..], s.out + {s.head});
            SideOk(h, t, span) && t.Nodes() == s.Nodes()
  {
  }

  /** Taking a handed-out node back onto the front of the list. */
  lemma SidePut(h: Heap, s: Side, span: nat, a: int)
    requires SideOk(h, s, span) && a in s.out
    ensures a in h.nodes
    ensures var g := h.(nodes := h.nodes[a := h.nodes[a].(next := s.head)]);
            var t := Side(a, [a] + s.list, s.out - {a});
            SideOk(g, t, span) && t.Nodes() == s.Nodes()
  {
    PushDistinct(a, s.list);
    assert a in s.Nodes();
    var g := h.(nodes := h.nodes[a := h.nodes[a].(next := s.head)]);
    LinkedFrame(h.nodes, g.nodes, s.head, s.list);
    assert ([a] + s.list)[1..] == s.list;
  }

  /** Relinking a node changes neither placement nor counts. */
  lemma RelinkedSound(h: Heap, live: set<int>, a: int, x: int)
    requires Sound(h, live) && a in h.nodes
    ensures Sound(h.(nodes := h.nodes[a := h.nodes[a].(next := x)]), live)
  {
    var g := h.(nodes := h.nodes[a := h.nodes[a].(next := x)]);
    forall b | b in g.nodes ensures Inside(g, b) {
      assert Inside(h, b);
    }
    forall b, c ensures Clear(g.nodes, b, c) && ClearBlocks(g, b, c) {
      assert Clear(h.nodes, b, c) && ClearBlocks(h, b, c);
    }
    forall b | b in g.blocks ensures NodesOf(g, live, b) == NodesOf(h, live, b) {
    }
  }

  /** Dropping a node leaves every other live node where and as it was. */
  lemma DroppedFrame(h: Heap, live: set<int>, a: int)
    requires Sound(h, live) && a in live
    ensures Inside(h, a) && h.blocks[h.nodes[a].owner].refCount > 0
    ensures forall x :: x in live - {a} ==> x in Dropped(h, a).nodes && Dropped(h, a).nodes[x] == h.nodes[x]
  {
    DroppedCounted(h, live, a);
  }

  /** The first `i` of `num` nodes carved from `start` on, chained to each other and then to `tail`. */
  function CellMap(owner: int, start: int, stride: nat, num: nat, tail: int, i: nat): map<int, Node>
    requires i <= num
  {
    if i == 0 then map[] else
      var at := start + Bytes(stride, i - 1);
      CellMap(owner, start, stride, num, tail, i - 1)
        [at := Node(owner, if i - 1 < num - 1 then at + stride else tail, stride)]
  }

  lemma {:induction false} CellMapAt(owner: int, start: int, stride: nat, num: nat, tail: int, i: nat, k: nat)
    requires k < i <= num && stride > 0
    ensures var c := Cells(start, stride, num);
            && c[k] in CellMap(owner, start, stride, num, tail, i)
            && CellMap(owner, start, stride, num, tail, i)[c[k]]
                 == Node(owner, if k + 1 < num then c[k + 1] else tail, stride)
  {
    if k < i - 1 {
      CellMapAt(owner, start, stride, num, tail, i - 1, k);
      BytesStep(stride, k, i - 1);
    }
  }

  /** The carved nodes fill `[start, start + Bytes(stride, i))` without overlap, and there are `i` of them. */
  lemma {:induction false} CellMapFills(owner: int, start: int, stride: nat, num: nat, tail: int, i: nat)
    requires i <= num && stride > 0
    ensures var m := CellMap(owner, start, stride, num, tail, i);
            && |m| == i
            && (forall a :: a in m ==> start <= a && a + stride <= start + Bytes(stride, i))
            && (forall a :: a in m ==> m[a].owner == owner && m[a].span == stride)
            && NodesApart(m)
  {
    if i > 0 {
      CellMapFills(owner, start, stride, num, tail, i - 1);
      forall a, b ensures Clear(CellMap(owner, start, stride, num, tail, i), a, b) {
        assert Clear(CellMap(owner, start, stride, num, tail, i - 1), a, b);
      }
    }
  }

  lemma CellMapKeys(owner: int, start: int, stride: nat, num: nat, tail: int)
    requires stride > 0
    ensures CellMap(owner, start, stride, num, tail, num).Keys == Elements(Cells(start, stride, num))
  {
    CellMapOnlyCells(owner, start, stride, num, tail, num);
    forall x | x in Elements(Cells(start, stride, num)) ensures x in CellMap(owner, start, stride, num, tail, num) {
      var k := ElementIndex(Cells(start, stride, num), x);
      CellMapAt(owner, start, stride, num, tail, num, k);
    }
  }

  lemma {:induction false} CellMapOnlyCells(owner: int, start: int, stride: nat, num: nat, tail: int, i: nat)
    requires i <= num
    ensures CellMap(owner, start, stride, num, tail, i).Keys <= Elements(Cells(start, stride, num))
  {
    if i > 0 {
      CellMapOnlyCells(owner, start, stride, num, tail, i - 1);
      ElementsAt(Cells(start, stride, num), i - 1);
    }
  }

  lemma CellsDistinct(start: int, stride: nat, num: nat)
    requires stride > 0
    ensures Distinct(Cells(start, stride, num))
  {
    forall i, j | 0 <= i < j < num ensures Cells(start, stride, num)[i] != Cells(start, stride, num)[j] {
      BytesStep(stride, i, j);
    }
    IndicesDistinct(Cells(start, stride, num));
  }

  /** Each node of `c` links to the next, and the last one to `tail`. */
  predicate Links(m: map<int, Node>, c: seq<int>, tail: int)
  {
    c == [] || (c[0] in m && m[c[0]].next == (if |c| == 1 then tail else c[1]) && Links(m, c[1..], tail))
  }

  /** `m` is the chain `c` of nodes of length `span`, linked in order and then to `tail`. */
  ghost predicate Chained(m: map<int, Node>, c: seq<int>, tail: int, span: nat)
  {
    && c != [] && Distinct(c) && Elements(c) == m.Keys && NULL !in m
    && (forall a :: a in m ==> m[a].span == span)
    && Links(m, c, tail)
  }

  lemma CellsChained(owner: int, start: int, stride: nat, num: nat, tail: int)
    requires num > 0 && stride > 0 && start > NULL
    ensures Chained(CellMap(owner, start, stride, num, tail, num), Cells(start, stride, num), tail, stride)
    ensures Cells(start, stride, num)[0] == start
  {
    CellMapKeys(owner, start, stride, num, tail);
    CellMapFills(owner, start, stride, num, tail, num);
    CellsDistinct(start, stride, num);
    CellMapLinks(owner, start, stride, num, tail, 0);
    assert Cells(start, stride, num)[0..] == Cells(start, stride, num);
  }

  lemma {:induction false} CellMapLinks(owner: int, start: int, stride: nat, num: nat, tail: int, k: nat)
    requires stride > 0 && k <= num
    ensures Links(CellMap(owner, start, stride, num, tail, num), Cells(start, stride, num)[k..], tail)
    decreases num - k
  {
    var c := Cells(start, stride, num);
    if k < num {
      CellMapAt(owner, start, stride, num, tail, num, k);
      CellMapLinks(owner, start, stride, num, tail, k + 1);
      assert c[k..][1..] == c[k + 1..] && c[k..][0] == c[k];
    }
  }

  /** Following the links of a chain leads through all of it into the list its last node links to. */
  lemma {:induction false} LinksLinked(nodes: map<int, Node>, m: map<int, Node>, c: seq<int>, tail: int, list: seq<int>)
    requires Links(m, c, tail) && NULL !in Elements(c) && Linked(nodes, tail, list)
    requires m.Keys <= nodes.Keys && forall a :: a in m ==> nodes[a] == m[a]
    ensures Linked(nodes, if c == [] then tail else c[0], c + list)
  {
    if c == [] {
      assert c + list == list;
    } else {
      LinksLinked(nodes, m, c[1..], tail, list);
      assert (c + list)[1..] == c[1..] + list && (c + list)[0] == c[0];
    }
  }

  /** `g` holds everything `h` holds, and the new nodes `m`. */
  ghost predicate Extends(h: Heap, g: Heap, m: map<int, Node>)
  {
    && m.Keys !! h.nodes.Keys
    && m.Keys <= g.nodes.Keys && (forall a :: a in m ==> g.nodes[a] == m[a])
    && h.nodes.Keys <= g.nodes.Keys && (forall a :: a in h.nodes ==> g.nodes[a] == h.nodes[a])
  }

  /** A new chain that ends in the head of a side's list goes in front of that list. */
  lemma SideGrown(h: Heap, g: Heap, s: Side, span: nat, c: seq<int>, m: map<int, Node>)
    requires SideOk(h, s, span) && Chained(m, c, s.head, span) && Extends(h, g, m)
    ensures var t := Side(c[0], c + s.list, s.out);
            SideOk(g, t, span) && t.Nodes() == s.Nodes() + m.Keys
  {
    LinkedFrame(h.nodes, g.nodes, s.head, s.list);
    LinksLinked(g.nodes, m, c, s.head, s.list);
    ConcatDistinct(c, s.list);
  }

  /** The pool as a value: memory, the two sides, and what malloc and free have been called with. */
  datatype Pool = Pool(heap: Heap, rd: Side, wr: Side, mallocs: multiset<int>, frees: multiset<int>)
  {
    function Live(): set<int> { rd.Nodes() + wr.Nodes() }
  }

  /** The pool invariant: sound memory, two intact and disjoint sides, and every block that was ever
      allocated is either live or has been freed once for each time it was allocated. */
  ghost predicate Shape(p: Pool, r: nat, w: nat)
  {
    && Sound(p.heap, p.Live())
    && SideOk(p.heap, p.rd, r) && SideOk(p.heap, p.wr, w) && p.rd.Nodes() !! p.wr.Nodes()
    && Balanced(p.mallocs, p.frees, p.heap.blocks.Keys)
  }

  /** Every address malloc has returned was passed to free as often, once less if its block is live. */
  ghost predicate Balanced(mallocs: multiset<int>, frees: multiset<int>, live: set<int>)
  {
    forall b {:trigger mallocs[b]} :: mallocs[b] == frees[b] + if b in live then 1 else 0
  }

  /** The same pool with the roles of the two sides exchanged. */
  function Mirror(p: Pool): Pool
  {
    Pool(p.heap, p.wr, p.rd, p.mallocs, p.frees)
  }

  lemma MirrorShape(p: Pool, r: nat, w: nat)
    ensures Shape(p, r, w) <==> Shape(Mirror(p), w, r)
  {
    assert Mirror(p).Live() == p.Live();
  }

  /** The head of the read list is handed out. */
  function Taken(p: Pool): Pool
    requires p.rd.list != [] && p.rd.head in p.heap.nodes
  {
    p.(rd := Side(p.heap.nodes[p.rd.head].next, p.rd.list[1..], p.rd.out + {p.rd.head}))
  }

  lemma TakenShape(p: Pool, r: nat, w: nat)
    requires Shape(p, r, w) && p.rd.list != []
    ensures p.rd.head in p.heap.nodes && p.rd.head == p.rd.list[0] && p.rd.head !in p.rd.out + p.wr.Nodes()
    ensures Shape(Taken(p), r, w) && Taken(p).rd.Nodes() == p.rd.Nodes()
  {
    SideTake(p.heap, p.rd, r);
    assert Taken(p).Live() == p.Live();
    assert p.rd.head in p.rd.Nodes();
  }

  /** The handed-out read node `a` goes back to the front of the read list. */
  function Put(p: Pool, a: int): Pool
    requires a in p.heap.nodes
  {
    p.(heap := p.heap.(nodes := p.heap.nodes[a := p.heap.nodes[a].(next := p.rd.head)]),
       rd := Side(a, [a] + p.rd.list, p.rd.out - {a}))
  }

  lemma PutShape(p: Pool, r: nat, w: nat, a: int)
    requires Shape(p, r, w) && a in p.rd.out
    ensures a in p.heap.nodes && Shape(Put(p, a), r, w)
  {
    SidePut(p.heap, p.rd, r, a);
    RelinkedSound(p.heap, p.Live(), a, p.rd.head);
    assert Put(p, a).Live() == p.Live();
    assert a in p.rd.Nodes();
    SideFrame(p.heap, Put(p, a).heap, p.wr, w);
  }

  /** What `--refCount` on the block of node `a` passes to free. */
  function FreedWith(h: Heap, a: int): multiset<int>
    requires a in h.nodes && h.nodes[a].owner in h.blocks
  {
    if h.blocks[h.nodes[a].owner].refCount == 1 then multiset{h.nodes[a].owner} else multiset{}
  }

  /** The handed-out read node `a` is given up: its block loses one count, and goes when that was the last. */
  function Retired(p: Pool, a: int): Pool
    requires a in p.heap.nodes && p.heap.nodes[a].owner in p.heap.blocks
    requires p.heap.blocks[p.heap.nodes[a].owner].refCount > 0
  {
    p.(heap := Dropped(p.heap, a), rd := p.rd.(out := p.rd.out - {a}), frees := p.frees + FreedWith(p.heap, a))
  }

  lemma RetiredShape(p: Pool, r: nat, w: nat, a: int)
    requires Shape(p, r, w) && a in p.rd.out
    ensures Inside(p.heap, a) && p.heap.blocks[p.heap.nodes[a].owner].refCount > 0
    ensures Shape(Retired(p, a), r, w)
  {
    DroppedSound(p.heap, p.Live(), a);
    DroppedFrame(p.heap, p.Live(), a);
    DroppedCounted(p.heap, p.Live(), a);
    var q := Retired(p, a);
    assert q.Live() == p.Live() - {a};
    SideLoses(p.heap, q.heap, p.rd, r, a);
    SideFrame(p.heap, q.heap, p.wr, w);
  }

  lemma SideLoses(h: Heap, g: Heap, s: Side, span: nat, a: int)
    requires SideOk(h, s, span) && a in s.out
    requires s.Nodes() - {a} <= g.nodes.Keys && forall x :: x in s.Nodes() - {a} ==> g.nodes[x] == h.nodes[x]
    ensures SideOk(g, s.(out := s.out - {a}), span)
  {
    LinkedFrame(h.nodes, g.nodes, s.head, s.list);
  }

  /** The run of all `num` nodes, up to the address where it ends. */
  ghost predicate Run(m: map<int, Node>, owner: int, start: int, end: int, stride: nat)
  {
    && (forall a :: a in m ==> start <= a && a + stride <= end && m[a].owner == owner && m[a].span == stride)
    && NodesApart(m)
  }

  lemma CellMapRun(owner: int, start: int, stride: nat, num: nat, tail: int, end: int)
    requires stride > 0 && end == start + Bytes(stride, num)
    ensures Run(CellMap(owner, start, stride, num, tail, num), owner, start, end, stride)
    ensures |CellMap(owner, start, stride, num, tail, num)| == num
  {
    CellMapFills(owner, start, stride, num, tail, num);
  }

  /** Two runs of nodes, one before `mid` and one after it, fit together. */
  lemma RunsFit(base: int, mid: int, size: nat, r: nat, w: nat, rm: map<int, Node>, wm: map<int, Node>)
    requires base > NULL && size > HEADER && |rm| > 0 && r > META && w > META && base + HEADER <= mid <= base + size
    requires Run(rm, base, base + HEADER, mid, r) && Run(wm, base, mid, base + size, w)
    ensures rm.Keys !! wm.Keys && |rm + wm| == |rm| + |wm|
    ensures Fits(base, size, rm + wm)
  {
    RunsDisjoint(base, mid, size, r, w, rm, wm);
    var m := rm + wm;
    forall a, b ensures Clear(m, a, b) {
      assert Clear(rm, a, b) && Clear(wm, a, b);
    }
  }

  lemma RunsDisjoint(base: int, mid: int, size: nat, r: nat, w: nat, rm: map<int, Node>, wm: map<int, Node>)
    requires r > 0 && w > 0
    requires Run(rm, base, base + HEADER, mid, r) && Run(wm, base, mid, base + size, w)
    ensures rm.Keys !! wm.Keys && |rm + wm| == |rm| + |wm|
  {
    forall a | a in rm ensures a !in wm {
      assert a + r <= mid;
    }
    UnionSize(rm, wm);
  }

  lemma UnionSize(m: map<int, Node>, n: map<int, Node>)
    requires m.Keys !! n.Keys
    ensures (m + n).Keys == m.Keys + n.Keys && |m + n| == |m| + |n|
  {
    assert |(m + n).Keys| == |m.Keys| + |n.Keys|;
  }

  /** What a new block adds to memory, and that it changes nothing that was there. */
  lemma CarvedFrame(h: Heap, base: int, size: nat, rm: map<int, Node>, wm: map<int, Node>)
    requires NodesInside(h) && NodesApart(h.nodes) && Unused(h, base, size)
    requires Fits(base, size, rm + wm) && rm.Keys !! wm.Keys
    ensures var g := Carved(h, base, size, rm + wm);
            Extends(h, g, rm) && Extends(h, g, wm)
  {
    CarvedApart(h, base, size, rm + wm);
    UnionSize(rm, wm);
  }

  /** One more block at `base`: the chains `rc` and `wc` of its nodes go in front of the two lists. */
  function Grown(p: Pool, base: int, size: nat, rc: seq<int>, wc: seq<int>,
                 rm: map<int, Node>, wm: map<int, Node>): Pool
    requires rc != [] && wc != []
  {
    p.(heap := Carved(p.heap, base, size, rm + wm),
       rd := Side(rc[0], rc + p.rd.list, p.rd.out),
       wr := Side(wc[0], wc + p.wr.list, p.wr.out),
       mallocs := p.mallocs + multiset{base})
  }

  lemma GrownShape(p: Pool, base: int, size: nat, r: nat, w: nat,
                   rc: seq<int>, wc: seq<int>, rm: map<int, Node>, wm: map<int, Node>)
    requires Shape(p, r, w) && Unused(p.heap, base, size)
    requires rm.Keys !! wm.Keys && Fits(base, size, rm + wm)
    requires Chained(rm, rc, p.rd.head, r) && Chained(wm, wc, p.wr.head, w)
    ensures base !in p.heap.blocks && Shape(Grown(p, base, size, rc, wc, rm, wm), r, w)
  {
    var q := Grown(p, base, size, rc, wc, rm, wm);
    GrownSides(p.heap, base, size, p.rd, p.wr, r, w, rc, wc, rm, wm);
    GrownSound(p, q, base, size, rm, wm);
    GrownLog(p.heap, base, size, rm + wm, p.mallocs, p.frees);
  }

  lemma GrownSides(h: Heap, base: int, size: nat, s: Side, t: Side, r: nat, w: nat,
                   rc: seq<int>, wc: seq<int>, rm: map<int, Node>, wm: map<int, Node>)
    requires NodesInside(h) && NodesApart(h.nodes) && Unused(h, base, size)
    requires rm.Keys !! wm.Keys && Fits(base, size, rm + wm)
    requires SideOk(h, s, r) && Chained(rm, rc, s.head, r)
    requires SideOk(h, t, w) && Chained(wm, wc, t.head, w)
    ensures var s' := Side(rc[0], rc + s.list, s.out);
            SideOk(Carved(h, base, size, rm + wm), s', r) && s'.Nodes() == s.Nodes() + rm.Keys
    ensures var t' := Side(wc[0], wc + t.list, t.out);
            SideOk(Carved(h, base, size, rm + wm), t', w) && t'.Nodes() == t.Nodes() + wm.Keys
  {
    CarvedFrame(h, base, size, rm, wm);
    SideGrown(h, Carved(h, base, size, rm + wm), s, r, rc, rm);
    SideGrown(h, Carved(h, base, size, rm + wm), t, w, wc, wm);
  }

  lemma GrownSound(p: Pool, q: Pool, base: int, size: nat, rm: map<int, Node>, wm: map<int, Node>)
    requires Sound(p.heap, p.Live()) && p.rd.Nodes() !! p.wr.Nodes()
    requires Unused(p.heap, base, size) && rm.Keys !! wm.Keys && Fits(base, size, rm + wm)
    requires q.heap == Carved(p.heap, base, size, rm + wm)
    requires q.rd.Nodes() == p.rd.Nodes() + rm.Keys && q.wr.Nodes() == p.wr.Nodes() + wm.Keys
    ensures base !in p.heap.blocks && Sound(q.heap, q.Live()) && q.rd.Nodes() !! q.wr.Nodes()
  {
    CarvedSound(p.heap, p.Live(), base, size, rm + wm);
    UnionSize(rm, wm);
    FourSets(p.rd.Nodes(), p.wr.Nodes(), rm.Keys, wm.Keys);
  }

  lemma GrownLog(h: Heap, base: int, size: nat, nodes: map<int, Node>, mallocs: multiset<int>, frees: multiset<int>)
    requires Balanced(mallocs, frees, h.blocks.Keys) && base !in h.blocks
    ensures Balanced(mallocs + multiset{base}, frees, Carved(h, base, size, nodes).blocks.Keys)
  {
    var live := Carved(h, base, size, nodes).blocks.Keys;
    forall b ensures (mallocs + multiset{base})[b] == frees[b] + if b in live then 1 else 0 {
      assert mallocs[b] == frees[b] + if b in h.blocks.Keys then 1 else 0;
    }
  }

  lemma FourSets(a: set<int>, b: set<int>, c: set<int>, d: set<int>)
    requires a !! b && c !! d && a + b !! c + d
    ensures a + c + (b + d) == a + b + (c + d) && a + c !! b + d
  {
  }

  /** One carving loop over memory `h`: `num` nodes from `start`, chained in order and then to `tail`.
      `m` are the nodes written and `c` their addresses in order. */
  method Carve(h: Heap, buf: int, start: int, stride: nat, num: nat, tail: int, ghost end: int)
    returns (g: Heap, ghost m: map<int, Node>, ghost c: seq<int>)
    requires num > 0 && stride > 0 && start > NULL && end == start + Bytes(stride, num)
    ensures g == Heap(h.blocks, h.nodes + m)
    ensures |c| == num && c[0] == start && Chained(m, c, tail, stride)
    ensures |m| == num && Run(m, buf, start, end, stride)
  {
    g := h;
    assert h.nodes + map[] == h.nodes;
    for i := 0 to num
      invariant g == Heap(h.blocks, h.nodes + CellMap(buf, start, stride, num, tail, i))
    {
      BytesIsProduct(stride, i);
      var current := start + i * stride;
      var link := if i < num - 1 then current + stride else tail;
      g := g.(nodes := g.nodes[current := Node(buf, link, stride)]);
    }
    m, c := CellMap(buf, start, stride, num, tail, num), Cells(start, stride, num);
    CellMapRun(buf, start, stride, num, tail, end);
    CellsChained(buf, start, stride, num, tail);
  }

  /** What tryAlloc writes into a block it got: the header, then both carving loops. */
  method CarveBlock(h: Heap, buf: int, num: nat, totalSize: nat, r: nat, w: nat, rHead: int, wHead: int)
    returns (g: Heap, pReadBuf: int, pWriteBuf: int,
             ghost rc: seq<int>, ghost wc: seq<int>, ghost rm: map<int, Node>, ghost wm: map<int, Node>)
    requires buf > NULL && num > 0 && r > 0 && w > 0 && totalSize == TotalSize(num, r, w)
    ensures |rc| == |rm| == num && Chained(rm, rc, rHead, r) && rc[0] == pReadBuf
    ensures |wc| == |wm| == num && Chained(wm, wc, wHead, w) && wc[0] == pWriteBuf
    ensures buf + HEADER <= pWriteBuf <= buf + totalSize
    ensures Run(rm, buf, buf + HEADER, pWriteBuf, r) && Run(wm, buf, pWriteBuf, buf + totalSize, w)
    ensures g == Heap(h.blocks[buf := Block(totalSize, num * 2)], h.nodes + rm + wm)
  {
    BytesIsProduct(r, num);
    pReadBuf := buf + HEADER;
    pWriteBuf := pReadBuf + r * num;
    g := h.(blocks := h.blocks[buf := Block(totalSize, num * 2)]);
    g, rm, rc := Carve(g, buf, pReadBuf, r, num, rHead, pWriteBuf);
    g, wm, wc := Carve(g, buf, pWriteBuf, w, num, wHead, buf + totalSize);
  }

  /** `q` is `p` with `num` more nodes in front of each list. */
  ghost predicate Refilled(p: Pool, q: Pool, num: nat)
  {
    && q.frees == p.frees && q.rd.out == p.rd.out && q.wr.out == p.wr.out
    && |q.rd.list| == |p.rd.list| + num && q.rd.list[num..] == p.rd.list
    && |q.wr.list| == |p.wr.list| + num && q.wr.list[num..] == p.wr.list
  }

  lemma CarvedInTwo(h: Heap, base: int, size: nat, num: nat, rm: map<int, Node>, wm: map<int, Node>)
    requires |rm + wm| == num * 2
    ensures Heap(h.blocks[base := Block(size, num * 2)], h.nodes + rm + wm) == Carved(h, base, size, rm + wm)
  {
    MergeAssoc(h.nodes, rm, wm);
  }

  lemma MergeAssoc(a: map<int, Node>, b: map<int, Node>, c: map<int, Node>)
    ensures a + b + c == a + (b + c)
  {
  }

  /** Two carved runs make up one block added to the pool. */
  lemma BlockAdded(p: Pool, g: Heap, base: int, start: int, mid: int, size: nat, num: nat, r: nat, w: nat,
                   rc: seq<int>, wc: seq<int>, rm: map<int, Node>, wm: map<int, Node>) returns (q: Pool)
    requires Shape(p, r, w) && Unused(p.heap, base, size) && base > NULL && size > HEADER
    requires |rm| == |wm| == |rc| == |wc| == num > 0 && r > META && w > META && base + HEADER <= mid <= base + size
    requires Run(rm, base, base + HEADER, mid, r) && Run(wm, base, mid, base + size, w)
    requires Chained(rm, rc, p.rd.head, r) && Chained(wm, wc, p.wr.head, w) && rc[0] == start && wc[0] == mid
    requires g == Heap(p.heap.blocks[base := Block(size, num * 2)], p.heap.nodes + rm + wm)
    ensures Shape(q, r, w) && q.heap == g && q.rd.head == start && q.wr.head == mid && Refilled(p, q, num)
    ensures q.mallocs == p.mallocs + multiset{base}
  {
    RunsFit(base, mid, size, r, w, rm, wm);
    CarvedInTwo(p.heap, base, size, num, rm, wm);
    GrownShape(p, base, size, r, w, rc, wc, rm, wm);
    q := Grown(p, base, size, rc, wc, rm, wm);
  }

  /** The part of tryAlloc after malloc, on the pool `p` whose memory is `h`. */
  method AddBlock(ghost p: Pool, h: Heap, buf: int, num: nat, totalSize: nat, r: nat, w: nat, rHead: int, wHead: int)
    returns (g: Heap, rHead': int, wHead': int, ghost q: Pool)
    requires Shape(p, r, w) && p.heap == h && p.rd.head == rHead && p.wr.head == wHead
    requires buf > NULL && num > 0 && r > META && w > META && totalSize == TotalSize(num, r, w) > HEADER
    requires Unused(h, buf, totalSize)
    ensures Shape(q, r, w) && q.heap == g && q.rd.head == rHead' && q.wr.head == wHead' && Refilled(p, q, num)
    ensures q.mallocs == p.mallocs + multiset{buf}
  {
    ghost var rc, wc, rm, wm;
    g, rHead', wHead', rc, wc, rm, wm := CarveBlock(h, buf, num, totalSize, r, w, rHead, wHead);
    q := BlockAdded(p, g, buf, rHead', wHead', totalSize, num, r, w, rc, wc, rm, wm);
  }

  /** `node` was handed out from the front of the read list, after `n` pairs were added to an empty one. */
  ghost predicate TookRead(p: Pool, q: Pool, node: int, n: nat)
  {
    && node !in p.rd.out + p.wr.out && q.rd.out == p.rd.out + {node} && q.wr.out == p.wr.out && q.frees == p.frees
    && (n == 0 <==> p.rd.list != [])
    && |q.rd.list| + 1 == |p.rd.list| + n && |q.wr.list| == |p.wr.list| + n && q.wr.list[n..] == p.wr.list
    && (n == 0 ==> p.rd.list == [node] + q.rd.list && q.heap == p.heap && q.wr == p.wr)
  }

  /** A read node `a` has been taken, with `n` pairs added if there was none; and then a write node `b`.  From level
      lists there always is one, and the lists are level again. */
  lemma PairTaken(p: Pool, m: Pool, q: Pool, a: int, b: int, n: nat, n': nat, limit: nat)
    requires TookRead(p, m, a, n)
    ensures m.wr.list == [] ==> n == 0 && p.wr.list == [] && p.rd.list != []
    ensures |p.rd.list| == |p.wr.list| <= limit && n <= limit ==> m.wr.list != []
    ensures TookRead(Mirror(m), Mirror(q), b, n') && |p.rd.list| == |p.wr.list| <= limit && n <= limit ==>
              |q.rd.list| == |q.wr.list| <= limit
    ensures TookRead(Mirror(m), Mirror(q), b, n') && p.rd.list != [] && p.wr.list != [] ==>
              n == n' == 0 && a == p.rd.list[0] && b == p.wr.list[0]
  {
  }

  /** `node` came back: to the front of the read list if that was shorter than `limit`; else its block
      lost one count, and was freed if that was its last. */
  ghost predicate BackRead(p: Pool, q: Pool, node: int, limit: nat)
  {
    && q.rd.out == p.rd.out - {node} && q.wr == p.wr && q.mallocs == p.mallocs
    && (if |p.rd.list| >= limit then q.rd.list == p.rd.list
        else q.rd.list == [node] + p.rd.list && q.frees == p.frees && q.heap.blocks == p.heap.blocks)
  }

  /** Handing out the head of the read list, as one step of the pool. */
  lemma TakeStep(p: Pool, r: nat, w: nat) returns (q: Pool)
    requires Shape(p, r, w) && p.rd.list != []
    ensures p.rd.head > NULL && p.rd.head in p.heap.nodes
    ensures Shape(q, r, w) && TookRead(p, q, p.rd.head, 0) && q.mallocs == p.mallocs
    ensures q.rd.head == p.heap.nodes[p.rd.head].next
  {
    TakenShape(p, r, w);
    assert Inside(p.heap, p.rd.head);
    q := Taken(p);
  }

  /** Handing out a node after the pool was refilled with `n` pairs, or was not. */
  lemma RefilledThenTook(p: Pool, m: Pool, q: Pool, node: int, n: nat)
    requires if n == 0 then m == p && p.rd.list != [] else p.rd.list == [] && Refilled(p, m, n)
    requires TookRead(m, q, node, 0)
    ensures TookRead(p, q, node, n)
  {
  }

  /** Taking the handed-out read node `a` back onto the list, as one step of the pool. */
  lemma PutStep(p: Pool, r: nat, w: nat, a: int) returns (q: Pool)
    requires Shape(p, r, w) && a in p.rd.out
    ensures a in p.heap.nodes && Shape(q, r, w)
    ensures q.heap == p.heap.(nodes := p.heap.nodes[a := p.heap.nodes[a].(next := p.rd.head)])
    ensures q.rd == Side(a, [a] + p.rd.list, p.rd.out - {a}) && q.wr == p.wr
    ensures q.mallocs == p.mallocs && q.frees == p.frees
  {
    PutShape(p, r, w, a);
    q := Put(p, a);
  }

  /** Giving the handed-out read node `a` up, as one step of the pool. */
  lemma RetireStep(p: Pool, r: nat, w: nat, a: int) returns (q: Pool)
    requires Shape(p, r, w) && a in p.rd.out
    ensures Inside(p.heap, a) && p.heap.blocks[p.heap.nodes[a].owner].refCount > 0 && Shape(q, r, w)
    ensures q.heap == Dropped(p.heap, a)
    ensures q.rd == p.rd.(out := p.rd.out - {a}) && q.wr == p.wr
    ensures q.mallocs == p.mallocs && q.frees == p.frees + FreedWith(p.heap, a)
  {
    RetiredShape(p, r, w, a);
    q := Retired(p, a);
  }

  /** The three steps on the write side. */
  lemma TakeStepW(p: Pool, r: nat, w: nat) returns (q: Pool)
    requires Shape(p, r, w) && p.wr.list != []
    ensures p.wr.head > NULL && p.wr.head in p.heap.nodes
    ensures Shape(q, r, w) && TookRead(Mirror(p), Mirror(q), p.wr.head, 0) && q.mallocs == p.mallocs
    ensures q.wr.head == p.heap.nodes[p.wr.head].next
  {
    MirrorShape(p, r, w);
    var m := TakeStep(Mirror(p), w, r);
    MirrorShape(m, w, r);
    q := Mirror(m);
  }

  lemma PutStepW(p: Pool, r: nat, w: nat, a: int) returns (q: Pool)
    requires Shape(p, r, w) && a in p.wr.out
    ensures a in p.heap.nodes && Shape(q, r, w)
    ensures q.heap == p.heap.(nodes := p.heap.nodes[a := p.heap.nodes[a].(next := p.wr.head)])
    ensures q.wr == Side(a, [a] + p.wr.list, p.wr.out - {a}) && q.rd == p.rd
    ensures q.mallocs == p.mallocs && q.frees == p.frees
  {
    MirrorShape(p, r, w);
    var m := PutStep(Mirror(p), w, r, a);
    MirrorShape(m, w, r);
    q := Mirror(m);
  }

  lemma RetireStepW(p: Pool, r: nat, w: nat, a: int) returns (q: Pool)
    requires Shape(p, r, w) && a in p.wr.out
    ensures Inside(p.heap, a) && p.heap.blocks[p.heap.nodes[a].owner].refCount > 0 && Shape(q, r, w)
    ensures q.heap == Dropped(p.heap, a)
    ensures q.wr == p.wr.(out := p.wr.out - {a}) && q.rd == p.rd
    ensures q.mallocs == p.mallocs && q.frees == p.frees + FreedWith(p.heap, a)
  {
    MirrorShape(p, r, w);
    var m := RetireStep(Mirror(p), w, r, a);
    MirrorShape(m, w, r);
    q := Mirror(m);
  }

  /** Giving up the head of the read list: one round of a release loop. */
  lemma ReleaseStep(p: Pool, r: nat, w: nat) returns (q: Pool)
    requires Shape(p, r, w) && p.rd.list != []
    ensures p.rd.head == p.rd.list[0] && Inside(p.heap, p.rd.head)
    ensures p.heap.blocks[p.heap.nodes[p.rd.head].owner].refCount > 0 && Shape(q, r, w)
    ensures q.heap == Dropped(p.heap, p.rd.head) && q.wr == p.wr
    ensures q.mallocs == p.mallocs && q.frees == p.frees + FreedWith(p.heap, p.rd.head)
    ensures q.rd == Side(p.heap.nodes[p.rd.head].next, p.rd.list[1..], p.rd.out)
  {
    var t := TakeStep(p, r, w);
    q := RetireStep(t, r, w, p.rd.head);
    assert q.rd.out == p.rd.out;
  }

  lemma ReleaseStepW(p: Pool, r: nat, w: nat) returns (q: Pool)
    requires Shape(p, r, w) && p.wr.list != []
    ensures p.wr.head == p.wr.list[0] && Inside(p.heap, p.wr.head)
    ensures p.heap.blocks[p.heap.nodes[p.wr.head].owner].refCount > 0 && Shape(q, r, w)
    ensures q.heap == Dropped(p.heap, p.wr.head) && q.rd == p.rd
    ensures q.mallocs == p.mallocs && q.frees == p.frees + FreedWith(p.heap, p.wr.head)
    ensures q.wr == Side(p.heap.nodes[p.wr.head].next, p.wr.list[1..], p.wr.out)
  {
    MirrorShape(p, r, w);
    var m := ReleaseStep(Mirror(p), w, r);
    MirrorShape(m, w, r);
    q := Mirror(m);
  }

  /** When nothing is handed out and both lists are empty, no block is live and every allocation
      has been freed exactly once. */
  lemma NothingLeft(p: Pool, r: nat, w: nat)
    requires Shape(p, r, w) && p.rd.list == [] && p.wr.list == [] && p.rd.out == {} && p.wr.out == {}
    ensures p.heap.blocks == map[] && p.mallocs == p.frees
  {
    assert p.Live() == {};
    forall b ensures b !in p.heap.blocks {
      assert NodesOf(p.heap, p.Live(), b) == {};
    }
    assert p.heap.blocks == map[];
    forall b ensures p.mallocs[b] == p.frees[b] {
    }
  }

  /** With both lists empty, every live block still has a buffer handed out. */
  lemma OnlyHeldLeft(p: Pool, r: nat, w: nat)
    requires Shape(p, r, w) && p.rd.list == [] && p.wr.list == []
    ensures forall b :: b in p.heap.blocks ==> NodesOf(p.heap, p.rd.out + p.wr.out, b) != {}
  {
    assert p.Live() == p.rd.out + p.wr.out;
  }

  /** Whatever is free or handed out lies in a live block, and no two such buffers share a byte. */
  lemma BuffersApart(p: Pool, r: nat, w: nat, a: int, b: int)
    requires Shape(p, r, w) && a in p.Live() && b in p.Live() && a != b
    ensures a in p.heap.nodes && b in p.heap.nodes
    ensures p.heap.nodes[a].owner in p.heap.blocks
    ensures a - HEADER >= p.heap.nodes[a].owner
    ensures a + p.heap.nodes[a].span <= p.heap.nodes[a].owner + p.heap.blocks[p.heap.nodes[a].owner].extent
    ensures Apart(a, p.heap.nodes[a].span, b, p.heap.nodes[b].span)
    ensures a in p.rd.Nodes() ==> p.heap.nodes[a].span == r
    ensures a in p.wr.Nodes() ==> p.heap.nodes[a].span == w
  {
    assert Inside(p.heap, a) && Clear(p.heap.nodes, a, b);
  }

  /** The sizes that Alloc asks malloc for, one after the other, from `num` pairs down to one. */
  function Attempts(num: nat, r: nat, w: nat): seq<nat>
  {
    if num == 0 then [] else [Asked(TotalSize(num, r, w))] + Attempts(num / 2, r, w)
  }

  lemma NextAttempt(log: seq<nat>, num: nat, r: nat, w: nat)
    requires num > 0
    ensures log + Attempts(num, r, w) == log + [Asked(TotalSize(num, r, w))] + Attempts(num / 2, r, w)
  {
  }

  /** The allocator.  It refuses, always when asked for 2^63 bytes or more, or returns any address whose bytes no
      live block uses. */
  class Allocator {
    ghost var refused: seq<nat>       // the sizes it has refused, in order
    ghost var granted: multiset<int>  // every address it has returned
    ghost var freed: multiset<int>    // every address passed to free

    constructor ()
      ensures refused == [] && granted == freed == multiset{}
    {
      refused, granted, freed := [], multiset{}, multiset{};
    }

    method Malloc(h: Heap, size: nat) returns (buf: int)
      modifies this`refused, this`granted
      ensures buf == NULL || (buf > NULL && size < TWO_63 && Unused(h, buf, size))
      ensures refused == old(refused) + if buf == NULL then [size] else []
      ensures granted == old(granted) + if buf == NULL then multiset{} else multiset{buf}
    {
      buf := *;
      if buf < NULL || size >= TWO_63 || !Unused(h, buf, size) {
        buf := NULL;
      }
      refused := refused + if buf == NULL then [size] else [];
      granted := granted + if buf == NULL then multiset{} else multiset{buf};
    }

    /** free; the memory that is left of `h` is without the block and all its nodes. */
    method Free(h: Heap, buf: int) returns (g: Heap)
      requires buf in h.blocks
      modifies this`freed
      ensures g == Freed(h, buf) && freed == old(freed) + multiset{buf}
    {
      g := Freed(h, buf);
      freed := freed + multiset{buf};
    }
  }

  class SPTcpBufferPool {
    const os: Allocator
    const readBSize: nat
    const writeBSize: nat
    const peerAllocNum: nat    // BUFFER_POOL_PEER_ALLOC_NUM
    const minBlockNum: nat     // BUFFER_POOL_MIN_BLOCK_NUM
    var heap: Heap
    var rBuffers: int
    var wBuffers: int
    var rbSize: nat
    var wbSize: nat
    ghost var view: Pool       // the same state as a value, with the lists and what is handed out

    function R(): nat { readBSize + META }

    function W(): nat { writeBSize + META }

    /** What Config asserts, and that no block size wraps, which it does not assert. */
    predicate Configured()
    {
      && readBSize > 0 && writeBSize > 0 && 0 < peerAllocNum <= minBlockNum
      && SoundSizes(peerAllocNum, R(), W())
    }

    /** The pool invariant holds of the state as a value, which is the state that the fields and the
        allocator are in. */
    ghost predicate Backed()
      reads this, os
    {
      && view.heap == heap && view.rd.head == rBuffers && view.wr.head == wBuffers
      && view.mallocs == os.granted && view.frees == os.freed
      && Shape(view, R(), W())
    }

    ghost predicate Valid()
      reads this, os
    {
      Configured() && Backed() && rbSize == |view.rd.list| && wbSize == |view.wr.list|
    }

    constructor (readBSize: nat, writeBSize: nat, peerAllocNum: nat, minBlockNum: nat)
      requires readBSize > 0 && writeBSize > 0 && 0 < peerAllocNum <= minBlockNum
      requires SoundSizes(peerAllocNum, readBSize + META, writeBSize + META)
      ensures Valid() && view.heap == Heap(map[], map[]) && view.mallocs == view.frees == multiset{}
      ensures view.rd == view.wr == Side(NULL, [], {})
      ensures this.readBSize == readBSize && this.writeBSize == writeBSize && fresh(os)
      ensures this.peerAllocNum == peerAllocNum && this.minBlockNum == minBlockNum
    {
      os := new Allocator();
      this.readBSize, this.writeBSize := readBSize, writeBSize;
      this.peerAllocNum, this.minBlockNum := peerAllocNum, minBlockNum;
      heap, rBuffers, wBuffers, rbSize, wbSize := Heap(map[], map[]), NULL, NULL, 0, 0;
      view := Pool(Heap(map[], map[]), Side(NULL, [], {}), Side(NULL, [], {}), multiset{}, multiset{});
    }

    /** Allocates one block of `num` read and `num` write nodes and puts them on the lists. */
    method TryAlloc(num: nat) returns (ok: bool)
      requires Valid() && 0 < num && Sizeable(TotalSize(num, R(), W()))
      modifies this, os
      ensures Valid()
      ensures if ok then Refilled(old(view), view, num) && os.refused == old(os.refused)
              else view == old(view) && os.refused == old(os.refused) + [Asked(TotalSize(num, R(), W()))]
    {
      var totalSize := BlockSize(num);
      var buf := os.Malloc(heap, totalSize);
      if buf == NULL {
        return false;
      }
      Adopt(buf, num, totalSize, view);
      ok := true;
    }

    /** The size tryAlloc asks malloc for, `int` arithmetic converted to `size_t`. */
    method BlockSize(num: nat) returns (totalSize: nat)
      requires 0 < num && 0 < writeBSize && Sizeable(TotalSize(num, R(), W()))
      ensures totalSize == Asked(TotalSize(num, R(), W()))
      ensures totalSize < TWO_63 ==> totalSize == TotalSize(num, R(), W()) > HEADER
    {
      TotalSizeIsProduct(num, R(), W());
      AskedHoldsIff(TotalSize(num, R(), W()));
      totalSize := (HEADER + (R() + W()) * num) % TWO_32;
      if totalSize >= TWO_31 {
        totalSize := totalSize + (TWO_64 - TWO_32);
      }
    }

    /** The part of tryAlloc behind malloc, which has just granted `buf`. */
    method Adopt(buf: int, num: nat, totalSize: nat, ghost p: Pool)
      requires Configured() && Shape(p, R(), W()) && rbSize == |p.rd.list| && wbSize == |p.wr.list|
      requires p.heap == heap && p.rd.head == rBuffers && p.wr.head == wBuffers
      requires p.mallocs + multiset{buf} == os.granted && p.frees == os.freed
      requires num > 0 && totalSize == TotalSize(num, R(), W()) > HEADER && buf > NULL && Unused(heap, buf, totalSize)
      modifies this
      ensures Valid() && Refilled(p, view, num)
    {
      var g, pReadBuf, pWriteBuf;
      ghost var q;
      g, pReadBuf, pWriteBuf, q := AddBlock(p, heap, buf, num, totalSize, R(), W(), rBuffers, wBuffers);
      heap, rBuffers, wBuffers := g, pReadBuf, pWriteBuf;
      rbSize, wbSize := rbSize + num, wbSize + num;
      view := q;
    }

    /** `--refCount`, and `free` at zero. */
    method Unref(node: int)
      requires node in heap.nodes && heap.nodes[node].owner in heap.blocks
      requires heap.blocks[heap.nodes[node].owner].refCount > 0
      modifies this`heap, os`freed
      ensures heap == Dropped(old(heap), node) && os.freed == old(os.freed) + FreedWith(old(heap), node)
    {
      var b := heap.nodes[node].owner;
      heap := heap.(blocks := heap.blocks[b := heap.blocks[b].(refCount := heap.blocks[b].refCount - 1)]);
      if heap.blocks[b].refCount == 0 {
        assert heap.blocks - {b} == old(heap).blocks - {b};
        heap := os.Free(heap, b);
      }
    }

    /** Tries ever smaller blocks; gives up only when malloc has refused every size down to one pair. */
    method Alloc() returns (ok: bool, ghost n: nat)
      requires Valid()
      modifies this, os
      ensures Valid()
      ensures old(os.refused) <= os.refused
      ensures if ok then 0 < n <= peerAllocNum && Refilled(old(view), view, n)
              else view == old(view) && os.refused == old(os.refused) + Attempts(peerAllocNum, R(), W())
    {
      var num: nat := peerAllocNum;
      n := 0;
      ghost var all := os.refused + Attempts(num, R(), W());
      while num > 0
        invariant Valid() && view == old(view) && num <= peerAllocNum && SoundSizes(num, R(), W())
        invariant os.refused + Attempts(num, R(), W()) == all && old(os.refused) <= os.refused
      {
        NextAttempt(os.refused, num, R(), W());
        ok := TryAlloc(num);
        if ok {
          return true, num;
        }
        num := num / 2;
      }
      assert os.refused + [] == os.refused;
      ok := false;
    }

    /** Hands out the head of the read list. */
    method TakeReadHead() returns (node: int)
      requires Valid() && view.rd.list != []
      modifies this`rBuffers, this`rbSize, this`view
      ensures Valid() && TookRead(old(view), view, node, 0) && node > NULL
    {
      ghost var q := TakeStep(view, R(), W());
      node := rBuffers;
      rBuffers := heap.nodes[node].next;
      rbSize := rbSize - 1;
      view := q;
    }

    method TakeWriteHead() returns (node: int)
      requires Valid() && view.wr.list != []
      modifies this`wBuffers, this`wbSize, this`view
      ensures Valid() && TookRead(Mirror(old(view)), Mirror(view), node, 0) && node > NULL
    {
      ghost var q := TakeStepW(view, R(), W());
      node := wBuffers;
      wBuffers := heap.nodes[node].next;
      wbSize := wbSize - 1;
      view := q;
    }

    /** Hands out a read buffer, allocating `n` pairs first when the list is empty (`n` is 0 otherwise). */
    method GetReadBufferInner() returns (buf: int, ghost n: nat)
      requires Valid()
      modifies this, os
      ensures Valid()
      ensures buf == NULL ==> view == old(view) && old(view.rd.list) == []
                              && os.refused == old(os.refused) + Attempts(peerAllocNum, R(), W())
      ensures buf != NULL ==> TookRead(old(view), view, buf - META, n) && n <= peerAllocNum
      ensures n == 0 && buf != NULL ==> os.refused == old(os.refused) && os.granted == old(os.granted)
      ensures old(os.refused) <= os.refused
    {
      n := 0;
      ghost var p := view;
      if rBuffers == NULL {
        var ok;
        ok, n := Alloc();
        if !ok {
          return NULL, 0;
        }
      }
      ghost var m := view;
      var node := TakeReadHead();
      RefilledThenTook(p, m, view, node, n);
      buf := node + META;
    }

    /** The same for write buffers. */
    method GetWriteBufferInner() returns (buf: int, ghost n: nat)
      requires Valid()
      modifies this, os
      ensures Valid()
      ensures buf == NULL ==> view == old(view) && old(view.wr.list) == []
                              && os.refused == old(os.refused) + Attempts(peerAllocNum, R(), W())
      ensures buf != NULL ==> TookRead(Mirror(old(view)), Mirror(view), buf - META, n) && n <= peerAllocNum
      ensures n == 0 && buf != NULL ==> os.refused == old(os.refused) && os.granted == old(os.granted)
      ensures old(os.refused) <= os.refused
    {
      n := 0;
      ghost var p := view;
      if wBuffers == NULL {
        var ok;
        ok, n := Alloc();
        if !ok {
          return NULL, 0;
        }
      }
      ghost var m := view;
      var node := TakeWriteHead();
      RefilledThenTook(Mirror(p), Mirror(m), Mirror(view), node, n);
      buf := node + META;
    }

    /** Takes a read buffer back: onto the list while that is short, else its node is given up. */
    method FreeReadBufferInner(buf: int)
      requires Valid() && buf - META in view.rd.out
      modifies this, os`freed
      ensures Valid() && BackRead(old(view), view, buf - META, minBlockNum)
    {
      var node := buf - META;
      ghost var q;
      if rbSize >= minBlockNum {
        q := RetireStep(view, R(), W(), node);
        Unref(node);
      } else {
        q := PutStep(view, R(), W(), node);
        heap := heap.(nodes := heap.nodes[node := heap.nodes[node].(next := rBuffers)]);
        rBuffers := node;
        rbSize := rbSize + 1;
      }
      view := q;
    }

    /** The same for write buffers. */
    method FreeWriteBufferInner(buf: int)
      requires Valid() && buf - META in view.wr.out
      modifies this, os`freed
      ensures Valid() && BackRead(Mirror(old(view)), Mirror(view), buf - META, minBlockNum)
    {
      var node := buf - META;
      ghost var q;
      if wbSize >= minBlockNum {
        q := RetireStepW(view, R(), W(), node);
        Unref(node);
      } else {
        q := PutStepW(view, R(), W(), node);
        heap := heap.(nodes := heap.nodes[node := heap.nodes[node].(next := wBuffers)]);
        wBuffers := node;
        wbSize := wbSize + 1;
      }
      view := q;
    }

    /** Walks both lists and gives every node up.  The sizes are left as they are. */
    method ReleaseAllBlocks()
      requires Backed()
      modifies this`heap, this`rBuffers, this`wBuffers, this`view, os`freed
      ensures Backed() && rBuffers == wBuffers == NULL && view.rd.list == view.wr.list == []
      ensures view.rd.out == old(view).rd.out && view.wr.out == old(view).wr.out && view.mallocs == old(view).mallocs
    {
      ReleaseReadList();
      ReleaseWriteList();
    }

    method ReleaseReadList()
      requires Backed()
      modifies this`heap, this`rBuffers, this`view, os`freed
      ensures Backed() && rBuffers == NULL && view.rd.list == []
      ensures view.rd.out == old(view).rd.out && view.wr == old(view).wr && view.mallocs == old(view).mallocs
    {
      while rBuffers != NULL
        invariant Backed() && view.rd.out == old(view).rd.out
        invariant view.wr == old(view).wr && view.mallocs == old(view).mallocs
        decreases |view.rd.list|
      {
        ghost var q := ReleaseStep(view, R(), W());
        var node := rBuffers;
        rBuffers := heap.nodes[node].next;
        Unref(node);
        view := q;
      }
    }

    method ReleaseWriteList()
      requires Backed()
      modifies this`heap, this`wBuffers, this`view, os`freed
      ensures Backed() && wBuffers == NULL && view.wr.list == []
      ensures view.wr.out == old(view).wr.out && view.rd == old(view).rd && view.mallocs == old(view).mallocs
    {
      while wBuffers != NULL
        invariant Backed() && view.wr.out == old(view).wr.out
        invariant view.rd == old(view).rd && view.mallocs == old(view).mallocs
        decreases |view.wr.list|
      {
        ghost var q := ReleaseStepW(view, R(), W());
        var node := wBuffers;
        wBuffers := heap.nodes[node].next;
        Unref(node);
        view := q;
      }
    }

    /** Back to the initial state; blocks with a buffer still handed out stay until that comes back. */
    method Reset()
      requires Valid()
      modifies this, os`freed
      ensures Valid() && view.rd.list == view.wr.list == []
      ensures view.rd.out == old(view).rd.out && view.wr.out == old(view).wr.out
      ensures view.mallocs == old(view.mallocs)
      ensures forall b :: b in heap.blocks ==> NodesOf(heap, view.rd.out + view.wr.out, b) != {}
      ensures view.rd.out == {} && view.wr.out == {} ==> heap.blocks == map[] && os.freed == os.granted
    {
      ReleaseAllBlocks();
      OnlyHeldLeft(view, R(), W());
      rbSize, wbSize, rBuffers, wBuffers := 0, 0, NULL, NULL;
      if view.rd.out == {} && view.wr.out == {} {
        NothingLeft(view, R(), W());
      }
    }

    /** The state of the pool between connections that each hold one buffer of either kind. */
    ghost predicate Even()
      reads this
    {
      |view.rd.list| == |view.wr.list| <= minBlockNum
    }

    /** malloc has been asked for every size from the configured number of pairs down to one, and nothing else, and
        has refused them all. */
    twostate predicate AllRefused()
      reads this, os
    {
      os.refused == old(os.refused) + Attempts(peerAllocNum, R(), W())
    }

    /** What a connection does first: read buffer, then write buffer.  It gets the heads of the lists where they have
        any; an empty list it is refused only when malloc refuses.  On level lists getting the second never fails. */
    method OpenPair() returns (r: int, w: int)
      requires Valid()
      modifies this, os
      ensures Valid() && (old(Even()) ==> Even() && (r != NULL ==> w != NULL))
      ensures r == NULL ==> w == NULL && view == old(view) && old(view).rd.list == [] && AllRefused()
      ensures r != NULL && w == NULL ==> old(view).wr.list == [] && AllRefused()
      ensures r != NULL ==> r - META !in old(view).rd.out && view.rd.out == old(view).rd.out + {r - META}
      ensures w != NULL ==> w - META !in old(view).wr.out && view.wr.out == old(view).wr.out + {w - META}
      ensures w == NULL ==> view.wr.out == old(view).wr.out
      ensures old(view).rd.list != [] && old(view).wr.list != [] ==>
                && r != NULL && r - META == old(view).rd.list[0] && w != NULL && w - META == old(view).wr.list[0]
                && os.refused == old(os.refused) && os.granted == old(os.granted)
      ensures old(os.refused) <= os.refused
    {
      ghost var p := view;
      ghost var n;
      r, n := GetReadBufferInner();
      w := NULL;
      if r != NULL {
        w := OpenWrite(p, r - META, n);
      }
    }

    /** The second half: the read node `a` has been taken from `p`, `n` pairs having been added if there was none. */
    method OpenWrite(ghost p: Pool, ghost a: int, ghost n: nat) returns (w: int)
      requires Valid() && TookRead(p, view, a, n) && n <= peerAllocNum
      modifies this, os
      ensures Valid() && (|p.rd.list| == |p.wr.list| <= minBlockNum ==> Even() && w != NULL)
      ensures view.rd.out == p.rd.out + {a} && old(os.refused) <= os.refused
      ensures w == NULL ==> n == 0 && p.wr.list == [] && view.wr.out == p.wr.out && AllRefused()
      ensures w != NULL ==> w - META !in p.wr.out && view.wr.out == p.wr.out + {w - META}
      ensures p.rd.list != [] && p.wr.list != [] ==>
                && n == 0 && a == p.rd.list[0] && w != NULL && w - META == p.wr.list[0]
                && os.refused == old(os.refused) && os.granted == old(os.granted)
    {
      ghost var m := view;
      ghost var n';
      w, n' := GetWriteBufferInner();
      PairTaken(p, m, view, a, w - META, n, n', minBlockNum);
    }

    /** What a connection does last: its members are destroyed in reverse order, write buffer first. */
    method ClosePair(r: int, w: int)
      requires Valid() && Even() && r - META in view.rd.out && w - META in view.wr.out
      modifies this, os`freed
      ensures Valid() && Even()
      ensures view.rd.out == old(view).rd.out - {r - META} && view.wr.out == old(view).wr.out - {w - META}
    {
      FreeWriteBufferInner(w);
      FreeReadBufferInner(r);
    }

    /** The nodes handed out are exactly `rs` and `ws`, each once. */
    ghost predicate HandedOut(rs: seq<int>, ws: seq<int>)
      reads this
    {
      Distinct(rs) && Distinct(ws) && Elements(rs) == view.rd.out && Elements(ws) == view.wr.out
    }

    /** They are those of the open connections, one of either kind for each. */
    ghost predicate Open(rs: seq<int>, ws: seq<int>)
      reads this
    {
      |rs| == |ws| && HandedOut(rs, ws)
    }

    /** One more of `xs` is held, or the list was empty and malloc has refused to refill it. */
    twostate predicate GotOne(xs: seq<int>, xs': seq<int>, list: seq<int>)
      reads this, os
    {
      (|xs'| == |xs| + 1 && xs'[1..] == xs) || (xs' == xs && list == [] && AllRefused())
    }

    method GetRead(rs: seq<int>, ghost ws: seq<int>) returns (rs': seq<int>)
      requires Valid() && HandedOut(rs, ws)
      modifies this, os
      ensures Valid() && HandedOut(rs', ws) && GotOne(rs, rs', old(view).rd.list)
    {
      rs' := rs;
      var buf, _ := GetReadBufferInner();
      if buf != NULL {
        PushDistinct(buf - META, rs);
        rs' := [buf - META] + rs;
      }
    }

    method GetWrite(ghost rs: seq<int>, ws: seq<int>) returns (ws': seq<int>)
      requires Valid() && HandedOut(rs, ws)
      modifies this, os
      ensures Valid() && HandedOut(rs, ws') && GotOne(ws, ws', old(view).wr.list)
    {
      ws' := ws;
      var buf, _ := GetWriteBufferInner();
      if buf != NULL {
        PushDistinct(buf - META, ws);
        ws' := [buf - META] + ws;
      }
    }

    method PutRead(rs: seq<int>, ghost ws: seq<int>, k: nat) returns (rs': seq<int>)
      requires Valid() && HandedOut(rs, ws)
      modifies this, os
      ensures Valid() && HandedOut(rs', ws) && rs' == if k < |rs| then rs[..k] + rs[k + 1..] else rs
    {
      rs' := rs;
      if k < |rs| {
        RemoveDistinct(rs, k);
        FreeReadBufferInner(rs[k] + META);
        rs' := rs[..k] + rs[k + 1..];
      }
    }

    method PutWrite(ghost rs: seq<int>, ws: seq<int>, k: nat) returns (ws': seq<int>)
      requires Valid() && HandedOut(rs, ws)
      modifies this, os
      ensures Valid() && HandedOut(rs, ws') && ws' == if k < |ws| then ws[..k] + ws[k + 1..] else ws
    {
      ws' := ws;
      if k < |ws| {
        RemoveDistinct(ws, k);
        FreeWriteBufferInner(ws[k] + META);
        ws' := ws[..k] + ws[k + 1..];
      }
    }

    /** Runs one call; `rs` and `ws` are the nodes its callers hold. */
    method Call(op: PoolOp, rs: seq<int>, ws: seq<int>) returns (rs': seq<int>, ws': seq<int>)
      requires Valid() && HandedOut(rs, ws)
      modifies this, os
      ensures Valid() && HandedOut(rs', ws')
      ensures op.AskRead? ==> ws' == ws && GotOne(rs, rs', old(view).rd.list)
      ensures op.AskWrite? ==> rs' == rs && GotOne(ws, ws', old(view).wr.list)
      ensures op.FreeRead? ==> ws' == ws && rs' == if op.k < |rs| then rs[..op.k] + rs[op.k + 1..] else rs
      ensures op.FreeWrite? ==> rs' == rs && ws' == if op.k < |ws| then ws[..op.k] + ws[op.k + 1..] else ws
      ensures op.ResetPool? ==> rs' == rs && ws' == ws && view.rd.list == view.wr.list == []
    {
      rs', ws' := rs, ws;
      match op {
        case AskRead => rs' := GetRead(rs, ws);
        case AskWrite => ws' := GetWrite(rs, ws);
        case FreeRead(k) => rs' := PutRead(rs, ws, k);
        case FreeWrite(k) => ws' := PutWrite(rs, ws, k);
        case ResetPool => Reset();
      }
    }

    /** A whole life of the pool: any calls in any order, against any malloc, even resets with buffers
        outstanding; then everything is returned and the pool reset.  Every block has been freed exactly
        as often as it was allocated, and none is left. */
    method Lifetime(ops: seq<PoolOp>)
      requires Valid() && HandedOut([], [])
      modifies this, os
      ensures Valid() && heap.blocks == map[] && os.freed == os.granted
    {
      var rs, ws := [], [];
      for i := 0 to |ops|
        invariant Valid() && HandedOut(rs, ws)
      {
        rs, ws := Call(ops[i], rs, ws);
      }
      ReturnAll(rs, ws);
      Reset();
    }

    method ReturnAll(rs: seq<int>, ws: seq<int>)
      requires Valid() && HandedOut(rs, ws)
      modifies this, os`freed
      ensures Valid() && view.rd.out == view.wr.out == {}
      decreases |rs| + |ws|
    {
      if rs != [] {
        ReturnRead(rs, ws);
        ReturnAll(rs[..0] + rs[1..], ws);
      } else if ws != [] {
        ReturnWrite(rs, ws);
        ReturnAll(rs, ws[..0] + ws[1..]);
      }
    }

    method ReturnRead(rs: seq<int>, ws: seq<int>)
      requires Valid() && HandedOut(rs, ws) && rs != []
      modifies this, os`freed
      ensures Valid() && HandedOut(rs[..0] + rs[1..], ws)
    {
      RemoveDistinct(rs, 0);
      FreeReadBufferInner(rs[0] + META);
    }

    method ReturnWrite(rs: seq<int>, ws: seq<int>)
      requires Valid() && HandedOut(rs, ws) && ws != []
      modifies this, os`freed
      ensures Valid() && HandedOut(rs, ws[..0] + ws[1..])
    {
      RemoveDistinct(ws, 0);
      FreeWriteBufferInner(ws[0] + META);
    }

    /** One connection comes or goes; `rs` and `ws` are the nodes of the open ones. */
    method PairStep(op: PairOp, rs: seq<int>, ws: seq<int>) returns (rs': seq<int>, ws': seq<int>)
      requires Valid() && Even() && Open(rs, ws)
      modifies this, os
      ensures Valid() && Even() && Open(rs', ws')
      ensures op.Connect? ==> (rs' == rs && ws' == ws && old(view).rd.list == [] && AllRefused())
                              || (|rs'| == |rs| + 1 && rs'[1..] == rs && ws'[1..] == ws)
      ensures op.Disconnect? && op.k < |rs| ==> rs' == rs[..op.k] + rs[op.k + 1..] && ws' == ws[..op.k] + ws[op.k + 1..]
      ensures op.Disconnect? && op.k >= |rs| ==> rs' == rs && ws' == ws
      ensures old(os.refused) <= os.refused && (os.refused == old(os.refused) ==> |rs'| == OpenNext(|rs|, op))
    {
      rs', ws' := rs, ws;
      match op {
        case Connect =>
          var r, w := OpenPair();
          if r != NULL {
            PushDistinct(r - META, rs);
            PushDistinct(w - META, ws);
            rs', ws' := [r - META] + rs, [w - META] + ws;
          }
        case Disconnect(k) =>
          if k < |rs| {
            RemoveDistinct(rs, k);
            RemoveDistinct(ws, k);
            ClosePair(rs[k] + META, ws[k] + META);
            rs', ws' := rs[..k] + rs[k + 1..], ws[..k] + ws[k + 1..];
          }
      }
    }

    /** Any run of connections that come and go, in any order, against any malloc: at every boundary
        the two lists are level and within the limit, and nothing is handed out but to open connections.  If malloc
        refuses nothing on the way, all of them have come and gone. */
    method PairedRun(ops: seq<PairOp>) returns (rs: seq<int>, ws: seq<int>)
      requires Valid() && Even() && view.rd.out == {} && view.wr.out == {}
      modifies this, os
      ensures Valid() && rbSize == wbSize <= minBlockNum && Open(rs, ws)
      ensures os.refused == old(os.refused) ==> |rs| == OpenAfter(ops)
    {
      rs, ws := [], [];
      for i := 0 to |ops|
        invariant Valid() && Even() && Open(rs, ws) && old(os.refused) <= os.refused
        invariant os.refused == old(os.refused) ==> |rs| == OpenAfter(ops[..i])
      {
        rs, ws := PairStep(ops[i], rs, ws);
        OpenMore(ops, i);
      }
      assert ops[..|ops|] == ops;
    }
  }

  /** How many connections are open after one more operation that malloc does not stand in the way of. */
  function OpenNext(n: nat, op: PairOp): nat
  {
    if op.Connect? then n + 1 else if op.k < n then n - 1 else n
  }

  function OpenAfter(ops: seq<PairOp>): nat
  {
    if ops == [] then 0 else OpenNext(OpenAfter(ops[..|ops| - 1]), ops[|ops| - 1])
  }

  lemma OpenMore(ops: seq<PairOp>, i: nat)
    requires i < |ops|
    ensures OpenAfter(ops[..i + 1]) == OpenNext(OpenAfter(ops[..i]), ops[i])
  {
    assert ops[..i + 1][..i] == ops[..i];
  }

  datatype PoolOp = AskRead | AskWrite | FreeRead(k: nat) | FreeWrite(k: nat) | ResetPool

  datatype PairOp = Connect | Disconnect(k: nat)
}
