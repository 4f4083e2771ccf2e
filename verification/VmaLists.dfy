/**
  sys/virt_mem.c: the linked lists of areas, one for each process slot, and the list of
  recycled nodes that they share.  A node is known by the number of its allocation.
 */
module VmaLists {
  import opened Spaces
  import opened Wrappers

  const NULL: int := -1

  // The lists a node can be in: that of a slot, the recycled ones, or none at the moment.
  const RECYCLED: int := -1
  const LOOSE: int := -2

  datatype Node = Node(vstart: nat, vend: nat, nextvma: int)

  // The nodes and the heads as the source has them.
  datatype Heap = Heap(nodes: seq<Node>, heads: seq<int>, recycleList: int)

  // The lists they make up, and the list that each node is in.
  datatype Shape = Shape(lists: seq<seq<int>>, spare: seq<int>, home: seq<int>)

  function At(list: seq<int>, k: nat): int {
    if k < |list| then list[k] else NULL
  }

  ghost predicate Distinct(list: seq<int>) {
    forall k, m :: 0 <= k < m < |list| ==> list[k] != list[m]
  }

  // The chain that starts at head passes through exactly these nodes, and ends.
  ghost predicate Linked(nodes: seq<Node>, head: int, list: seq<int>) {
    && head == At(list, 0) && Distinct(list)
    && forall k {:trigger list[k]} :: 0 <= k < |list| ==>
         0 <= list[k] < |nodes| && nodes[list[k]].nextvma == At(list, k + 1)
  }

  ghost predicate AllAt(list: seq<int>, home: seq<int>, i: int) {
    forall k {:trigger list[k]} :: 0 <= k < |list| ==> 0 <= list[k] < |home| && home[list[k]] == i
  }

  // Nodes that are not in a list do not matter to it.
  lemma LinkedKept(nodes: seq<Node>, more: seq<Node>, head: int, list: seq<int>)
    requires Linked(nodes, head, list) && |nodes| <= |more|
    requires forall k {:trigger list[k]} :: 0 <= k < |list| ==> more[list[k]].nextvma == nodes[list[k]].nextvma
    ensures Linked(more, head, list)
  {
  }

  lemma LinkedPush(nodes: seq<Node>, head: int, list: seq<int>, n: int)
    requires Linked(nodes, head, list) && list != [] && n !in list && 0 <= n < |nodes| && nodes[n].nextvma == NULL
    ensures var last := list[|list| - 1];
            Linked(nodes[last := nodes[last].(nextvma := n)], head, list + [n])
  {
    var last := list[|list| - 1];
    var more, all := nodes[last := nodes[last].(nextvma := n)], list + [n];
    forall k | 0 <= k < |all| ensures 0 <= all[k] < |more| && more[all[k]].nextvma == At(all, k + 1) {
      assert k < |list| - 1 ==> list[k] != last;
    }
  }

  lemma LinkedPop(nodes: seq<Node>, head: int, list: seq<int>)
    requires Linked(nodes, head, list) && list != []
    ensures 0 <= head < |nodes| && Linked(nodes, nodes[head].nextvma, list[1..])
  {
  }

  function Dropped(list: seq<int>, k: nat): seq<int>
    requires k < |list|
  {
    list[..k] + list[k + 1..]
  }

  lemma DroppedAt(list: seq<int>, k: nat, m: nat)
    requires k < |list| && m <= |list| - 1
    ensures m < |list| - 1 ==> Dropped(list, k)[m] == list[if m < k then m else m + 1]
    ensures At(Dropped(list, k), m) == At(list, if m < k then m else m + 1)
  {
  }

  lemma LinkedCut(nodes: seq<Node>, head: int, list: seq<int>, k: nat)
    requires Linked(nodes, head, list) && 0 < k < |list|
    ensures 0 <= list[k - 1] < |nodes| && 0 <= list[k] < |nodes|
    ensures Linked(nodes[list[k - 1] := nodes[list[k - 1]].(nextvma := nodes[list[k]].nextvma)], head, Dropped(list, k))
  {
    var prev := list[k - 1];
    var more := nodes[prev := nodes[prev].(nextvma := nodes[list[k]].nextvma)];
    var rest := Dropped(list, k);
    forall m {:trigger rest[m]} | 0 <= m < |rest| ensures 0 <= rest[m] < |more| && more[rest[m]].nextvma == At(rest, m + 1) {
      CutLink(nodes, head, list, k, m);
    }
    DroppedDistinct(list, k);
    DroppedAt(list, k, 0);
  }

  lemma CutLink(nodes: seq<Node>, head: int, list: seq<int>, k: nat, m: nat)
    requires Linked(nodes, head, list) && 0 < k < |list| && m < |list| - 1
    ensures 0 <= list[k - 1] < |nodes| && 0 <= list[k] < |nodes|
    ensures var rest := Dropped(list, k); var prev := list[k - 1];
            && 0 <= rest[m] < |nodes|
            && nodes[prev := nodes[prev].(nextvma := nodes[list[k]].nextvma)][rest[m]].nextvma == At(rest, m + 1)
  {
    hide Linked, Dropped, At;
    var j := if m < k then m else m + 1;
    DroppedAt(list, k, m);
    DroppedAt(list, k, m + 1);
    LinkAt(nodes, head, list, j, k - 1);
    LinkAt(nodes, head, list, k, k - 1);
  }

  lemma LinkAt(nodes: seq<Node>, head: int, list: seq<int>, j: nat, i: nat)
    requires Linked(nodes, head, list) && j < |list| && i < |list|
    ensures 0 <= list[j] < |nodes| && 0 <= list[i] < |nodes| && nodes[list[j]].nextvma == At(list, j + 1)
    ensures j != i ==> list[j] != list[i]
  {
  }

  lemma DroppedDistinct(list: seq<int>, k: nat)
    requires Distinct(list) && k < |list|
    ensures Distinct(Dropped(list, k)) && list[k] !in Dropped(list, k)
    ensures forall x :: x in list && x != list[k] ==> x in Dropped(list, k)
  {
    var rest := Dropped(list, k);
    forall x | x in list && x != list[k] ensures x in rest {
      var j :| 0 <= j < |list| && list[j] == x;
      assert rest[if j < k then j else j - 1] == x;
    }
  }

  // ------------------------------------------------------------------- all lists

  function HeadOf(h: Heap, i: int): int
    requires RECYCLED <= i < |h.heads|
  {
    if i == RECYCLED then h.recycleList else h.heads[i]
  }

  function WithHead(h: Heap, i: int, x: int): Heap
    requires RECYCLED <= i < |h.heads|
  {
    if i == RECYCLED then h.(recycleList := x) else h.(heads := h.heads[i := x])
  }

  function ListOf(s: Shape, i: int): seq<int>
    requires RECYCLED <= i < |s.lists|
  {
    if i == RECYCLED then s.spare else s.lists[i]
  }

  function WithList(s: Shape, i: int, list: seq<int>): Shape
    requires RECYCLED <= i < |s.lists|
  {
    if i == RECYCLED then s.(spare := list) else s.(lists := s.lists[i := list])
  }

  ghost predicate ListOk(h: Heap, s: Shape, i: int)
    requires RECYCLED <= i < |s.lists| == |h.heads|
  {
    Linked(h.nodes, HeadOf(h, i), ListOf(s, i)) && AllAt(ListOf(s, i), s.home, i)
  }

  ghost predicate Somewhere(s: Shape, n: nat)
    requires n < |s.home|
  {
    s.home[n] == LOOSE || (RECYCLED <= s.home[n] < |s.lists| && n in ListOf(s, s.home[n]))
  }

  // Every list is linked and ends, no node is in two lists or twice in one, and none is
  // lost, unless it is in nobody's list for the moment.
  ghost predicate Sound(h: Heap, s: Shape) {
    && |s.lists| == |h.heads| && |s.home| == |h.nodes|
    && (forall i {:trigger ListOk(h, s, i)} :: RECYCLED <= i < |s.lists| ==> ListOk(h, s, i))
    && (forall n {:trigger Somewhere(s, n)} :: 0 <= n < |s.home| ==> Somewhere(s, n))
  }

  // A node that is in no list goes to the end of one.
  function Pushed(h: Heap, s: Shape, i: int, n: nat): Heap
    requires RECYCLED <= i < |s.lists| == |h.heads|
    requires ListOf(s, i) != [] ==> 0 <= ListOf(s, i)[|ListOf(s, i)| - 1] < |h.nodes|
  {
    var list := ListOf(s, i);
    if list == [] then WithHead(h, i, n)
    else h.(nodes := h.nodes[list[|list| - 1] := h.nodes[list[|list| - 1]].(nextvma := n)])
  }

  function PushedShape(s: Shape, i: int, n: nat): Shape
    requires RECYCLED <= i < |s.lists| && n < |s.home|
  {
    WithList(s, i, ListOf(s, i) + [n]).(home := s.home[n := i])
  }

  lemma ListOkOf(h: Heap, s: Shape, i: int)
    requires Sound(h, s) && RECYCLED <= i < |s.lists|
    ensures ListOk(h, s, i) && |s.lists| == |h.heads| && |s.home| == |h.nodes|
  {
  }

  lemma LooseNotIn(s: Shape, list: seq<int>, i: int, n: nat)
    requires AllAt(list, s.home, i) && n < |s.home| && s.home[n] != i
    ensures n !in list
  {
  }

  lemma PushedHere(h: Heap, s: Shape, i: int, n: nat)
    requires Sound(h, s) && RECYCLED <= i < |s.lists|
    requires n < |h.nodes| && s.home[n] == LOOSE && h.nodes[n].nextvma == NULL
    ensures ListOf(s, i) != [] ==> 0 <= ListOf(s, i)[|ListOf(s, i)| - 1] < |h.nodes|
    ensures |Pushed(h, s, i, n).heads| == |h.heads| && ListOk(Pushed(h, s, i, n), PushedShape(s, i, n), i)
  {
    ListOkOf(h, s, i);
    LooseNotIn(s, ListOf(s, i), i, n);
    hide Sound;
    var list := ListOf(s, i);
    AllAtPush(list, s.home, i, n);
    if list == [] {
      assert [] + [n] == [n];
    } else {
      LinkedPush(h.nodes, HeadOf(h, i), list, n);
    }
    hide Linked, AllAt;
    assert ListOf(PushedShape(s, i, n), i) == list + [n];
  }

  lemma AllAtPush(list: seq<int>, home: seq<int>, i: int, n: nat)
    requires AllAt(list, home, i) && n < |home|
    ensures AllAt(list + [n], home[n := i], i)
  {
  }

  lemma PushedElsewhere(h: Heap, s: Shape, i: int, n: nat, j: int)
    requires Sound(h, s) && RECYCLED <= i < |s.lists| && RECYCLED <= j < |s.lists| && j != i
    requires n < |h.nodes| && s.home[n] == LOOSE
    requires ListOf(s, i) != [] ==> 0 <= ListOf(s, i)[|ListOf(s, i)| - 1] < |h.nodes|
    ensures |Pushed(h, s, i, n).heads| == |h.heads| && ListOk(Pushed(h, s, i, n), PushedShape(s, i, n), j)
  {
    ListOkOf(h, s, i);
    ListOkOf(h, s, j);
    hide Sound;
    var list := ListOf(s, i);
    LooseNotIn(s, ListOf(s, j), j, n);
    if list != [] {
      LooseNotIn(s, ListOf(s, j), j, list[|list| - 1]);
    }
    LinkedKept(h.nodes, Pushed(h, s, i, n).nodes, HeadOf(h, j), ListOf(s, j));
  }

  lemma PushedSound(h: Heap, s: Shape, i: int, n: nat)
    requires Sound(h, s) && RECYCLED <= i < |s.lists|
    requires n < |h.nodes| && s.home[n] == LOOSE && h.nodes[n].nextvma == NULL
    ensures ListOf(s, i) != [] ==> 0 <= ListOf(s, i)[|ListOf(s, i)| - 1] < |h.nodes|
    ensures Sound(Pushed(h, s, i, n), PushedShape(s, i, n))
  {
    PushedHere(h, s, i, n);
    var g, t := Pushed(h, s, i, n), PushedShape(s, i, n);
    forall j | RECYCLED <= j < |t.lists| ensures ListOk(g, t, j) {
      if j != i {
        PushedElsewhere(h, s, i, n, j);
      }
    }
    forall m {:trigger Somewhere(t, m)} | 0 <= m < |t.home| ensures Somewhere(t, m) {
      assert Somewhere(s, m);
    }
  }

  // The nodes of a list are there.
  predicate Ranged(list: seq<int>, n: nat) {
    forall m {:trigger list[m]} :: 0 <= m < |list| ==> 0 <= list[m] < n
  }

  // A node leaves its list.
  function Cut(h: Heap, s: Shape, i: int, k: nat): Heap
    requires RECYCLED <= i < |s.lists| == |h.heads| && k < |ListOf(s, i)|
    requires Ranged(ListOf(s, i), |h.nodes|)
  {
    var list := ListOf(s, i);
    if k == 0 then WithHead(h, i, h.nodes[list[0]].nextvma)
    else h.(nodes := h.nodes[list[k - 1] := h.nodes[list[k - 1]].(nextvma := h.nodes[list[k]].nextvma)])
  }

  function CutShape(s: Shape, i: int, k: nat): Shape
    requires RECYCLED <= i < |s.lists| && k < |ListOf(s, i)| && 0 <= ListOf(s, i)[k] < |s.home|
  {
    WithList(s, i, Dropped(ListOf(s, i), k)).(home := s.home[ListOf(s, i)[k] := LOOSE])
  }

  lemma CutHere(h: Heap, s: Shape, i: int, k: nat)
    requires Sound(h, s) && RECYCLED <= i < |s.lists| && k < |ListOf(s, i)|
    ensures Ranged(ListOf(s, i), |h.nodes|) && |s.home| == |h.nodes|
    ensures |Cut(h, s, i, k).heads| == |h.heads| && ListOk(Cut(h, s, i, k), CutShape(s, i, k), i)
  {
    ListOkOf(h, s, i);
    hide Sound;
    var list := ListOf(s, i);
    CutLinks(h.nodes, HeadOf(h, i), list, k);
    AllAtCut(list, s.home, i, k);
    hide Linked, AllAt, Dropped;
    assert ListOf(CutShape(s, i, k), i) == Dropped(list, k);
  }

  // The head and the nodes after a cut.
  lemma CutLinks(nodes: seq<Node>, head: int, list: seq<int>, k: nat)
    requires Linked(nodes, head, list) && k < |list|
    ensures Ranged(list, |nodes|)
    ensures k == 0 ==> Linked(nodes, nodes[list[0]].nextvma, Dropped(list, 0))
    ensures k > 0 ==> Linked(nodes[list[k - 1] := nodes[list[k - 1]].(nextvma := nodes[list[k]].nextvma)], head, Dropped(list, k))
  {
    if k == 0 {
      LinkedPop(nodes, head, list);
      assert Dropped(list, 0) == list[1..];
    } else {
      LinkedCut(nodes, head, list, k);
    }
  }

  lemma AllAtCut(list: seq<int>, home: seq<int>, i: int, k: nat)
    requires AllAt(list, home, i) && Distinct(list) && k < |list|
    ensures 0 <= list[k] < |home| && AllAt(Dropped(list, k), home[list[k] := LOOSE], i)
  {
    DroppedDistinct(list, k);
    forall m {:trigger Dropped(list, k)[m]} | 0 <= m < |list| - 1
      ensures 0 <= Dropped(list, k)[m] < |home| && home[list[k] := LOOSE][Dropped(list, k)[m]] == i
    {
      assert Dropped(list, k)[m] in Dropped(list, k);
      DroppedAt(list, k, m);
    }
  }

  lemma CutElsewhere(h: Heap, s: Shape, i: int, k: nat, j: int)
    requires Sound(h, s) && RECYCLED <= i < |s.lists| && RECYCLED <= j < |s.lists| && j != i && k < |ListOf(s, i)|
    requires Ranged(ListOf(s, i), |h.nodes|) && |s.home| == |h.nodes|
    ensures |Cut(h, s, i, k).heads| == |h.heads| && ListOk(Cut(h, s, i, k), CutShape(s, i, k), j)
  {
    ListOkOf(h, s, i);
    ListOkOf(h, s, j);
    hide Sound;
    var list := ListOf(s, i);
    NotShared(s, i, j, k);
    AllAtElsewhere(ListOf(s, j), s.home, j, list[k]);
    KeptElsewhere(h.nodes, Cut(h, s, i, k).nodes, HeadOf(h, j), ListOf(s, j), if k == 0 then list[0] else list[k - 1]);
  }

  lemma NotShared(s: Shape, i: int, j: int, k: nat)
    requires RECYCLED <= i < |s.lists| && RECYCLED <= j < |s.lists| && j != i && k < |ListOf(s, i)|
    requires AllAt(ListOf(s, i), s.home, i) && AllAt(ListOf(s, j), s.home, j)
    ensures ListOf(s, i)[k] !in ListOf(s, j) && (k > 0 ==> ListOf(s, i)[k - 1] !in ListOf(s, j)) && ListOf(s, i)[0] !in ListOf(s, j)
  {
  }

  lemma AllAtElsewhere(list: seq<int>, home: seq<int>, j: int, n: int)
    requires AllAt(list, home, j) && n !in list && 0 <= n < |home|
    ensures AllAt(list, home[n := LOOSE], j)
  {
  }

  lemma KeptElsewhere(nodes: seq<Node>, more: seq<Node>, head: int, list: seq<int>, n: int)
    requires Linked(nodes, head, list) && |more| == |nodes| && n !in list
    requires forall m {:trigger more[m]} :: 0 <= m < |nodes| && m != n ==> more[m] == nodes[m]
    ensures Linked(more, head, list)
  {
    LinkedKept(nodes, more, head, list);
  }

  lemma CutSound(h: Heap, s: Shape, i: int, k: nat)
    requires Sound(h, s) && RECYCLED <= i < |s.lists| && k < |ListOf(s, i)|
    ensures Ranged(ListOf(s, i), |h.nodes|) && |s.home| == |h.nodes|
    ensures Sound(Cut(h, s, i, k), CutShape(s, i, k))
  {
    CutHere(h, s, i, k);
    ListOkOf(h, s, i);
    DroppedDistinct(ListOf(s, i), k);
    var g, t := Cut(h, s, i, k), CutShape(s, i, k);
    forall j | RECYCLED <= j < |t.lists| ensures ListOk(g, t, j) {
      if j != i {
        CutElsewhere(h, s, i, k, j);
      }
    }
    forall m {:trigger Somewhere(t, m)} | 0 <= m < |t.home| ensures Somewhere(t, m) {
      assert Somewhere(s, m);
    }
  }

  // What is written into a node that is in no list matters to none.
  lemma LooseWritten(h: Heap, s: Shape, n: nat, b: Node)
    requires Sound(h, s) && n < |h.nodes| && s.home[n] == LOOSE
    ensures Sound(h.(nodes := h.nodes[n := b]), s)
    ensures forall i :: 0 <= i < |s.lists| ==> SameAreas(h.nodes, h.nodes[n := b], s.lists[i])
  {
    var g := h.(nodes := h.nodes[n := b]);
    forall j | RECYCLED <= j < |s.lists| ensures ListOk(g, s, j) && SameAreas(h.nodes, g.nodes, ListOf(s, j)) {
      ListOkOf(h, s, j);
      LooseNotIn(s, ListOf(s, j), j, n);
      LinkedKept(h.nodes, g.nodes, HeadOf(h, j), ListOf(s, j));
    }
    forall i | 0 <= i < |s.lists| ensures SameAreas(h.nodes, g.nodes, s.lists[i]) {
      assert ListOf(s, i) == s.lists[i];
    }
  }

  // kmalloc makes one more node.
  lemma Grown(h: Heap, s: Shape, b: Node)
    requires Sound(h, s)
    ensures Sound(h.(nodes := h.nodes + [b]), s.(home := s.home + [LOOSE]))
    ensures forall i :: 0 <= i < |s.lists| ==> SameAreas(h.nodes, h.nodes + [b], s.lists[i])
  {
    var g, t := h.(nodes := h.nodes + [b]), s.(home := s.home + [LOOSE]);
    forall j | RECYCLED <= j < |s.lists| ensures ListOk(g, t, j) && SameAreas(h.nodes, g.nodes, ListOf(s, j)) {
      ListOkOf(h, s, j);
      LinkedKept(h.nodes, g.nodes, HeadOf(h, j), ListOf(s, j));
    }
    forall i | 0 <= i < |s.lists| ensures SameAreas(h.nodes, g.nodes, s.lists[i]) {
      assert ListOf(s, i) == s.lists[i];
    }
    forall m {:trigger Somewhere(t, m)} | 0 <= m < |t.home| ensures Somewhere(t, m) {
      if m < |s.home| {
        assert Somewhere(s, m);
      }
    }
  }

  // The nodes of a list describe the same areas.
  predicate SameAreas(nodes: seq<Node>, more: seq<Node>, list: seq<int>) {
    forall k {:trigger list[k]} :: 0 <= k < |list| ==>
      && 0 <= list[k] < |nodes| && list[k] < |more|
      && more[list[k]].vstart == nodes[list[k]].vstart && more[list[k]].vend == nodes[list[k]].vend
  }

  function AreaOf(b: Node): Vma { Vma(b.vstart, b.vend) }

  // What the nodes of a list describe.
  function AreasOf(nodes: seq<Node>, list: seq<int>): (r: seq<Vma>)
    ensures |r| == |list|
    ensures forall k :: 0 <= k < |list| && 0 <= list[k] < |nodes| ==> r[k] == AreaOf(nodes[list[k]])
  {
    if list == [] then []
    else [if 0 <= list[0] < |nodes| then AreaOf(nodes[list[0]]) else Vma(0, 0)] + AreasOf(nodes, list[1..])
  }

  lemma SameAreasOf(nodes: seq<Node>, more: seq<Node>, list: seq<int>)
    requires SameAreas(nodes, more, list)
    ensures AreasOf(more, list) == AreasOf(nodes, list)
  {
  }

  lemma RelinkedAreas(nodes: seq<Node>, m: nat, x: int, list: seq<int>)
    requires m < |nodes| && forall k :: 0 <= k < |list| ==> 0 <= list[k] < |nodes|
    ensures AreasOf(nodes[m := nodes[m].(nextvma := x)], list) == AreasOf(nodes, list)
  {
  }

  lemma AreasPush(nodes: seq<Node>, list: seq<int>, n: nat)
    requires n < |nodes|
    ensures AreasOf(nodes, list + [n]) == AreasOf(nodes, list) + [AreaOf(nodes[n])]
  {
    if list != [] {
      assert (list + [n])[1..] == list[1..] + [n];
    }
  }

  lemma AreasDropped(nodes: seq<Node>, list: seq<int>, k: nat)
    requires k < |list|
    ensures AreasOf(nodes, Dropped(list, k)) == Without(AreasOf(nodes, list), k)
  {
    if k == 0 {
      assert Dropped(list, 0) == list[1..];
      assert Without(AreasOf(nodes, list), 0) == AreasOf(nodes, list)[1..];
    } else {
      assert Dropped(list, k)[1..] == Dropped(list[1..], k - 1);
      AreasDropped(nodes, list[1..], k - 1);
    }
  }

  ghost predicate NoneLoose(s: Shape) {
    forall n {:trigger s.home[n]} :: 0 <= n < |s.home| ==> s.home[n] != LOOSE
  }

  class VmaHeap {
    var nodes: seq<Node>          // every struct that kmalloc made
    const heads: array<int>       // all_pro[i].mmstruct.vma_list
    var recycleList: int          // vma_recycle_list
    ghost var shape: Shape

    ghost function View(): Heap
      reads this, heads
    {
      Heap(nodes, heads[..], recycleList)
    }

    ghost predicate Valid()
      reads this, heads
    {
      Sound(View(), shape)
    }

    // The areas of a process.
    ghost function Areas(i: nat): seq<Vma>
      requires i < |shape.lists|
      reads this
    {
      AreasOf(nodes, shape.lists[i])
    }

    constructor (slots: nat)
      ensures Valid() && NoneLoose(shape) && fresh(heads) && heads.Length == slots && nodes == []
      ensures |shape.lists| == slots && forall i :: 0 <= i < slots ==> Areas(i) == []
    {
      nodes, recycleList := [], NULL;
      heads := new int[slots](i => NULL);
      shape := Shape(seq(slots, i => []), [], []);
    }

    // The search for the end of a list.
    method LastOf(head: int, ghost list: seq<int>) returns (last: int)
      requires Linked(nodes, head, list) && list != []
      ensures last == list[|list| - 1]
    {
      last := head;
      ghost var k: nat := 0;
      while nodes[last].nextvma != NULL
        invariant k < |list| && last == list[k]
        decreases |list| - k
      {
        last := nodes[last].nextvma;
        k := k + 1;
      }
    }

    // recyclevmastruct, for a node that is in no list.
    method Recycle(n: nat)
      requires Valid() && n < |nodes| && shape.home[n] == LOOSE
      modifies this`nodes, this`recycleList, this`shape
      ensures Valid() && |nodes| == |old(nodes)|
      ensures shape == PushedShape(old(shape), RECYCLED, n)
      ensures forall i :: 0 <= i < |shape.lists| ==> Areas(i) == old(Areas(i))
    {
      hide Sound;
      ghost var was, s := View(), shape;
      LooseWritten(was, s, n, nodes[n].(nextvma := NULL));
      nodes := nodes[n := nodes[n].(nextvma := NULL)];
      ghost var h := View();
      PushedSound(h, s, RECYCLED, n);
      ListOkOf(h, s, RECYCLED);
      if recycleList == NULL {
        recycleList := n;
      } else {
        var last := LastOf(recycleList, s.spare);
        nodes := nodes[last := nodes[last].(nextvma := n)];
      }
      shape := PushedShape(s, RECYCLED, n);
      assert View() == Pushed(h, s, RECYCLED, n);
      forall i | 0 <= i < |s.lists| ensures AreasOf(nodes, s.lists[i]) == AreasOf(was.nodes, s.lists[i]) {
        SameAreasOf(was.nodes, h.nodes, s.lists[i]);
        PushedAreas(h, s, RECYCLED, n, i);
      }
    }

    // getvma_from_recylebin
    method GetRecycled() returns (n: int)
      requires Valid()
      modifies this`recycleList, this`shape
      ensures Valid() && nodes == old(nodes)
      ensures old(shape.spare) == [] ==> n == NULL && shape == old(shape) && recycleList == old(recycleList)
      ensures old(shape.spare) != [] ==>
        && n == old(shape.spare)[0] && 0 <= n < |nodes| == |shape.home| == |old(shape).home| && shape.home[n] == LOOSE
        && shape == old(shape).(spare := old(shape).spare[1..], home := old(shape).home[n := LOOSE])
    {
      hide Sound;
      ListOkOf(View(), shape, RECYCLED);
      if recycleList == NULL {
        return NULL;
      }
      n := recycleList;
      CutSound(View(), shape, RECYCLED, 0);
      ghost var g := Cut(View(), shape, RECYCLED, 0);
      recycleList := nodes[recycleList].nextvma;
      assert Dropped(shape.spare, 0) == shape.spare[1..];
      shape := CutShape(shape, RECYCLED, 0);
      assert View() == g;
    }

    // alloc_vma: a recycled node, or else a new one.
    method AllocVma(vstart: nat, vend: nat) returns (n: nat)
      requires Valid()
      modifies this`nodes, this`recycleList, this`shape
      ensures Valid() && n < |nodes| == |shape.home| && shape.home[n] == LOOSE && nodes[n] == Node(vstart, vend, NULL)
      ensures shape.lists == old(shape.lists) && forall i :: 0 <= i < |shape.lists| ==> Areas(i) == old(Areas(i))
      ensures old(shape.spare) == [] ==> n == |old(nodes)| && |nodes| == n + 1 && shape.spare == [] && shape.home == old(shape.home) + [LOOSE]
      ensures old(shape.spare) != [] ==>
        && n == old(shape.spare)[0] && |nodes| == |old(nodes)|
        && shape.spare == old(shape.spare)[1..] && shape.home == old(shape.home)[n := LOOSE]
    {
      hide Sound;
      ghost var was, s0 := View(), shape;
      var m := GetRecycled();
      SoundSizes(View(), shape);
      if m == NULL {
        n := |nodes|;
        Grown(View(), shape, Node(vstart, vend, NULL));
        nodes := nodes + [Node(vstart, vend, NULL)];
        shape := shape.(home := shape.home + [LOOSE]);
      } else {
        n := m;
        LooseWritten(View(), shape, n, Node(vstart, vend, NULL));
        nodes := nodes[n := Node(vstart, vend, NULL)];
      }
      forall i | 0 <= i < |s0.lists| ensures AreasOf(nodes, s0.lists[i]) == AreasOf(was.nodes, s0.lists[i]) {
        SameAreasOf(was.nodes, nodes, s0.lists[i]);
      }
    }

    // append_to_vma_list
    method AppendToVmaList(task: nat, n: nat)
      requires Valid() && task < heads.Length == |shape.lists| && n < |nodes| == |shape.home| && shape.home[n] == LOOSE && nodes[n].nextvma == NULL
      modifies this`nodes, this`shape, heads
      ensures Valid() && |nodes| == |old(nodes)|
      ensures shape == PushedShape(old(shape), task, n)
      ensures forall i :: 0 <= i < |shape.lists| ==>
                Areas(i) == if i == task then old(Areas(i)) + [AreaOf(old(nodes)[n])] else old(Areas(i))
    {
      hide Sound;
      ghost var h, s := View(), shape;
      PushedSound(h, s, task, n);
      ListOkOf(h, s, task);
      if heads[task] == NULL {
        heads[task] := n;
      } else {
        var last := LastOf(heads[task], s.lists[task]);
        nodes := nodes[last := nodes[last].(nextvma := n)];
      }
      shape := PushedShape(s, task, n);
      assert View() == Pushed(h, s, task, n);
      forall i | 0 <= i < |s.lists| ensures AreasOf(nodes, s.lists[i]) == AreasOf(h.nodes, s.lists[i]) {
        PushedAreas(h, s, task, n, i);
      }
      AreasPush(nodes, s.lists[task], n);
    }

    // alloc_vma and append_to_vma_list, as every caller has them.
    method AddArea(task: nat, vstart: nat, vend: nat)
      requires Valid() && task < heads.Length == |shape.lists|
      modifies this`nodes, this`recycleList, this`shape, heads
      ensures Valid() && |shape.lists| == |old(shape.lists)|
      ensures forall i :: 0 <= i < |shape.lists| ==>
                && Areas(i) == (if i == task then old(Areas(i)) + [Vma(vstart, vend)] else old(Areas(i)))
                && (i != task ==> shape.lists[i] == old(shape.lists)[i])
      ensures |nodes| == |old(nodes)| + (if old(shape.spare) == [] then 1 else 0)
      ensures old(NoneLoose(shape)) ==> NoneLoose(shape)
    {
      hide Sound, AreasOf;
      SoundSizes(View(), shape);
      var n := AllocVma(vstart, vend);
      SoundSizes(View(), shape);
      AppendToVmaList(task, n);
    }

    // remove_from_vma_list: the first area that covers both ends is unlinked and recycled,
    // and given to the caller to unmap.
    method RemoveFromVmaList(task: nat, startAddr: nat, endAddr: nat) returns (r: Option<Vma>)
      requires Valid() && task < heads.Length == |shape.lists|
      modifies this`nodes, this`recycleList, this`shape, heads
      ensures Valid() && |nodes| == |old(nodes)| && |shape.lists| == |old(shape.lists)|
      ensures var a := old(Areas(task)); var k := FirstCover(a, startAddr, endAddr);
              && r == (if k == |a| then None else Some(a[k]))
              && Areas(task) == (if k == |a| then a else Without(a, k))
              && (k == |a| ==> shape == old(shape))
              && (k < |a| ==> shape == Recycled(old(shape), task, k))
      ensures forall i :: 0 <= i < |shape.lists| && i != task ==> Areas(i) == old(Areas(i))
      ensures old(NoneLoose(shape)) ==> NoneLoose(shape)
    {
      hide Sound, Linked, AllAt, AreasOf, Without, Unlinked, Dropped;
      ListOkOf(View(), shape, task);
      HeadIs(View(), shape, task);
      if heads[task] == NULL {
        FirstCoverAt(Areas(task), startAddr, endAddr, 0);
        return None;
      }
      var first := nodes[heads[task]];
      if first.vstart <= startAddr && first.vend >= endAddr {
        FirstCoverAt(Areas(task), startAddr, endAddr, 0);
        TakeOut(task, heads[task], heads[task], 0);
        return Some(AreaOf(first));
      }
      ghost var k;
      var prev, current;
      prev, current, k := FindCover(task, startAddr, endAddr);
      FirstCoverAt(Areas(task), startAddr, endAddr, k);
      if current == NULL {
        return None;
      }
      r := Some(AreaOf(nodes[current]));
      TakeOut(task, prev, current, k);
    }

    // The search with two pointers, from the head.
    method FindCover(task: nat, startAddr: nat, endAddr: nat) returns (prev: int, current: int, ghost k: nat)
      requires Valid() && task < heads.Length == |shape.lists| && heads[task] != NULL
      ensures k <= |shape.lists[task]| && current == At(shape.lists[task], k)
      ensures forall m :: 0 <= m < k ==> !(Areas(task)[m].start <= startAddr && Areas(task)[m].end >= endAddr)
      ensures k < |shape.lists[task]| ==>
        && 0 <= current < |nodes| && current != NULL && Areas(task)[k] == AreaOf(nodes[current])
        && nodes[current].vstart <= startAddr && nodes[current].vend >= endAddr
        && (k > 0 ==> 0 <= prev < |nodes| && prev == shape.lists[task][k - 1])
      ensures k == |shape.lists[task]| ==> current == NULL
    {
      hide Sound, Linked, AllAt, AreasOf;
      HeadIs(View(), shape, task);
      ghost var list, a := shape.lists[task], Areas(task);
      current, prev, k := heads[task], heads[task], 0;
      EndOf(View(), shape, task, k);
      while current != NULL
        invariant k <= |list| && current == At(list, k) && (current == NULL <==> k == |list|)
        invariant k > 0 ==> prev == list[k - 1] && 0 <= prev < |nodes|
        invariant forall m :: 0 <= m < k ==> !(a[m].start <= startAddr && a[m].end >= endAddr)
        decreases |list| - k
      {
        NodeOf(View(), shape, task, k);
        EndOf(View(), shape, task, k + 1);
        if nodes[current].vstart <= startAddr && nodes[current].vend >= endAddr {
          return;
        }
        prev := current;
        current := nodes[current].nextvma;
        k := k + 1;
      }
    }

    // The node behind prev, or the head, is unlinked and recycled.
    method TakeOut(task: nat, prev: int, current: int, ghost k: nat)
      requires Valid() && task < heads.Length == |shape.lists| && k < |shape.lists[task]|
      requires current == shape.lists[task][k] && 0 <= current < |nodes| && 0 <= prev < |nodes|
      requires if k > 0 then prev == shape.lists[task][k - 1] else prev == current == heads[task]
      modifies this`nodes, this`recycleList, this`shape, heads
      ensures Valid() && |nodes| == |old(nodes)| && |shape.lists| == |old(shape.lists)|
      ensures shape == Recycled(old(shape), task, k)
      ensures forall i :: 0 <= i < |shape.lists| ==> Areas(i) == if i == task then Without(old(Areas(task)), k) else old(Areas(i))
      ensures old(NoneLoose(shape)) ==> NoneLoose(shape)
    {
      hide Sound, Linked, AllAt, AreasOf, Without;
      SoundSizes(View(), shape);
      if current == heads[task] {
        HeadOnly(View(), shape, task, k);
        UnlinkHead(task);
      } else {
        UnlinkNext(task, prev, current, k);
      }
      SoundSizes(View(), shape);
      Recycle(current);
    }

    // The head of a list moves on to the second node.
    method UnlinkHead(task: nat)
      requires Valid() && task < heads.Length == |shape.lists| && shape.lists[task] != []
      modifies this`shape, heads
      ensures Valid() && shape == Unlinked(old(shape), task, 0)
      ensures forall i :: 0 <= i < |shape.lists| ==> Areas(i) == if i == task then Without(old(Areas(task)), 0) else old(Areas(i))
    {
      hide Sound;
      ghost var h, s := View(), shape;
      ListOkOf(h, s, task);
      CutSound(h, s, task, 0);
      AreasDropped(nodes, s.lists[task], 0);
      heads[task] := nodes[heads[task]].nextvma;
      shape := CutShape(s, task, 0);
      assert View() == Cut(h, s, task, 0);
    }

    // The node before the current one is linked to the one after it.
    method UnlinkNext(task: nat, prev: nat, current: nat, ghost k: nat)
      requires Valid() && task < heads.Length == |shape.lists| && 0 < k < |shape.lists[task]|
      requires prev == shape.lists[task][k - 1] && current == shape.lists[task][k]
      requires prev < |nodes| && current < |nodes|
      modifies this`nodes, this`shape
      ensures Valid() && |nodes| == |old(nodes)| && shape == Unlinked(old(shape), task, k)
      ensures forall i :: 0 <= i < |shape.lists| ==> Areas(i) == if i == task then Without(old(Areas(task)), k) else old(Areas(i))
    {
      hide Sound;
      ghost var h, s := View(), shape;
      CutSound(h, s, task, k);
      AreasDropped(nodes, s.lists[task], k);
      nodes := nodes[prev := nodes[prev].(nextvma := nodes[current].nextvma)];
      shape := CutShape(s, task, k);
      assert View() == Cut(h, s, task, k);
      forall i | 0 <= i < |shape.lists| ensures AreasOf(nodes, shape.lists[i]) == AreasOf(h.nodes, shape.lists[i]) {
        ListOkOf(View(), shape, i);
        RelinkedAreas(h.nodes, prev, h.nodes[current].nextvma, shape.lists[i]);
      }
    }

    // IsPageInVmaList
    method IsPageInVmaList(task: nat, vaddr: nat) returns (found: bool)
      requires Valid() && task < heads.Length == |shape.lists|
      ensures found <==> Covered(Areas(task), vaddr)
      ensures found <==> exists i :: 0 <= i < |Areas(task)| && Areas(task)[i].start <= vaddr <= Areas(task)[i].end
    {
      hide Sound;
      ListOkOf(View(), shape, task);
      ghost var list, a := shape.lists[task], Areas(task);
      var itr := heads[task];
      ghost var k: nat := 0;
      while itr != NULL
        invariant k <= |list| && itr == At(list, k)
        invariant forall m :: 0 <= m < k ==> !a[m].Holds(vaddr) && !(a[m].start <= vaddr <= a[m].end)
        decreases |list| - k
      {
        if vaddr >= nodes[itr].vstart && vaddr <= nodes[itr].vend {
          assert a[k].Holds(vaddr);
          return true;
        }
        itr := nodes[itr].nextvma;
        k := k + 1;
      }
      return false;
    }
  }

  lemma PushedAreas(h: Heap, s: Shape, i: int, n: nat, j: nat)
    requires Sound(h, s) && RECYCLED <= i < |s.lists| && j < |s.lists|
    requires ListOf(s, i) != [] ==> 0 <= ListOf(s, i)[|ListOf(s, i)| - 1] < |h.nodes|
    ensures AreasOf(Pushed(h, s, i, n).nodes, s.lists[j]) == AreasOf(h.nodes, s.lists[j])
  {
    ListOkOf(h, s, j);
    var list := ListOf(s, i);
    if list != [] {
      RelinkedAreas(h.nodes, list[|list| - 1], n, s.lists[j]);
    }
  }

  lemma SoundSizes(h: Heap, s: Shape)
    requires Sound(h, s)
    ensures |s.lists| == |h.heads| && |s.home| == |h.nodes|
  {
  }

  ghost function Unlinked(s: Shape, task: nat, k: nat): Shape
    requires task < |s.lists| && k < |s.lists[task]|
  {
    if 0 <= s.lists[task][k] < |s.home| then CutShape(s, task, k) else s
  }

  lemma FirstCoverAt(a: seq<Vma>, lo: nat, hi: nat, k: nat)
    requires k <= |a| && (k < |a| ==> a[k].start <= lo && a[k].end >= hi)
    requires forall m :: 0 <= m < k ==> !(a[m].start <= lo && a[m].end >= hi)
    ensures FirstCover(a, lo, hi) == k
  {
  }

  // The k-th node of a slot's list has become the last of the recycled ones.
  ghost function Recycled(s: Shape, task: nat, k: nat): Shape
    requires task < |s.lists| && k < |s.lists[task]|
  {
    var n := s.lists[task][k];
    if 0 <= n < |s.home| then
      Shape(s.lists[task := Dropped(s.lists[task], k)], s.spare + [n], s.home[n := RECYCLED])
    else s
  }

  lemma HeadIs(h: Heap, s: Shape, task: nat)
    requires Sound(h, s) && task < |s.lists|
    ensures |s.lists| == |h.heads|
    ensures h.heads[task] == NULL <==> s.lists[task] == []
    ensures s.lists[task] != [] ==> 0 <= h.heads[task] < |h.nodes| && h.heads[task] == s.lists[task][0]
  {
    ListOkOf(h, s, task);
  }

  // A node that is the head is the first, and only the first.
  lemma HeadOnly(h: Heap, s: Shape, task: nat, k: nat)
    requires Sound(h, s) && task < |s.lists| == |h.heads| && k < |s.lists[task]| && s.lists[task][k] == h.heads[task]
    ensures k == 0
  {
    ListOkOf(h, s, task);
  }

  // The k-th node of a list.
  lemma NodeOf(h: Heap, s: Shape, task: nat, k: nat)
    requires Sound(h, s) && task < |s.lists| && k < |s.lists[task]|
    ensures 0 <= s.lists[task][k] < |h.nodes| && s.lists[task][k] != NULL
    ensures h.nodes[s.lists[task][k]].nextvma == At(s.lists[task], k + 1)
    ensures AreasOf(h.nodes, s.lists[task])[k] == AreaOf(h.nodes[s.lists[task][k]])
  {
    ListOkOf(h, s, task);
  }

  lemma EndOf(h: Heap, s: Shape, task: nat, k: nat)
    requires Sound(h, s) && task < |s.lists| && k <= |s.lists[task]|
    ensures At(s.lists[task], k) == NULL <==> k == |s.lists[task]|
  {
    ListOkOf(h, s, task);
  }
}
