/** The typed node slabs of one D-HARHT shard: tagged entries, leaves, and inner
    nodes that grow from 4 to 16, 32, 48 and 256 children. */
module Slabs {
  import opened Wrappers
  import opened Scattering
  import opened RadixTree

  const EMPTY: nat := 0xFFFF_FFFF
  const NODE48_EMPTY: nat := 255
  const INDEX_LIMIT: nat := 0x2000_0000

  datatype NodeKind = Leaf | Node4 | Node16 | Node32 | Node48 | Node256

  // ----- tagged entries: a slab index above a three-bit kind -----

  type TaggedNode = raw: nat | raw % 8 < 6 && raw / 8 < INDEX_LIMIT

  function TagOf(kind: NodeKind): (tag: nat)
    ensures tag < 6
  {
    match kind
    case Leaf => 0
    case Node4 => 1
    case Node16 => 2
    case Node32 => 3
    case Node48 => 4
    case Node256 => 5
  }

  /** Packing an index and a kind into one word loses neither. */
  function Tagged(kind: NodeKind, index: nat): (e: TaggedNode)
    requires index < INDEX_LIMIT
    ensures Kind(e) == kind && Index(e) == index
  {
    8 * index + TagOf(kind)
  }

  function Kind(e: TaggedNode): NodeKind {
    match e % 8
    case 0 => Leaf
    case 1 => Node4
    case 2 => Node16
    case 3 => Node32
    case 4 => Node48
    case _ => Node256
  }

  function Index(e: TaggedNode): nat { e / 8 }

  // ----- nodes -----

  /** A node that lists the radices of its children (the 4, 16 and 32 slabs). */
  datatype KeyedNode = KeyedNode(count: nat, keys: seq<byte>, children: seq<nat>)
  datatype IndexedNode = IndexedNode(count: nat, childIndex: seq<nat>, children: seq<nat>)
  datatype DirectNode = DirectNode(count: nat, children: seq<nat>)

  function Fill<T>(n: nat, x: T): (s: seq<T>)
    ensures |s| == n && forall i :: 0 <= i < n ==> s[i] == x
  {
    seq(n, i => x)
  }

  /** The first slot that holds `r`, or the number of slots. */
  function FirstAt<T(==)>(keys: seq<T>, r: T): (slot: nat)
    ensures slot <= |keys|
    ensures slot < |keys| ==> keys[slot] == r
    ensures forall j :: 0 <= j < slot ==> keys[j] != r
  {
    if keys == [] || keys[0] == r then 0 else 1 + FirstAt(keys[1..], r)
  }

  /** The last slot that holds `r`, or the number of slots. */
  function LastAt<T(==)>(keys: seq<T>, r: T): (slot: nat)
    ensures slot <= |keys|
    ensures slot < |keys| ==> keys[slot] == r
    ensures forall j :: slot < j < |keys| ==> keys[j] != r
    ensures slot == |keys| ==> forall j :: 0 <= j < |keys| ==> keys[j] != r
  {
    if keys == [] then 0
    else if keys[|keys| - 1] == r then |keys| - 1
    else
      var slot := LastAt(keys[..|keys| - 1], r);
      if slot == |keys| - 1 then |keys| else slot
  }

  function FindKeyed(n: KeyedNode, radix: byte): Option<nat>
    requires n.count <= |n.keys| == |n.children|
  {
    var slot := FirstAt(n.keys[..n.count], radix);
    if slot < n.count then Some(n.children[slot]) else None
  }

  predicate Distinct<T(==)>(keys: seq<T>) {
    forall i, j :: 0 <= i < j < |keys| ==> keys[i] != keys[j]
  }

  predicate KeyedOk(n: KeyedNode, capacity: nat) {
    |n.keys| == |n.children| == capacity && n.count <= capacity
  }

  predicate IndexedOk(n: IndexedNode) {
    && |n.childIndex| == 256 && |n.children| == 48 && n.count <= 48
    && forall r :: 0 <= r < 256 ==> n.childIndex[r] == NODE48_EMPTY || n.childIndex[r] < n.count
  }

  predicate DirectOk(n: DirectNode) {
    |n.children| == 256
  }

  ghost function KeyedChildren(n: KeyedNode): map<byte, nat>
    requires n.count <= |n.keys| == |n.children|
  {
    map r: byte | FirstAt(n.keys[..n.count], r) < n.count :: n.children[FirstAt(n.keys[..n.count], r)]
  }

  /** The children, if the last slot of a radix counts and not the first. */
  ghost function LastChildren(n: KeyedNode): map<byte, nat>
    requires n.count <= |n.keys| == |n.children|
  {
    map r: byte | LastAt(n.keys[..n.count], r) < n.count :: n.children[LastAt(n.keys[..n.count], r)]
  }

  ghost function IndexedChildren(n: IndexedNode): map<byte, nat>
    requires IndexedOk(n)
  {
    map r: byte | n.childIndex[r] != NODE48_EMPTY :: n.children[n.childIndex[r]]
  }

  ghost function DirectChildren(n: DirectNode): map<byte, nat>
    requires DirectOk(n)
  {
    map r: byte | n.children[r] != EMPTY :: n.children[r]
  }

  lemma FirstAtAppend(keys: seq<byte>, k: byte, r: byte)
    ensures FirstAt(keys + [k], r) ==
            if FirstAt(keys, r) < |keys| then FirstAt(keys, r)
            else if k == r then |keys| else |keys| + 1
  {
    if keys != [] {
      assert (keys + [k])[1..] == keys[1..] + [k];
    }
  }

  /** The first slot of `r` is characterised by holding it and by no earlier slot doing so. */
  lemma FirstAtIs(keys: seq<byte>, r: byte, slot: nat)
    requires slot <= |keys| && forall j :: 0 <= j < slot ==> keys[j] != r
    requires slot < |keys| ==> keys[slot] == r
    ensures FirstAt(keys, r) == slot
  {
  }

  lemma EmptyKeyed(capacity: nat)
    ensures KeyedChildren(KeyedNode(0, Fill(capacity, 0), Fill(capacity, EMPTY))) == map[]
  {
  }

  /** Filling the next free slot adds a child, unless an earlier slot has its radix. */
  lemma KeyedAppend(n: KeyedNode, r: byte, child: nat, capacity: nat)
    requires KeyedOk(n, capacity) && n.count < capacity
    ensures var n' := KeyedNode(n.count + 1, n.keys[n.count := r], n.children[n.count := child]);
            var ch := KeyedChildren(n);
            KeyedOk(n', capacity) && KeyedChildren(n') == (if r in ch then ch else ch[r := child])
  {
    var n' := KeyedNode(n.count + 1, n.keys[n.count := r], n.children[n.count := child]);
    var ch := KeyedChildren(n);
    var want := if r in ch then ch else ch[r := child];
    forall x: byte
      ensures (x in KeyedChildren(n') <==> x in want) && (x in want ==> KeyedChildren(n')[x] == want[x])
    {
      hide *;
      KeyedAppendAt(n, r, child, capacity, x);
    }
    hide KeyedChildren;
    assert KeyedChildren(n') == want;
  }

  lemma KeyedAppendAt(n: KeyedNode, r: byte, child: nat, capacity: nat, x: byte)
    requires KeyedOk(n, capacity) && n.count < capacity
    ensures var n' := KeyedNode(n.count + 1, n.keys[n.count := r], n.children[n.count := child]);
            var ch := KeyedChildren(n);
            var want := if r in ch then ch else ch[r := child];
            KeyedOk(n', capacity)
            && (x in KeyedChildren(n') <==> x in want) && (x in want ==> KeyedChildren(n')[x] == want[x])
  {
    hide FirstAt;
    var n' := KeyedNode(n.count + 1, n.keys[n.count := r], n.children[n.count := child]);
    var live := n.keys[..n.count];
    assert n'.keys[..n'.count] == live + [r];
    FirstAtAppend(live, r, x);
  }

  lemma DistinctAppend(n: KeyedNode, r: byte, child: nat)
    requires n.count < |n.keys| == |n.children| && Distinct(n.keys[..n.count]) && r !in KeyedChildren(n)
    ensures Distinct(n.keys[n.count := r][..n.count + 1])
  {
    var live := n.keys[..n.count];
    assert n.keys[n.count := r][..n.count + 1] == live + [r];
    assert FirstAt(live, r) == n.count;
  }

  /** Copying the live slots into a larger node of the same layout keeps the children. */
  lemma KeyedCopy(n: KeyedNode, n': KeyedNode)
    requires n.count == n'.count <= |n.keys| == |n.children|
    requires n'.count <= |n'.keys| == |n'.children|
    requires n'.keys[..n.count] == n.keys[..n.count]
    requires n'.children[..n.count] == n.children[..n.count]
    ensures KeyedChildren(n') == KeyedChildren(n)
  {
    assert forall i :: 0 <= i < n.count ==> n'.children[i] == n'.children[..n.count][i] == n.children[i];
  }

  lemma IndexedFromKeyed(n: KeyedNode, n': IndexedNode)
    requires KeyedOk(n, 32) && n'.count == n.count
    requires |n'.childIndex| == 256 && |n'.children| == 48
    requires forall r: byte :: n'.childIndex[r] ==
               if LastAt(n.keys[..n.count], r) < n.count then LastAt(n.keys[..n.count], r) else NODE48_EMPTY
    requires forall i :: 0 <= i < n.count ==> n'.children[i] == n.children[i]
    ensures IndexedOk(n') && IndexedChildren(n') == LastChildren(n)
  {
    hide LastAt;
    assert forall r :: 0 <= r < 256 ==> var b: byte := r; n'.childIndex[b] == NODE48_EMPTY || n'.childIndex[b] < n.count;
  }

  /** The two readings of a node agree exactly where the first and the last slot of each of its
      radices lead to one child: without twins always. */
  lemma LastIsFirstIff(n: KeyedNode)
    requires n.count <= |n.keys| == |n.children|
    ensures var live := n.keys[..n.count];
            LastChildren(n) == KeyedChildren(n) <==>
              forall i, j :: 0 <= i < j < n.count && FirstAt(live, live[i]) == i && LastAt(live, live[i]) == j ==>
                n.children[i] == n.children[j]
    ensures Distinct(n.keys[..n.count]) ==> LastChildren(n) == KeyedChildren(n)
  {
    hide FirstAt, LastAt, KeyedChildren, LastChildren, Distinct;
    var live := n.keys[..n.count];
    SlotsOf(n);
    if LastChildren(n) != KeyedChildren(n) {
      var r: byte :| r in KeyedChildren(n) && LastChildren(n)[r] != KeyedChildren(n)[r];
      assert live[FirstAt(live, r)] == r;
      TwinSlots(live, r);
    }
  }

  lemma SlotsOf(n: KeyedNode)
    requires n.count <= |n.keys| == |n.children|
    ensures LastChildren(n).Keys == KeyedChildren(n).Keys
    ensures forall r: byte :: r in KeyedChildren(n) ==>
              var live := n.keys[..n.count];
              && FirstAt(live, r) <= LastAt(live, r) < n.count
              && KeyedChildren(n)[r] == n.children[FirstAt(live, r)] && LastChildren(n)[r] == n.children[LastAt(live, r)]
    ensures forall i :: 0 <= i < n.count ==> n.keys[i] in KeyedChildren(n)
  {
    hide FirstAt, LastAt;
    var live := n.keys[..n.count];
    forall r: byte
      ensures FirstAt(live, r) < n.count <==> LastAt(live, r) < n.count
      ensures FirstAt(live, r) <= LastAt(live, r)
    {
    }
    forall i | 0 <= i < n.count
      ensures FirstAt(live, n.keys[i]) < n.count
    {
      assert live[i] == n.keys[i];
    }
  }

  lemma TwinSlots(keys: seq<byte>, r: byte)
    requires FirstAt(keys, r) < LastAt(keys, r) < |keys|
    ensures !Distinct(keys)
  {
    hide FirstAt, LastAt;
  }

  lemma IndexedAppend(n: IndexedNode, r: byte, child: nat)
    requires IndexedOk(n) && n.count < 48 && r !in IndexedChildren(n)
    ensures var n' := IndexedNode(n.count + 1, n.childIndex[r := n.count], n.children[n.count := child]);
            IndexedOk(n') && IndexedChildren(n') == IndexedChildren(n)[r := child]
  {
  }

  lemma DirectPut(n: DirectNode, r: byte, child: nat, count: nat)
    requires DirectOk(n) && r !in DirectChildren(n) && child < EMPTY
    ensures DirectOk(DirectNode(count, n.children[r := child]))
    ensures DirectChildren(DirectNode(count, n.children[r := child])) == DirectChildren(n)[r := child]
  {
  }

  /** A child map after one insertion: the first child of a radix stays. */
  function With(children: map<byte, nat>, radix: byte, child: nat): map<byte, nat> {
    if radix in children then children else children[radix := child]
  }

  ghost predicate GrownBy(before: seq<nat>, after: seq<nat>, n: nat) {
    && |before| == |after| == 7
    && before[0] <= after[0] <= before[0] + n
    && before[1] <= after[1] <= before[1] + n
    && before[2] <= after[2] <= before[2] + n
    && before[3] <= after[3] <= before[3] + n
    && before[4] <= after[4] <= before[4] + n
    && before[5] <= after[5] <= before[5] + n
    && before[6] <= after[6] <= before[6] + n
  }

  /** Slot by slot, so that a later slot of a radix writes over an earlier one. */
  method ToIndexed(old32: KeyedNode) returns (next: IndexedNode)
    requires KeyedOk(old32, 32)
    ensures next.count == old32.count && IndexedOk(next)
    ensures IndexedChildren(next) == LastChildren(old32)
  {
    hide IndexedChildren, LastChildren, LastAt;
    var childIndex, children := Fill(256, NODE48_EMPTY), Fill(48, EMPTY);
    ghost var live := old32.keys[..old32.count];
    for slot := 0 to old32.count
      invariant |childIndex| == 256 && |children| == 48
      invariant forall r: byte :: childIndex[r] == if LastAt(live[..slot], r) < slot then LastAt(live[..slot], r) else NODE48_EMPTY
      invariant forall i :: 0 <= i < slot ==> children[i] == old32.children[i]
    {
      assert live[slot] == old32.keys[slot];
      LastAtAppend(live, slot);
      childIndex := childIndex[old32.keys[slot] := slot];
      children := children[slot := old32.children[slot]];
    }
    assert live[..old32.count] == live;
    next := IndexedNode(old32.count, childIndex, children);
    IndexedFromKeyed(old32, next);
  }

  lemma LastAtAppend(keys: seq<byte>, slot: nat)
    requires slot < |keys|
    ensures forall r :: LastAt(keys[..slot + 1], r) ==
              if r == keys[slot] then slot
              else if LastAt(keys[..slot], r) < slot then LastAt(keys[..slot], r) else slot + 1
  {
    assert keys[..slot + 1][..slot] == keys[..slot];
  }

  method ToDirect(old48: IndexedNode) returns (next: DirectNode)
    requires IndexedOk(old48)
    requires forall r :: r in IndexedChildren(old48) ==> IndexedChildren(old48)[r] < EMPTY
    ensures next.count == old48.count && DirectOk(next)
    ensures DirectChildren(next) == IndexedChildren(old48)
  {
    var children := Fill(256, EMPTY);
    for radix := 0 to 256
      invariant |children| == 256
      invariant forall r: byte :: children[r] == if r < radix && old48.childIndex[r] != NODE48_EMPTY
                                                 then old48.children[old48.childIndex[r]] else EMPTY
    {
      var slot := old48.childIndex[radix];
      if slot != NODE48_EMPTY {
        children := children[radix := old48.children[slot]];
      }
    }
    next := DirectNode(old48.count, children);
    assert forall r: byte :: r in IndexedChildren(old48) ==> IndexedChildren(old48)[r] < EMPTY;
  }

  /** The order of leaves by scattered key, as old positions. */
  ghost predicate SortedOrder<V>(leaves: seq<LeafNode<V>>, order: seq<nat>) {
    && (forall n :: 0 <= n < |order| ==> order[n] < |leaves|)
    && (forall m, n :: 0 <= m < n < |order| ==> order[m] != order[n] && KeyLe(leaves[order[m]].key, leaves[order[n]].key))
  }

  predicate KeyLe(a: u64, b: u64) {
    Scatter(a) < Scatter(b) || (Scatter(a) == Scatter(b) && a <= b)
  }

  /** A stable sort by (scattered key, key). */
  method SortLeaves<V>(leaves: seq<LeafNode<V>>) returns (order: seq<nat>)
    ensures |order| == |leaves| && SortedOrder(leaves, order)
    ensures forall l :: 0 <= l < |leaves| ==> l in order
  {
    hide Scatter;
    order := [];
    for next := 0 to |leaves|
      invariant |order| == next && SortedOrder(leaves, order)
      invariant forall l :: 0 <= l < |leaves| ==> (l in order <==> l < next)
    {
      var place := |order|;
      while place > 0 && !KeyLe(leaves[order[place - 1]].key, leaves[next].key)
        invariant 0 <= place <= |order|
        invariant forall n :: place <= n < |order| ==> KeyLe(leaves[next].key, leaves[order[n]].key)
      {
        place := place - 1;
      }
      InsertKeepsOrder(leaves, order, place, next);
      order := order[..place] + [next] + order[place..];
    }
  }

  lemma InsertKeepsOrder<V>(leaves: seq<LeafNode<V>>, order: seq<nat>, place: nat, next: nat)
    requires SortedOrder(leaves, order) && next < |leaves| && next !in order && place <= |order|
    requires place > 0 ==> KeyLe(leaves[order[place - 1]].key, leaves[next].key)
    requires forall n :: place <= n < |order| ==> KeyLe(leaves[next].key, leaves[order[n]].key)
    ensures var order' := order[..place] + [next] + order[place..];
            && SortedOrder(leaves, order')
            && (forall l :: l in order' <==> l in order || l == next)
  {
    hide KeyLe;
    var order' := order[..place] + [next] + order[place..];
    forall m, n | 0 <= m < n < |order'|
      ensures order'[m] < |leaves| && order'[n] < |leaves|
      ensures order'[m] != order'[n] && KeyLe(leaves[order'[m]].key, leaves[order'[n]].key)
    {
      hide *;
      InsertKeepsPair(leaves, order, place, next, m, n);
    }
    InsertedElements(order, place, next);
    hide SortedOrder;
    InRangeOf(leaves, order);
    assert forall n :: 0 <= n < |order'| ==> order'[n] in order';
    IsSorted(leaves, order');
  }

  lemma InsertedElements(order: seq<nat>, place: nat, next: nat)
    requires place <= |order|
    ensures forall l :: l in order[..place] + [next] + order[place..] <==> l in order || l == next
  {
    assert order == order[..place] + order[place..];
  }

  lemma InsertKeepsPair<V>(leaves: seq<LeafNode<V>>, order: seq<nat>, place: nat, next: nat, m: nat, n: nat)
    requires SortedOrder(leaves, order) && next < |leaves| && next !in order && place <= |order|
    requires place > 0 ==> KeyLe(leaves[order[place - 1]].key, leaves[next].key)
    requires forall n :: place <= n < |order| ==> KeyLe(leaves[next].key, leaves[order[n]].key)
    requires m < n <= |order|
    ensures var order' := order[..place] + [next] + order[place..];
            && order'[m] < |leaves| && order'[n] < |leaves|
            && order'[m] != order'[n] && KeyLe(leaves[order'[m]].key, leaves[order'[n]].key)
  {
    hide KeyLe, SortedOrder;
    InsertedAt(order, place, next, m);
    InsertedAt(order, place, next, n);
    InRangeOf(leaves, order);
    if n == place {
      BeforeNext(leaves, order, place, next, m);
    } else if m != place {
      InOrder(leaves, order, if m < place then m else m - 1, if n < place then n else n - 1);
    }
  }

  lemma InsertedAt(order: seq<nat>, place: nat, next: nat, n: nat)
    requires place <= |order| && n <= |order|
    ensures (order[..place] + [next] + order[place..])[n] == if n < place then order[n] else if n == place then next else order[n - 1]
  {
  }

  lemma InOrder<V>(leaves: seq<LeafNode<V>>, order: seq<nat>, m: nat, n: nat)
    requires SortedOrder(leaves, order) && m < n < |order|
    ensures order[m] < |leaves| && order[n] < |leaves|
    ensures order[m] != order[n] && KeyLe(leaves[order[m]].key, leaves[order[n]].key)
  {
    hide KeyLe;
  }

  lemma InRangeOf<V>(leaves: seq<LeafNode<V>>, order: seq<nat>)
    requires SortedOrder(leaves, order)
    ensures forall n :: 0 <= n < |order| ==> order[n] < |leaves|
  {
    hide KeyLe;
  }

  lemma IsSorted<V>(leaves: seq<LeafNode<V>>, order: seq<nat>)
    requires forall n :: 0 <= n < |order| ==> order[n] < |leaves|
    requires forall m, n :: 0 <= m < n < |order| ==> order[m] != order[n] && KeyLe(leaves[order[m]].key, leaves[order[n]].key)
    ensures SortedOrder(leaves, order)
  {
    hide KeyLe;
  }

  lemma BeforeNext<V>(leaves: seq<LeafNode<V>>, order: seq<nat>, place: nat, next: nat, n: nat)
    requires SortedOrder(leaves, order) && next < |leaves| && n < place <= |order|
    requires KeyLe(leaves[order[place - 1]].key, leaves[next].key)
    ensures KeyLe(leaves[order[n]].key, leaves[next].key)
  {
    hide Scatter;
    if n < place - 1 {
      assert KeyLe(leaves[order[n]].key, leaves[order[place - 1]].key);
    }
  }

  /** Writes the leaves out in the new order and notes where each one went. */
  method Relocate<V>(leaves: seq<LeafNode<V>>, order: seq<nat>) returns (compacted: seq<LeafNode<V>>, remap: seq<nat>)
    requires |order| == |leaves| && SortedOrder(leaves, order)
    requires forall l :: 0 <= l < |leaves| ==> l in order
    ensures Relocates(leaves, compacted, remap) && Relocates(compacted, leaves, order)
    ensures |compacted| == |remap| == |leaves| && forall l :: 0 <= l < |remap| ==> remap[l] < |leaves|
    ensures forall m, n :: 0 <= m < n < |compacted| ==> KeyLe(compacted[m].key, compacted[n].key)
  {
    hide KeyLe;
    compacted, remap := [], Fill(|leaves|, 0);
    for n := 0 to |order|
      invariant |remap| == |leaves| && |compacted| == n
      invariant forall m :: 0 <= m < n ==> remap[order[m]] == m && compacted[m] == leaves[order[m]]
    {
      remap := remap[order[n] := n];
      compacted := compacted + [leaves[order[n]]];
    }
    forall l | 0 <= l < |leaves|
      ensures remap[l] < |compacted| && compacted[remap[l]] == leaves[l]
    {
      assert l in order;
      var n :| 0 <= n < |order| && order[n] == l;
    }
    forall n | 0 <= n < |compacted|
      ensures n in remap
    {
      assert remap[order[n]] == n;
    }
  }

  method RemapEntries(entries: seq<TaggedNode>, remap: seq<nat>) returns (moved: seq<TaggedNode>)
    requires forall l :: 0 <= l < |remap| ==> remap[l] < INDEX_LIMIT
    requires forall i :: 0 <= i < |entries| && Kind(entries[i]) == Leaf ==> Index(entries[i]) < |remap|
    ensures |moved| == |entries|
    ensures forall i :: 0 <= i < |entries| ==>
              moved[i] == if Kind(entries[i]) == Leaf then Tagged(Leaf, remap[Index(entries[i])]) else entries[i]
  {
    hide Kind, Index, Tagged;
    moved := entries;
    for i := 0 to |entries|
      invariant |moved| == |entries|
      invariant forall j :: i <= j < |entries| ==> moved[j] == entries[j]
      invariant forall j :: 0 <= j < i ==>
                  moved[j] == if Kind(entries[j]) == Leaf then Tagged(Leaf, remap[Index(entries[j])]) else entries[j]
    {
      if Kind(moved[i]) == Leaf {
        moved := moved[i := Tagged(Leaf, remap[Index(moved[i])])];
      }
    }
  }

  class Slab<V> {
    var entries: seq<TaggedNode>
    var leaves: seq<LeafNode<V>>
    var node4: seq<KeyedNode>
    var node16: seq<KeyedNode>
    var node32: seq<KeyedNode>
    var node48: seq<IndexedNode>
    var node256: seq<DirectNode>

    ghost predicate InRange(e: TaggedNode)
      reads this
    {
      match Kind(e)
      case Leaf => Index(e) < |leaves|
      case Node4 => Index(e) < |node4|
      case Node16 => Index(e) < |node16|
      case Node32 => Index(e) < |node32|
      case Node48 => Index(e) < |node48|
      case Node256 => Index(e) < |node256|
    }

    /** Every node is well shaped, every entry points into its slab, and no two
        entries share an inner node. */
    ghost predicate Valid()
      reads this
    {
      && (forall i :: 0 <= i < |node4| ==> KeyedOk(node4[i], 4))
      && (forall i :: 0 <= i < |node16| ==> KeyedOk(node16[i], 16))
      && (forall i :: 0 <= i < |node32| ==> KeyedOk(node32[i], 32))
      && (forall i :: 0 <= i < |node48| ==> IndexedOk(node48[i]))
      && (forall i :: 0 <= i < |node256| ==> DirectOk(node256[i]))
      && (forall i :: 0 <= i < |entries| ==> InRange(entries[i]))
      && (forall i, j :: 0 <= i < j < |entries| && Kind(entries[i]) != Leaf && Kind(entries[i]) == Kind(entries[j]) ==>
            Index(entries[i]) != Index(entries[j]))
    }

    ghost function ViewOf(e: TaggedNode): View
      requires Valid() && InRange(e)
      reads this
    {
      match Kind(e)
      case Leaf => LeafAt(Index(e))
      case Node4 => Inner(KeyedChildren(node4[Index(e)]))
      case Node16 => Inner(KeyedChildren(node16[Index(e)]))
      case Node32 => Inner(KeyedChildren(node32[Index(e)]))
      case Node48 => Inner(IndexedChildren(node48[Index(e)]))
      case Node256 => Inner(DirectChildren(node256[Index(e)]))
    }

    ghost function Views(): (vs: seq<View>)
      requires Valid()
      reads this
      ensures |vs| == |entries|
      ensures forall i :: 0 <= i < |entries| ==> vs[i] == ViewOf(entries[i])
    {
      seq(|entries|, i requires 0 <= i < |entries| && Valid() reads this => ViewOf(entries[i]))
    }

    /** No radix occurs twice in the node of entry `id`. */
    ghost predicate NoTwins(id: nat)
      requires Valid() && id < |entries|
      reads this
    {
      var e := entries[id];
      match Kind(e)
      case Node4 => Distinct(node4[Index(e)].keys[..node4[Index(e)].count])
      case Node16 => Distinct(node16[Index(e)].keys[..node16[Index(e)].count])
      case Node32 => Distinct(node32[Index(e)].keys[..node32[Index(e)].count])
      case _ => true
    }

    /** Space for `n` more nodes of every kind: beyond it the slabs' index
        assertions stop the program. */
    ghost predicate Room(n: nat)
      reads this
    {
      && |entries| + n <= EMPTY
      && |leaves| + n <= INDEX_LIMIT
      && |node4| + n <= INDEX_LIMIT
      && |node16| + n <= INDEX_LIMIT
      && |node32| + n <= INDEX_LIMIT
      && |node48| + n <= INDEX_LIMIT
      && |node256| + n <= INDEX_LIMIT
    }

    ghost function Sizes(): seq<nat>
      reads this
    {
      [|entries|, |leaves|, |node4|, |node16|, |node32|, |node48|, |node256|]
    }

    constructor ()
      ensures Valid() && entries == [] && leaves == [] && node4 == []
      ensures node16 == [] && node32 == [] && node48 == [] && node256 == []
    {
      entries, leaves, node4, node16, node32, node48, node256 := [], [], [], [], [], [], [];
    }

    method AllocLeaf(key: u64, value: V) returns (id: nat)
      requires Valid() && Room(1)
      modifies this
      ensures Valid() && id == old(|entries|)
      ensures leaves == old(leaves) + [LeafNode(key, value)]
      ensures Views() == old(Views()) + [LeafAt(old(|leaves|))]
      ensures entries == old(entries) + [Tagged(Leaf, old(|leaves|))]
      ensures unchanged(`node4, `node16, `node32, `node48, `node256)
      ensures NoTwins(id) && forall i :: 0 <= i < id ==> NoTwins(i) == old(NoTwins(i))
    {
      id := |entries|;
      var leafId := |leaves|;
      leaves := leaves + [LeafNode(key, value)];
      entries := entries + [Tagged(Leaf, leafId)];
    }

    lemma RoomFor(n: nat, m: nat)
      requires Room(n) && m <= n
      ensures Room(m)
    {
    }

    twostate lemma OneLeafMore()
      requires old(Room(20)) && |entries| == old(|entries|) + 1 && |leaves| == old(|leaves|) + 1
      requires unchanged(`node4, `node16, `node32, `node48, `node256)
      ensures GrownBy(old(Sizes()), Sizes(), 20) && Room(0)
    {
    }

    /** A second entry for an existing leaf, made while that leaf moves down. */
    method AllocLeafEntry(leafId: nat) returns (id: nat)
      requires Valid() && Room(1) && leafId < |leaves|
      modifies `entries
      ensures Valid() && id == old(|entries|)
      ensures Views() == old(Views()) + [LeafAt(leafId)]
      ensures entries == old(entries) + [Tagged(Leaf, leafId)]
      ensures NoTwins(id) && forall i :: 0 <= i < id ==> NoTwins(i) == old(NoTwins(i))
    {
      id := |entries|;
      entries := entries + [Tagged(Leaf, leafId)];
    }

    method AllocNode4() returns (id: nat)
      requires Valid() && Room(1)
      modifies `entries, `node4
      ensures Valid() && id == old(|entries|)
      ensures Views() == old(Views()) + [Inner(map[])]
      ensures entries == old(entries) + [Tagged(Node4, old(|node4|))]
      ensures node4 == old(node4) + [KeyedNode(0, Fill(4, 0), Fill(4, EMPTY))]
      ensures NoTwins(id) && forall i :: 0 <= i < id ==> NoTwins(i) == old(NoTwins(i))
    {
      id := |entries|;
      var nodeId := |node4|;
      node4 := node4 + [KeyedNode(0, Fill(4, 0), Fill(4, EMPTY))];
      entries := entries + [Tagged(Node4, nodeId)];
    }

    function FindChild(id: nat, radix: byte): (child: Option<nat>)
      requires Valid() && id < |entries|
      reads this
      ensures var view := Views()[id];
              if view.Inner? && radix in view.children then child == Some(view.children[radix]) else child == None
    {
      var e := entries[id];
      match Kind(e)
      case Leaf => None
      case Node4 => FindKeyed(node4[Index(e)], radix)
      case Node16 => FindKeyed(node16[Index(e)], radix)
      case Node32 => FindKeyed(node32[Index(e)], radix)
      case Node48 =>
        var n := node48[Index(e)];
        var slot := n.childIndex[radix];
        if slot == NODE48_EMPTY then None else Some(n.children[slot])
      case Node256 =>
        var child := node256[Index(e)].children[radix];
        if child == EMPTY then None else Some(child)
    }

    method GrowNode4ToNode16(id: nat)
      requires Valid() && id < |entries| && Kind(entries[id]) == Node4 && Room(1)
      modifies `entries, `node16
      ensures Valid() && Views() == old(Views())
      ensures entries == old(entries)[id := entries[id]] && Kind(entries[id]) == Node16
      ensures |node16| == old(|node16|) + 1 && node16[Index(entries[id])].count == node4[Index(old(entries[id]))].count
      ensures NoTwins(id) == old(NoTwins(id))
      ensures forall i :: 0 <= i < |entries| && i != id ==> NoTwins(i) == old(NoTwins(i))
    {
      hide Kind, Index, KeyedChildren, IndexedChildren, DirectChildren, Distinct, FirstAt;
      var old4 := node4[Index(entries[id])];
      var count := old4.count;
      var next := KeyedNode(count, old4.keys[..count] + Fill(16, 0)[count..], old4.children[..count] + Fill(16, EMPTY)[count..]);
      assert next.keys[..count] == old4.keys[..count];
      assert next.children[..count] == old4.children[..count];
      KeyedCopy(old4, next);
      var newId := |node16|;
      node16 := node16 + [next];
      entries := entries[id := Tagged(Node16, newId)];
      assert Views() == old(Views());
    }

    method GrowNode16ToNode32(id: nat)
      requires Valid() && id < |entries| && Kind(entries[id]) == Node16 && Room(1)
      modifies `entries, `node32
      ensures Valid() && Views() == old(Views())
      ensures entries == old(entries)[id := entries[id]] && Kind(entries[id]) == Node32
      ensures |node32| == old(|node32|) + 1 && node32[Index(entries[id])].count == node16[Index(old(entries[id]))].count
      ensures NoTwins(id) == old(NoTwins(id))
      ensures forall i :: 0 <= i < |entries| && i != id ==> NoTwins(i) == old(NoTwins(i))
    {
      hide Kind, Index, KeyedChildren, IndexedChildren, DirectChildren, Distinct, FirstAt;
      var old16 := node16[Index(entries[id])];
      var count := old16.count;
      var next := KeyedNode(count, old16.keys[..count] + Fill(32, 0)[count..], old16.children[..count] + Fill(32, EMPTY)[count..]);
      assert next.keys[..count] == old16.keys[..count];
      assert next.children[..count] == old16.children[..count];
      KeyedCopy(old16, next);
      var newId := |node32|;
      node32 := node32 + [next];
      entries := entries[id := Tagged(Node32, newId)];
      assert Views() == old(Views());
    }

    /** The last slot of a radix wins from here on, so this keeps the children exactly where
        `LastIsFirstIff` says, and always without twins. */
    method GrowNode32ToNode48(id: nat)
      requires Valid() && id < |entries| && Kind(entries[id]) == Node32 && Room(1) && NoTwins(id)
      modifies `entries, `node48
      ensures Valid() && Views() == old(Views())
      ensures entries == old(entries)[id := entries[id]] && Kind(entries[id]) == Node48
      ensures NoTwins(id)
      ensures |node48| == old(|node48|) + 1 && node48[Index(entries[id])].count == node32[Index(old(entries[id]))].count
      ensures forall i :: 0 <= i < |entries| && i != id ==> NoTwins(i) == old(NoTwins(i))
    {
      hide Kind, Index, KeyedChildren, IndexedChildren, DirectChildren, Distinct, FirstAt;
      var old32 := node32[Index(entries[id])];
      var next := ToIndexed(old32);
      LastIsFirstIff(old32);
      var newId := |node48|;
      node48 := node48 + [next];
      entries := entries[id := Tagged(Node48, newId)];
      assert Views() == old(Views());
    }

    method GrowNode48ToNode256(id: nat)
      requires Valid() && id < |entries| && Kind(entries[id]) == Node48 && Room(1)
      requires forall r :: r in Views()[id].children ==> Views()[id].children[r] < EMPTY
      modifies `entries, `node256
      ensures Valid() && Views() == old(Views())
      ensures entries == old(entries)[id := entries[id]] && Kind(entries[id]) == Node256
      ensures NoTwins(id)
      ensures |node256| == old(|node256|) + 1
      ensures forall i :: 0 <= i < |entries| && i != id ==> NoTwins(i) == old(NoTwins(i))
    {
      hide Kind, Index, KeyedChildren, IndexedChildren, DirectChildren, Distinct, FirstAt;
      var old48 := node48[Index(entries[id])];
      assert Views()[id] == Inner(IndexedChildren(old48));
      var next := ToDirect(old48);
      var newId := |node256|;
      node256 := node256 + [next];
      entries := entries[id := Tagged(Node256, newId)];
      assert Views() == old(Views());
    }

    /** Of all nodes, only the one behind `e` changed. */
    twostate predicate OnlyNodeOf(e: TaggedNode)
      reads this
    {
      && entries == old(entries) && leaves == old(leaves) && Sizes() == old(Sizes())
      && (forall j :: 0 <= j < |node4| && !(Kind(e) == Node4 && Index(e) == j) ==> node4[j] == old(node4[j]))
      && (forall j :: 0 <= j < |node16| && !(Kind(e) == Node16 && Index(e) == j) ==> node16[j] == old(node16[j]))
      && (forall j :: 0 <= j < |node32| && !(Kind(e) == Node32 && Index(e) == j) ==> node32[j] == old(node32[j]))
      && (forall j :: 0 <= j < |node48| && !(Kind(e) == Node48 && Index(e) == j) ==> node48[j] == old(node48[j]))
      && (forall j :: 0 <= j < |node256| && !(Kind(e) == Node256 && Index(e) == j) ==> node256[j] == old(node256[j]))
    }

    ghost predicate NodeOk(e: TaggedNode)
      requires InRange(e)
      reads this
    {
      match Kind(e)
      case Leaf => true
      case Node4 => KeyedOk(node4[Index(e)], 4)
      case Node16 => KeyedOk(node16[Index(e)], 16)
      case Node32 => KeyedOk(node32[Index(e)], 32)
      case Node48 => IndexedOk(node48[Index(e)])
      case Node256 => DirectOk(node256[Index(e)])
    }

    twostate lemma OneNodeValid(e: TaggedNode)
      requires old(Valid()) && OnlyNodeOf(e) && InRange(e) && NodeOk(e)
      ensures Valid()
    {
      hide Kind, Index, KeyedOk, IndexedOk, DirectOk;
      forall i | 0 <= i < |entries| ensures InRange(entries[i]) {
        assert old(InRange(entries[i]));
      }
    }

    twostate lemma OneViewChanges(id: nat)
      requires old(Valid()) && Valid() && id < |entries| && OnlyNodeOf(entries[id])
      ensures forall i :: 0 <= i < |entries| && i != id ==> Views()[i] == old(Views()[i]) && NoTwins(i) == old(NoTwins(i))
    {
      hide Kind, Index, KeyedOk, IndexedOk, DirectOk, KeyedChildren, IndexedChildren, DirectChildren, Distinct;
      forall i | 0 <= i < |entries| && i != id
        ensures ViewOf(entries[i]) == old(ViewOf(entries[i])) && NoTwins(i) == old(NoTwins(i))
      {
        assert old(InRange(entries[i])) && InRange(entries[i]);
      }
    }

    /** What an entry's node says about the entry. */
    lemma NodeView(id: nat)
      requires Valid() && id < |entries|
      ensures InRange(entries[id]) && NodeOk(entries[id]) && Views()[id] == ViewOf(entries[id])
      ensures var e := entries[id];
              match Kind(e)
              case Leaf => true
              case Node4 => SeenAs(id, node4[Index(e)])
              case Node16 => SeenAs(id, node16[Index(e)])
              case Node32 => SeenAs(id, node32[Index(e)])
              case Node48 => Views()[id] == Inner(IndexedChildren(node48[Index(e)])) && NoTwins(id)
              case Node256 => Views()[id] == Inner(DirectChildren(node256[Index(e)])) && NoTwins(id)
    {
      hide Kind, Index, IndexedOk, DirectOk, KeyedChildren, IndexedChildren, DirectChildren, Distinct;
    }

    ghost predicate SeenAs(id: nat, n: KeyedNode)
      requires Valid() && id < |entries|
      reads this
    {
      n.count <= |n.keys| == |n.children|
      && Views()[id] == Inner(KeyedChildren(n)) && (NoTwins(id) <==> Distinct(n.keys[..n.count]))
    }

    method AddToNode4(id: nat, radix: byte, child: nat)
      requires Valid() && id < |entries| && Kind(entries[id]) == Node4 && child < EMPTY
      requires node4[Index(entries[id])].count < 4
      modifies `node4
      ensures Valid() && ChildAdded(id, radix, child) && Sizes() == old(Sizes())
      ensures node4[Index(entries[id])].count == old(node4[Index(entries[id])].count) + 1
    {
      NodeView(id);
      hide Kind, Index, KeyedChildren, Distinct, FirstAt, Valid, Views, ViewOf, NoTwins;
      var e := entries[id];
      var n := node4[Index(e)];
      KeyedAppend(n, radix, child, 4);
      if NoTwins(id) && radix !in KeyedChildren(n) {
        DistinctAppend(n, radix, child);
      }
      node4 := node4[Index(e) := KeyedNode(n.count + 1, n.keys[n.count := radix], n.children[n.count := child])];
      OneNodeValid(e);
      NodeView(id);
      OneViewChanges(id);
    }

    method AddToNode16(id: nat, radix: byte, child: nat)
      requires Valid() && id < |entries| && Kind(entries[id]) == Node16 && child < EMPTY
      requires node16[Index(entries[id])].count < 16
      modifies `node16
      ensures Valid() && ChildAdded(id, radix, child) && Sizes() == old(Sizes())
    {
      NodeView(id);
      hide Kind, Index, KeyedChildren, Distinct, FirstAt, Valid, Views, ViewOf, NoTwins;
      var e := entries[id];
      var n := node16[Index(e)];
      KeyedAppend(n, radix, child, 16);
      if NoTwins(id) && radix !in KeyedChildren(n) {
        DistinctAppend(n, radix, child);
      }
      node16 := node16[Index(e) := KeyedNode(n.count + 1, n.keys[n.count := radix], n.children[n.count := child])];
      OneNodeValid(e);
      NodeView(id);
      OneViewChanges(id);
    }

    method AddToNode32(id: nat, radix: byte, child: nat)
      requires Valid() && id < |entries| && Kind(entries[id]) == Node32 && child < EMPTY
      requires node32[Index(entries[id])].count < 32
      modifies `node32
      ensures Valid() && ChildAdded(id, radix, child) && Sizes() == old(Sizes())
    {
      NodeView(id);
      hide Kind, Index, KeyedChildren, Distinct, FirstAt, Valid, Views, ViewOf, NoTwins;
      var e := entries[id];
      var n := node32[Index(e)];
      KeyedAppend(n, radix, child, 32);
      if NoTwins(id) && radix !in KeyedChildren(n) {
        DistinctAppend(n, radix, child);
      }
      node32 := node32[Index(e) := KeyedNode(n.count + 1, n.keys[n.count := radix], n.children[n.count := child])];
      OneNodeValid(e);
      NodeView(id);
      OneViewChanges(id);
    }

    method AddToNode48(id: nat, radix: byte, child: nat)
      requires Valid() && id < |entries| && Kind(entries[id]) == Node48 && child < EMPTY
      requires node48[Index(entries[id])].count < 48 && radix !in Views()[id].children
      modifies `node48
      ensures Valid() && ChildAdded(id, radix, child) && Sizes() == old(Sizes())
    {
      NodeView(id);
      hide Kind, Index, IndexedChildren, Valid, Views, ViewOf, NoTwins;
      var e := entries[id];
      var n := node48[Index(e)];
      IndexedAppend(n, radix, child);
      node48 := node48[Index(e) := IndexedNode(n.count + 1, n.childIndex[radix := n.count], n.children[n.count := child])];
      OneNodeValid(e);
      NodeView(id);
      OneViewChanges(id);
    }

    method AddToNode256(id: nat, radix: byte, child: nat)
      requires Valid() && id < |entries| && Kind(entries[id]) == Node256 && child < EMPTY
      requires radix !in Views()[id].children
      modifies `node256
      ensures Valid() && ChildAdded(id, radix, child) && Sizes() == old(Sizes())
    {
      NodeView(id);
      hide Kind, Index, Valid, Views, ViewOf, NoTwins;
      var e := entries[id];
      var n := node256[Index(e)];
      var count := if n.children[radix] == EMPTY then n.count + 1 else n.count;
      DirectPut(n, radix, child, count);
      hide DirectChildren;
      node256 := node256[Index(e) := DirectNode(count, n.children[radix := child])];
      OneNodeValid(e);
      NodeView(id);
      OneViewChanges(id);
    }

    /** Only entry `id` changed, by gaining `child` under `radix`. */
    twostate predicate ChildAdded(id: nat, radix: byte, child: nat)
      requires old(Valid()) && Valid() && id < old(|entries|) && old(Kind(entries[id])) != Leaf
      reads this
    {
      && |entries| == old(|entries|)
      && leaves == old(leaves)
      && (forall i :: 0 <= i < |entries| && i != id ==>
           && entries[i] == old(entries[i])
           && Views()[i] == old(Views()[i])
           && NoTwins(i) == old(NoTwins(i)))
      && Views()[id] == Inner(With(old(Views()[id].children), radix, child))
      && (old(NoTwins(id)) && radix !in old(Views()[id].children) ==> NoTwins(id))
    }

    method AddToFullNode4(id: nat, radix: byte, child: nat)
      requires Valid() && id < |entries| && Kind(entries[id]) == Node4 && Room(1) && child < EMPTY
      requires node4[Index(entries[id])].count == 4
      requires radix !in Views()[id].children && NoTwins(id)
      modifies `entries, `node16
      ensures Valid() && ChildAdded(id, radix, child)
      ensures |node16| == old(|node16|) + 1
    {
      hide Kind, Index, KeyedChildren, IndexedChildren, DirectChildren, Distinct, FirstAt, NoTwins, ViewOf, InRange;
      GrowNode4ToNode16(id);
      AddToNode16(id, radix, child);
    }

    method AddToFullNode16(id: nat, radix: byte, child: nat)
      requires Valid() && id < |entries| && Kind(entries[id]) == Node16 && Room(1) && child < EMPTY
      requires node16[Index(entries[id])].count == 16
      requires radix !in Views()[id].children && NoTwins(id)
      modifies `entries, `node32
      ensures Valid() && ChildAdded(id, radix, child)
      ensures |node32| == old(|node32|) + 1
    {
      hide Kind, Index, KeyedChildren, IndexedChildren, DirectChildren, Distinct, FirstAt, NoTwins, ViewOf, InRange;
      GrowNode16ToNode32(id);
      AddToNode32(id, radix, child);
    }

    method AddToFullNode32(id: nat, radix: byte, child: nat)
      requires Valid() && id < |entries| && Kind(entries[id]) == Node32 && Room(1) && child < EMPTY
      requires node32[Index(entries[id])].count == 32
      requires radix !in Views()[id].children && NoTwins(id)
      modifies `entries, `node48
      ensures Valid() && ChildAdded(id, radix, child)
      ensures |node48| == old(|node48|) + 1
    {
      hide Kind, Index, KeyedChildren, IndexedChildren, DirectChildren, Distinct, FirstAt, NoTwins, ViewOf, InRange;
      GrowNode32ToNode48(id);
      AddToNode48(id, radix, child);
    }

    method AddToFullNode48(id: nat, radix: byte, child: nat)
      requires Valid() && id < |entries| && Kind(entries[id]) == Node48 && Room(1) && child < EMPTY
      requires node48[Index(entries[id])].count == 48
      requires radix !in Views()[id].children && NoTwins(id)
      requires forall r :: r in Views()[id].children ==> Views()[id].children[r] < EMPTY
      modifies `entries, `node256
      ensures Valid() && ChildAdded(id, radix, child)
      ensures |node256| == old(|node256|) + 1
    {
      hide Kind, Index, KeyedChildren, IndexedChildren, DirectChildren, Distinct, FirstAt, NoTwins, ViewOf, InRange;
      GrowNode48ToNode256(id);
      AddToNode256(id, radix, child);
    }

    /** Adds `child` under `radix`, growing a full node first. A radix that is
        already taken is allowed only in a small node, which then keeps both
        children and finds the first. */
    method AddChild(id: nat, radix: byte, child: nat)
      requires Valid() && id < |entries| && Kind(entries[id]) != Leaf && Room(1) && child < EMPTY
      requires forall r :: r in Views()[id].children ==> Views()[id].children[r] < EMPTY
      requires (radix !in Views()[id].children && NoTwins(id))
               || (Kind(entries[id]) == Node4 && node4[Index(entries[id])].count < 4)
      modifies `entries, `node4, `node16, `node32, `node48, `node256
      ensures Valid() && ChildAdded(id, radix, child)
      ensures GrownBy(old(Sizes()), Sizes(), 1) && |node4| == old(|node4|)
      ensures old(Kind(entries[id]) == Node4 && node4[Index(entries[id])].count < 4) ==>
                && entries == old(entries) && Sizes() == old(Sizes()) && Kind(entries[id]) == Node4
                && node4[Index(entries[id])].count == old(node4[Index(entries[id])].count) + 1
    {
      hide Kind, Index, KeyedChildren, IndexedChildren, DirectChildren, Distinct, FirstAt, NoTwins, ViewOf, Views,
           Tagged;
      NodeView(id);
      hide Valid, InRange, ChildAdded, SeenAs;
      var e := entries[id];
      match Kind(e) {
        case Node4 =>
          if node4[Index(e)].count < 4 { AddToNode4(id, radix, child); } else { AddToFullNode4(id, radix, child); }
        case Node16 =>
          if node16[Index(e)].count < 16 { AddToNode16(id, radix, child); } else { AddToFullNode16(id, radix, child); }
        case Node32 =>
          if node32[Index(e)].count < 32 { AddToNode32(id, radix, child); } else { AddToFullNode32(id, radix, child); }
        case Node48 =>
          if node48[Index(e)].count < 48 { AddToNode48(id, radix, child); } else { AddToFullNode48(id, radix, child); }
        case Node256 =>
          AddToNode256(id, radix, child);
      }
    }

    /** Every entry that was there, but for `target`, means what it did. */
    twostate predicate OthersKept(target: nat)
      requires old(Valid()) && Valid()
      reads this
    {
      && |entries| >= old(|entries|)
      && forall i :: 0 <= i < old(|entries|) && i != target ==>
           entries[i] == old(entries[i]) && Views()[i] == old(Views()[i]) && NoTwins(i) == old(NoTwins(i))
    }

    /** `target` and the entries from `first` on are branches. */
    ghost predicate Branches(target: nat, first: nat)
      requires Valid()
      reads this
    {
      target < |entries| && forall i :: i == target || first <= i < |entries| ==> Views()[i].Inner?
    }

    ghost predicate TwinFree(target: nat, first: nat)
      requires Valid()
      reads this
    {
      target < |entries| && forall i :: i == target || first <= i < |entries| ==> NoTwins(i)
    }

    /** The entry of `target` becomes a branch, or a chain of branches, above two leaves. */
    method JoinLeavesInPlace(target: nat, depth: nat, leftScattered: u64, left: nat, rightScattered: u64, right: nat,
                             ghost at: Tree, ghost p: Path)
      returns (ghost at': Tree)
      requires Valid() && 1 <= depth <= 8 && Room(2 * (9 - depth)) && target < |entries|
      requires TreeOk(Views()[target := Inner(map[])], leaves, at) && p in at && at[p] == target && |p| == depth - 1
      requires left < |entries| && right < |entries| && left != right && left !in at.Values && right !in at.Values
      requires Kind(entries[left]) == Leaf && Kind(entries[right]) == Leaf
      requires leftScattered == Scatter(KeyOf(left)) && rightScattered == Scatter(KeyOf(right))
      requires PathOf(KeyOf(left), |p|) == p == PathOf(KeyOf(right), |p|)
      modifies `entries, `node4, `node16, `node32, `node48, `node256
      ensures Valid() && GrownBy(old(Sizes()), Sizes(), 2 * (9 - depth))
      ensures OthersKept(target)
      ensures TreeOk(Views(), leaves, at')
      ensures forall q :: q in at ==> q in at' && at'[q] == at[q]
      ensures Joined(old(KeyOf(left)), left, old(KeyOf(right)), right, at, at', old(|entries|))
      ensures Branches(target, old(|entries|))
      ensures old(PathOf(KeyOf(left), 7) != PathOf(KeyOf(right), 7)) ==> TwinFree(target, old(|entries|))
      decreases 9 - depth, 1
    {
      hide PathOf, Linked, TreeOk, KeyedChildren, IndexedChildren, DirectChildren, Distinct, FirstAt, NoTwins,
           ViewOf, Joined, Valid, InRange, Views, Scatter, RadixByte, Kind, Index, Tagged, TagOf;
      var leftRadix := RadixByte(leftScattered, depth);
      var rightRadix := RadixByte(rightScattered, depth);
      PlantBranch(target);
      if leftRadix == rightRadix && depth < 7 {
        at' := JoinBelow(target, depth, leftScattered, left, rightScattered, right, at, p);
      } else {
        at' := JoinHere(target, depth, leftScattered, left, rightScattered, right, at, p);
      }
    }

    /** The two leaves part here, or they never do. */
    method JoinHere(target: nat, depth: nat, leftScattered: u64, left: nat, rightScattered: u64, right: nat,
                            ghost at: Tree, ghost p: Path)
      returns (ghost at': Tree)
      requires Valid() && 1 <= depth <= 8 && Room(2 * (9 - depth) - 1) && target < |entries|
      requires Kind(entries[target]) == Node4 && NoTwins(target) && node4[Index(entries[target])].count == 0
      requires Views()[target] == Inner(map[])
      requires TreeOk(Views(), leaves, at) && p in at && at[p] == target && |p| == depth - 1
      requires left < |entries| && right < |entries| && left != right && left !in at.Values && right !in at.Values
      requires Kind(entries[left]) == Leaf && Kind(entries[right]) == Leaf
      requires leftScattered == Scatter(KeyOf(left)) && rightScattered == Scatter(KeyOf(right))
      requires PathOf(KeyOf(left), |p|) == p == PathOf(KeyOf(right), |p|)
      requires RadixByte(leftScattered, depth) != RadixByte(rightScattered, depth) || depth >= 7
      modifies `entries, `node4, `node16, `node32, `node48, `node256
      ensures Valid() && GrownBy(old(Sizes()), Sizes(), 2 * (9 - depth) - 1)
      ensures OthersKept(target)
      ensures TreeOk(Views(), leaves, at')
      ensures forall q :: q in at ==> q in at' && at'[q] == at[q]
      ensures Joined(old(KeyOf(left)), left, old(KeyOf(right)), right, at, at', old(|entries|))
      ensures Branches(target, old(|entries|))
      ensures old(PathOf(KeyOf(left), 7) != PathOf(KeyOf(right), 7)) ==> TwinFree(target, old(|entries|))
    {
      hide PathOf, Linked, TreeOk, KeyedChildren, IndexedChildren, DirectChildren, Distinct, FirstAt, NoTwins,
           ViewOf, Joined, Valid, InRange, Views, Scatter, RadixByte, Kind, Index, Tagged, TagOf;
      var leftRadix := RadixByte(leftScattered, depth);
      var rightRadix := RadixByte(rightScattered, depth);
      RoutesDiffer(KeyOf(left), KeyOf(right), depth);
      at' := HangLeaves(target, leftRadix, left, rightRadix, right, at, p);
      JoinedHere(KeyOf(left), left, KeyOf(right), right, at, depth, at', old(|entries|));
    }

    /** The two leaves share the radix at `depth`: one more branch, and on below it. */
    method JoinBelow(target: nat, depth: nat, leftScattered: u64, left: nat, rightScattered: u64, right: nat,
                             ghost at: Tree, ghost p: Path)
      returns (ghost at': Tree)
      requires Valid() && 1 <= depth < 7 && Room(2 * (9 - depth) - 1) && target < |entries|
      requires Kind(entries[target]) == Node4 && NoTwins(target) && Views()[target] == Inner(map[])
      requires TreeOk(Views(), leaves, at) && p in at && at[p] == target && |p| == depth - 1
      requires left < |entries| && right < |entries| && left != right && left !in at.Values && right !in at.Values
      requires Kind(entries[left]) == Leaf && Kind(entries[right]) == Leaf
      requires leftScattered == Scatter(KeyOf(left)) && rightScattered == Scatter(KeyOf(right))
      requires PathOf(KeyOf(left), |p|) == p == PathOf(KeyOf(right), |p|)
      requires RadixByte(leftScattered, depth) == RadixByte(rightScattered, depth)
      modifies `entries, `node4, `node16, `node32, `node48, `node256
      ensures Valid() && GrownBy(old(Sizes()), Sizes(), 2 * (9 - depth) - 1)
      ensures OthersKept(target)
      ensures TreeOk(Views(), leaves, at')
      ensures forall q :: q in at ==> q in at' && at'[q] == at[q]
      ensures Joined(old(KeyOf(left)), left, old(KeyOf(right)), right, at, at', old(|entries|))
      ensures Branches(target, old(|entries|))
      ensures old(PathOf(KeyOf(left), 7) != PathOf(KeyOf(right), 7)) ==> TwinFree(target, old(|entries|))
      decreases 9 - depth, 0
    {
      hide PathOf, Linked, TreeOk, KeyedChildren, IndexedChildren, DirectChildren, Distinct, FirstAt, NoTwins,
           ViewOf, Joined, Valid, InRange, Views, Scatter, RadixByte;
      ghost var q := Snoc(p, RadixByte(leftScattered, depth));
      RoutesDiffer(KeyOf(left), KeyOf(right), depth);
      var child;
      ghost var mid;
      child, mid := Descend(target, RadixByte(leftScattered, depth), at, p);
      assert Views()[child := Inner(map[])] == Views();
      FreshIn(at, q, child, left, right);
      at' := JoinLeavesInPlace(child, depth + 1, leftScattered, left, rightScattered, right, mid, q);
      JoinedBelow(KeyOf(left), left, KeyOf(right), right, at, q, child, at', old(|entries|));
    }

    /** The entry of `target` becomes an empty branch. */
    method PlantBranch(target: nat)
      requires Valid() && target < |entries| && Room(1)
      modifies `entries, `node4
      ensures Valid() && Views() == old(Views())[target := Inner(map[])]
      ensures entries == old(entries)[target := entries[target]] && Kind(entries[target]) == Node4
      ensures node4[Index(entries[target])].count == 0 && |node4| == old(|node4|) + 1
      ensures NoTwins(target)
      ensures forall i :: 0 <= i < |entries| && i != target ==> NoTwins(i) == old(NoTwins(i))
    {
      hide Kind, Index, FirstAt;
      var node4Id := |node4|;
      node4 := node4 + [KeyedNode(0, Fill(4, 0), Fill(4, EMPTY))];
      entries := entries[target := Tagged(Node4, node4Id)];
      EmptyKeyed(4);
    }

    /** Two leaves below the empty branch `target`; under one radix only the first is found. */
    method HangLeaves(target: nat, leftRadix: byte, left: nat, rightRadix: byte, right: nat,
                      ghost at: Tree, ghost p: Path)
      returns (ghost at': Tree)
      requires Valid() && Room(1) && target < |entries| && NoTwins(target)
      requires Kind(entries[target]) == Node4 && node4[Index(entries[target])].count == 0
      requires TreeOk(Views(), leaves, at) && p in at && at[p] == target && |p| < MAX_DEPTH
      requires Views()[target] == Inner(map[])
      requires left < |entries| && right < |entries| && left != right && left !in at.Values && right !in at.Values
      requires Kind(entries[left]) == Leaf && Kind(entries[right]) == Leaf
      requires PathOf(KeyOf(left), |p| + 1) == Snoc(p, leftRadix)
      requires PathOf(KeyOf(right), |p| + 1) == Snoc(p, rightRadix)
      modifies `entries, `node4, `node16, `node32, `node48, `node256
      ensures Valid() && Sizes() == old(Sizes())
      ensures at' == if leftRadix == rightRadix then at[Snoc(p, leftRadix) := left]
                     else at[Snoc(p, leftRadix) := left][Snoc(p, rightRadix) := right]
      ensures Views()[target].Inner? && TreeOk(Views(), leaves, at') && Snoc(p, leftRadix) !in at && Snoc(p, rightRadix) !in at
      ensures leftRadix != rightRadix ==> NoTwins(target)
      ensures OthersKept(target)
    {
      hide PathOf, Linked, TreeOk, KeyedChildren, IndexedChildren, DirectChildren, Distinct, FirstAt, NoTwins, Views,
           ViewOf, Valid, InRange, Kind, Index;
      ghost var before := Views();
      Ids(before, leaves, at, p);
      FreeRadix(before, leaves, at, p, leftRadix);
      FreeRadix(before, leaves, at, p, rightRadix);
      LeafOrBranch(left);
      LeafOrBranch(right);
      AddChild(target, leftRadix, left);
      AddChild(target, rightRadix, right);
      if leftRadix == rightRadix {
        at' := at[Snoc(p, leftRadix) := left];
        Graft(before, leaves, at, Views(), leaves, p, leftRadix, left);
      } else {
        at' := at[Snoc(p, leftRadix) := left][Snoc(p, rightRadix) := right];
        GraftPair(before, leaves, at, Views(), p, leftRadix, left, rightRadix, right);
      }
    }

    /** One more branch below the empty branch `target`. */
    method Descend(target: nat, radix: byte, ghost at: Tree, ghost p: Path) returns (child: nat, ghost at': Tree)
      requires Valid() && Room(2) && target < |entries| && Kind(entries[target]) == Node4 && NoTwins(target)
      requires TreeOk(Views(), leaves, at) && p in at && at[p] == target && |p| < MAX_DEPTH
      requires Views()[target] == Inner(map[])
      modifies `entries, `node4, `node16, `node32, `node48, `node256
      ensures Valid() && child == old(|entries|) && |entries| == child + 1
      ensures GrownBy(old(Sizes()), Sizes(), 1) && Snoc(p, radix) !in at && at' == at[Snoc(p, radix) := child]
      ensures Views()[target].Inner? && Views()[child] == Inner(map[]) && TreeOk(Views(), leaves, at')
      ensures NoTwins(target) && NoTwins(child) && Kind(entries[child]) == Node4
      ensures OthersKept(target)
    {
      hide PathOf, Linked, TreeOk, KeyedChildren, IndexedChildren, DirectChildren, Distinct, FirstAt, ViewOf, Views,
           Valid, InRange, NoTwins, Kind, Index, Tagged, TagOf;
      ghost var before := Views();
      Ids(before, leaves, at, p);
      FreeRadix(before, leaves, at, p, radix);
      child := AllocNode4();
      AddChild(target, radix, child);
      Graft(before, leaves, at, Views(), leaves, p, radix, child);
      at' := at[Snoc(p, radix) := child];
    }

    ghost predicate NoTwinsAnywhere()
      requires Valid()
      reads this
    {
      forall i :: 0 <= i < |entries| ==> NoTwins(i)
    }

    method SetValue(leafId: nat, value: V)
      requires Valid() && leafId < |leaves|
      modifies `leaves
      ensures Valid() && Views() == old(Views()) && Sizes() == old(Sizes())
      ensures leaves == old(leaves)[leafId := LeafNode(old(leaves[leafId].key), value)]
      ensures forall i :: 0 <= i < |entries| ==> NoTwins(i) == old(NoTwins(i))
    {
      leaves := leaves[leafId := leaves[leafId].(value := value)];
    }

    /** Walks down `key`'s route and binds it: in its leaf, by splitting the leaf of
        another key, or as a new child. A key whose seven-byte route is already
        taken by another key gets a leaf that no walk finds. */
    method InsertAt(id: nat, depth: nat, key: u64, scattered: u64, value: V,
                    ghost at: Tree, ghost p: Path, ghost dict: map<u64, V>)
      returns (previous: Option<V>, ghost at': Tree)
      requires Valid() && Room(20) && NoTwinsAnywhere()
      requires TreeOk(Views(), leaves, at) && Complete(Views(), leaves, at) && Binds(Views(), leaves, at, dict)
      requires id < |entries| && p in at && at[p] == id && |p| == depth - 1 && p == PathOf(key, |p|) && scattered == Scatter(key)
      modifies this
      ensures Valid() && GrownBy(old(Sizes()), Sizes(), 20)
      ensures LeafStored(old(leaves), leaves, key, value)
      ensures forall q :: q in at ==> q in at' && at'[q] == at[q]
      ensures previous == if key in dict then Some(dict[key]) else None
      ensures TreeOk(Views(), leaves, at')
      ensures Collides(dict, key) ==> Binds(Views(), leaves, at', dict)
      ensures !Collides(dict, key) ==>
                && NoTwinsAnywhere() && Complete(Views(), leaves, at')
                && Binds(Views(), leaves, at', dict[key := value])
      decreases 9 - depth
    {
      hide PathOf, Linked, TreeOk, KeyedChildren, IndexedChildren, DirectChildren, Distinct, FirstAt, NoTwins,
           ViewOf, Joined, InRange, Scatter, RadixByte, Complete, Binds, Collides, LeafStored, Valid, Views, Kind,
           Index, Tagged, TagOf;
      Ids(Views(), leaves, at, p);
      Depths(Views(), leaves, at, p);
      LeafOrBranch(id);
      if Kind(entries[id]) == Leaf {
        previous, at' := InsertAtLeaf(id, depth, key, scattered, value, at, p, dict);
        return;
      }
      var radix := RadixByte(scattered, depth);
      PathSnoc(key, |p|);
      var found := FindChild(id, radix);
      match found {
        case Some(child) =>
          previous, at' := InsertAt(child, depth + 1, key, scattered, value, at, Snoc(p, radix), dict);
        case None =>
          ghost var before, stored := Views(), leaves;
          var leaf := AllocLeaf(key, value);
          AddChild(id, radix, leaf);
          HangBinds(before, stored, at, dict, key, value, |p|, Views(), leaf);
          at' := at[Snoc(p, radix) := leaf];
          LeafAppended(stored, key, value);
          previous := None;
      }
    }

    method InsertAtLeaf(id: nat, depth: nat, key: u64, scattered: u64, value: V,
                        ghost at: Tree, ghost p: Path, ghost dict: map<u64, V>)
      returns (previous: Option<V>, ghost at': Tree)
      requires Valid() && Room(20) && NoTwinsAnywhere()
      requires TreeOk(Views(), leaves, at) && Complete(Views(), leaves, at) && Binds(Views(), leaves, at, dict)
      requires id < |entries| && p in at && at[p] == id && |p| == depth - 1 && p == PathOf(key, |p|) && scattered == Scatter(key)
      requires Kind(entries[id]) == Leaf
      modifies this
      ensures Valid() && GrownBy(old(Sizes()), Sizes(), 20)
      ensures LeafStored(old(leaves), leaves, key, value)
      ensures forall q :: q in at ==> q in at' && at'[q] == at[q]
      ensures previous == if key in dict then Some(dict[key]) else None
      ensures TreeOk(Views(), leaves, at')
      ensures Collides(dict, key) ==> Binds(Views(), leaves, at', dict)
      ensures !Collides(dict, key) ==>
                && NoTwinsAnywhere() && Complete(Views(), leaves, at')
                && Binds(Views(), leaves, at', dict[key := value])
    {
      hide PathOf, Linked, TreeOk, KeyedChildren, IndexedChildren, DirectChildren, Distinct, FirstAt, NoTwins,
           ViewOf, Joined, InRange, Scatter, RadixByte, Complete, Binds, Collides;
      ghost var before, stored := Views(), leaves;
      Depths(before, leaves, at, p);
      LeafOrBranch(id);
      var leafId := Index(entries[id]);
      var leaf := leaves[leafId];
      if leaf.key == key {
        RebindLeaf(before, leaves, at, dict, key, |p|, leafId, value);
        previous := Some(leaf.value);
        SetValue(leafId, value);
        at' := at;
      } else {
        at' := SplitLeaf(id, depth, key, scattered, value, at, p, dict);
        previous := None;
      }
    }

    method SplitLeaf(id: nat, depth: nat, key: u64, scattered: u64, value: V,
                     ghost at: Tree, ghost p: Path, ghost dict: map<u64, V>)
      returns (ghost at': Tree)
      requires Valid() && Room(20) && NoTwinsAnywhere()
      requires TreeOk(Views(), leaves, at) && Complete(Views(), leaves, at) && Binds(Views(), leaves, at, dict)
      requires id < |entries| && p in at && at[p] == id && |p| == depth - 1 && p == PathOf(key, |p|) && scattered == Scatter(key)
      requires Kind(entries[id]) == Leaf && InRange(entries[id]) && leaves[Index(entries[id])].key != key
      modifies this
      ensures Valid() && GrownBy(old(Sizes()), Sizes(), 20)
      ensures leaves == old(leaves) + [LeafNode(key, value)]
      ensures forall q :: q in at ==> q in at' && at'[q] == at[q]
      ensures key !in dict
      ensures TreeOk(Views(), leaves, at')
      ensures Collides(dict, key) ==> Binds(Views(), leaves, at', dict)
      ensures !Collides(dict, key) ==>
                && NoTwinsAnywhere() && Complete(Views(), leaves, at')
                && Binds(Views(), leaves, at', dict[key := value])
    {
      hide PathOf, Linked, TreeOk, KeyedChildren, IndexedChildren, DirectChildren, Distinct, FirstAt, NoTwins,
           ViewOf, Joined, InRange, Scatter, RadixByte, Complete, Binds, Collides, SplitFrame, Valid, Views, Kind,
           Index, Tagged, TagOf;
      ghost var before, stored := Views(), leaves;
      Depths(before, leaves, at, p);
      LeafOrBranch(id);
      var leafId := Index(entries[id]);
      var leaf := leaves[leafId];
      LeafRoute(before, stored, at, p, leafId);
      var oldLeaf := AllocLeafEntry(leafId);
      var newLeaf := AllocLeaf(key, value);
      Hollow(before, stored, at, p, Views(), leaves);
      NotPlanted(before, stored, at, oldLeaf);
      NotPlanted(before, stored, at, newLeaf);
      at' := JoinLeavesInPlace(id, depth, Scatter(leaf.key), oldLeaf, scattered, newLeaf, at, p);
      SplitDone(before, stored, at, dict, key, value, |p|, leafId, Views(), at', oldLeaf, newLeaf, |before| + 2);
    }

    /** Leaves move into the order of their scattered keys and their entries follow. */
    method Compact() returns (ghost remap: seq<nat>, ghost order: seq<nat>)
      requires Valid() && Room(0)
      modifies `leaves, `entries
      ensures Valid() && Sizes() == old(Sizes())
      ensures Relocates(old(leaves), leaves, remap) && Relocates(leaves, old(leaves), order)
      ensures forall m, n :: 0 <= m < n < |leaves| ==> KeyLe(leaves[m].key, leaves[n].key)
      ensures forall i :: 0 <= i < |entries| ==> Views()[i] == Moved(old(Views()[i]), remap) && NoTwins(i) == old(NoTwins(i))
    {
      hide Relocates, SortedOrder, Kind, Index, Tagged, KeyLe, Valid, ViewOf, Views, NoTwins, LeavesFollow;
      InRangeAll();
      var sorted := SortLeaves(leaves);
      var compacted, places := Relocate(leaves, sorted);
      var moved := RemapEntries(entries, places);
      remap, order := places, sorted;
      leaves, entries := compacted, moved;
      assert LeavesFollow(remap) by { LeavesDoFollow(remap); }
      StillValid(remap);
      ViewsMove(remap);
    }

    lemma InRangeAll()
      requires Valid()
      ensures forall i :: 0 <= i < |entries| && Kind(entries[i]) == Leaf ==> Index(entries[i]) < |leaves|
    {
      hide Kind, Index;
    }

    /** The leaf entries point to where their leaves went, and nothing else changed. */
    twostate predicate LeavesFollow(remap: seq<nat>)
      requires |remap| == old(|leaves|)
      reads this
    {
      && |entries| == old(|entries|) && |leaves| == |remap| && (forall l :: 0 <= l < |remap| ==> remap[l] < |leaves|)
      && (forall i :: 0 <= i < |entries| ==>
            && Kind(entries[i]) == Kind(old(entries[i]))
            && Index(entries[i]) == if Kind(entries[i]) == Leaf && Index(old(entries[i])) < |remap| then remap[Index(old(entries[i]))]
                                    else Index(old(entries[i])))
      && unchanged(`node4, `node16, `node32, `node48, `node256)
    }

    twostate lemma LeavesDoFollow(remap: seq<nat>)
      requires |remap| == old(|leaves|) == |leaves| <= INDEX_LIMIT && |entries| == old(|entries|)
      requires forall l :: 0 <= l < |remap| ==> remap[l] < |leaves|
      requires forall i :: 0 <= i < |entries| && Kind(old(entries[i])) == Leaf ==> Index(old(entries[i])) < |remap|
      requires forall i :: 0 <= i < |entries| ==>
                 entries[i] == if Kind(old(entries[i])) == Leaf then Tagged(Leaf, remap[Index(old(entries[i]))]) else old(entries[i])
      requires unchanged(`node4, `node16, `node32, `node48, `node256)
      ensures LeavesFollow(remap)
    {
      hide Kind, Index, Tagged;
    }

    twostate lemma StillValid(remap: seq<nat>)
      requires old(Valid()) && |remap| == old(|leaves|) && LeavesFollow(remap)
      ensures Valid()
    {
      hide Kind, Index, KeyedOk, IndexedOk, DirectOk;
      forall i | 0 <= i < |entries| ensures InRange(entries[i]) {
        assert old(InRange(entries[i]));
      }
    }

    twostate lemma ViewsMove(remap: seq<nat>)
      requires old(Valid()) && |remap| == old(|leaves|) && LeavesFollow(remap) && Valid()
      ensures forall i :: 0 <= i < |entries| ==> Views()[i] == Moved(old(Views()[i]), remap) && NoTwins(i) == old(NoTwins(i))
    {
      hide Kind, Index, KeyedOk, IndexedOk, DirectOk, KeyedChildren, IndexedChildren, DirectChildren, Distinct;
      forall i | 0 <= i < |entries|
        ensures ViewOf(entries[i]) == Moved(old(ViewOf(entries[i])), remap) && NoTwins(i) == old(NoTwins(i))
      {
        assert old(InRange(entries[i])) && InRange(entries[i]);
      }
    }

    lemma OnlyLeaves()
      requires Valid() && forall i :: 0 <= i < |entries| ==> Kind(entries[i]) == Leaf
      ensures NoTwinsAnywhere()
    {
    }

    lemma LeafOrBranch(id: nat)
      requires Valid() && id < |entries|
      ensures if Kind(entries[id]) == Leaf then Views()[id] == LeafAt(Index(entries[id])) && Index(entries[id]) < |leaves|
              else Views()[id].Inner?
    {
    }

    ghost function KeyOf(id: nat): u64
      requires Valid() && id < |entries| && Kind(entries[id]) == Leaf
      reads this
    {
      leaves[Index(entries[id])].key
    }
  }

  /** Where two routes that agree so far go next. */
  lemma RoutesDiffer(a: u64, b: u64, depth: nat)
    requires 1 <= depth <= 8 && PathOf(a, depth - 1) == PathOf(b, depth - 1)
    ensures PathOf(a, depth) == Snoc(PathOf(a, depth - 1), RadixByte(Scatter(a), depth))
    ensures PathOf(b, depth) == Snoc(PathOf(b, depth - 1), RadixByte(Scatter(b), depth))
    ensures RadixByte(Scatter(a), depth) != RadixByte(Scatter(b), depth) ==> PathOf(a, 7) != PathOf(b, 7)
    ensures depth >= 7 && RadixByte(Scatter(a), depth) == RadixByte(Scatter(b), depth) ==> PathOf(a, 7) == PathOf(b, 7)
    ensures depth == 8 ==> RadixByte(Scatter(a), depth) == RadixByte(Scatter(b), depth)
    ensures PathOf(a, depth) == PathOf(b, depth) <==> RadixByte(Scatter(a), depth) == RadixByte(Scatter(b), depth)
  {
    hide Scatter, Shr;
    PathSnoc(a, depth - 1);
    PathSnoc(b, depth - 1);
    assert depth == 8 ==> RadixByte(Scatter(a), depth) == 0 == RadixByte(Scatter(b), depth);
    hide RadixByte;
    assert PathOf(a, depth)[depth - 1] == RadixByte(Scatter(a), depth);
    assert PathOf(b, depth)[depth - 1] == RadixByte(Scatter(b), depth);
    if depth < 8 {
      PathPrefix(a, depth, 7);
      PathPrefix(b, depth, 7);
    }
  }

  lemma FreshIn(at: Tree, q: Path, child: nat, left: nat, right: nat)
    requires left !in at.Values && right !in at.Values && child != left && child != right
    ensures left !in at[q := child].Values && right !in at[q := child].Values
  {
  }

  lemma JoinedBelow(leftKey: u64, left: nat, rightKey: u64, right: nat,
                    at: Tree, q: Path, child: nat, at': Tree, firstNew: nat)
    requires |q| < MAX_DEPTH - 1 && firstNew <= child && at'.Keys >= at.Keys + {q} && at'[q] == child
    requires Joined(leftKey, left, rightKey, right, at[q := child], at', child + 1)
    ensures Joined(leftKey, left, rightKey, right, at, at', firstNew)
  {
    hide PathOf;
    assert forall x :: x in at' && x !in at ==> x == q || x !in at[q := child];
  }

  lemma JoinedHere(leftKey: u64, left: nat, rightKey: u64, right: nat, at: Tree, depth: nat, at': Tree, firstNew: nat)
    requires 1 <= depth <= 8 && left != right && left !in at.Values && right !in at.Values
    requires depth == 8 ==> PathOf(leftKey, depth) == PathOf(rightKey, depth)
    requires PathOf(leftKey, depth) == PathOf(rightKey, depth) <==> PathOf(leftKey, 7) == PathOf(rightKey, 7)
    requires at' == if PathOf(leftKey, depth) == PathOf(rightKey, depth) then at[PathOf(leftKey, depth) := left]
                    else at[PathOf(leftKey, depth) := left][PathOf(rightKey, depth) := right]
    ensures Joined(leftKey, left, rightKey, right, at, at', firstNew)
  {
    hide Scatter, RadixByte;
    assert PathOf(leftKey, depth) in at' && at'[PathOf(leftKey, depth)] == left;
    if PathOf(leftKey, 7) != PathOf(rightKey, 7) {
      assert PathOf(rightKey, depth) in at' && at'[PathOf(rightKey, depth)] == right;
    }
  }
}
