/** The radix tree a shard's slabs spell out, as a value: which entry sits at which
    route, what a lookup along a route finds, and how the tree grows. */
module RadixTree {
  import opened Scattering

  datatype LeafNode<V> = LeafNode(key: u64, value: V)

  /** What an entry means: a leaf slot, or a branch with a child for some radices. */
  datatype View = LeafAt(leaf: nat) | Inner(children: map<byte, nat>)

  /** The entries reachable from the root, by the route that leads to them. */
  type Tree = map<Path, nat>

  const MAX_DEPTH: nat := 8

  /** The entry at a route hangs below the entry at the route's beginning. */
  ghost predicate Linked(views: seq<View>, at: Tree, q: Path)
    requires q in at && |q| > 0
  {
    var p := q[..|q| - 1];
    && p in at
    && at[p] < |views|
    && views[at[p]].Inner?
    && q[|q| - 1] in views[at[p]].children
    && views[at[p]].children[q[|q| - 1]] == at[q]
  }

  ghost predicate LeafOnRoute<V>(views: seq<View>, leaves: seq<LeafNode<V>>, id: nat, q: Path)
    requires id < |views|
  {
    views[id].LeafAt? ==>
      && views[id].leaf < |leaves|
      && PathOf(leaves[views[id].leaf].key, |q|) == q
  }

  /** `at` is exactly the tree below the root: closed upwards and downwards, each
      entry at one route, and each leaf on the route of its own key. */
  ghost predicate TreeOk<V>(views: seq<View>, leaves: seq<LeafNode<V>>, at: Tree) {
    && [] in at
    && (forall q :: q in at ==> at[q] < |views| && |q| <= MAX_DEPTH)
    && (forall q {:trigger Linked(views, at, q)} :: q in at && |q| > 0 ==> Linked(views, at, q))
    && (forall p, r: byte :: p in at && views[at[p]].Inner? && r in views[at[p]].children ==> Snoc(p, r) in at)
    && (forall p, q :: p in at && q in at && at[p] == at[q] ==> p == q)
    && (forall q :: q in at ==> LeafOnRoute(views, leaves, at[q], q))
  }

  ghost predicate Reaches(views: seq<View>, at: Tree, p: Path, leaf: nat) {
    p in at && at[p] < |views| && views[at[p]] == LeafAt(leaf)
  }

  /** Every stored leaf can be reached, and no route is longer than a key. */
  ghost predicate Complete<V>(views: seq<View>, leaves: seq<LeafNode<V>>, at: Tree) {
    && (forall q :: q in at ==> at[q] < |views| && |q| < MAX_DEPTH && (views[at[q]].Inner? ==> |q| < MAX_DEPTH - 1))
    && (forall l :: 0 <= l < |leaves| ==> Placed(views, leaves, at, l))
  }

  ghost predicate Placed<V>(views: seq<View>, leaves: seq<LeafNode<V>>, at: Tree, l: nat)
    requires l < |leaves|
  {
    exists n: nat :: Reaches(views, at, PathOf(leaves[l].key, n), l)
  }

  /** A plain map agrees with the tree: it binds exactly the keys of reachable leaves. */
  ghost predicate Binds<V>(views: seq<View>, leaves: seq<LeafNode<V>>, at: Tree, dict: map<u64, V>) {
    && (forall q, l: nat :: Reaches(views, at, q, l) && l < |leaves| ==>
          leaves[l].key in dict && dict[leaves[l].key] == leaves[l].value)
    && (forall k :: k in dict ==> exists n: nat, l: nat :: Finds(views, leaves, at, k, n, l))
  }

  ghost predicate Finds<V>(views: seq<View>, leaves: seq<LeafNode<V>>, at: Tree, key: u64, n: nat, leaf: nat) {
    Reaches(views, at, PathOf(key, n), leaf) && leaf < |leaves| && leaves[leaf].key == key
  }

  /** One insertion writes one leaf: a new one at the end, or the old one of its key. */
  ghost predicate LeafStored<V>(before: seq<LeafNode<V>>, after: seq<LeafNode<V>>, key: u64, value: V) {
    || after == before + [LeafNode(key, value)]
    || exists l :: 0 <= l < |before| && before[l].key == key && after == before[l := LeafNode(key, value)]
  }

  /** Some other bound key takes the same seven-byte route as `key`. */
  ghost predicate Collides<V>(dict: map<u64, V>, key: u64) {
    key !in dict && exists k :: k in dict && PathOf(k, 7) == PathOf(key, 7)
  }

  lemma Unlink(views: seq<View>, at: Tree, q: Path)
    requires q in at && |q| > 0 && Linked(views, at, q)
    ensures var p := q[..|q| - 1];
            && p in at && at[p] < |views| && views[at[p]].Inner?
            && q[|q| - 1] in views[at[p]].children && views[at[p]].children[q[|q| - 1]] == at[q]
  {
  }

  /** Below any reachable entry the rest of a reachable route can be followed. */
  lemma {:induction false} RoutePrefix<V>(views: seq<View>, leaves: seq<LeafNode<V>>, at: Tree, q: Path, n: nat)
    requires TreeOk(views, leaves, at) && q in at && n < |q|
    ensures q[..n] in at && views[at[q[..n]]].Inner?
    ensures q[n] in views[at[q[..n]]].children
    decreases |q|
  {
    hide PathOf, Snoc, LeafOnRoute, Linked;
    Unlink(views, at, q);
    var p := q[..|q| - 1];
    if n < |p| {
      RoutePrefix(views, leaves, at, p, n);
      assert p[..n] == q[..n];
    } else {
      assert q[..n] == p;
    }
  }

  /** Of two reachable entries on one key's route, a leaf is the lower one. */
  lemma LeafIsLast<V>(views: seq<View>, leaves: seq<LeafNode<V>>, at: Tree, key: u64, m: nat, n: nat)
    requires TreeOk(views, leaves, at)
    requires PathOf(key, m) in at && PathOf(key, n) in at && views[at[PathOf(key, m)]].LeafAt?
    ensures n <= m
  {
    if m < n {
      RoutePrefix(views, leaves, at, PathOf(key, n), m);
      PathPrefix(key, m, n);
    }
  }

  /** Hanging a leaf or an empty branch under a free radix keeps the tree well formed. */
  lemma Graft<V>(views: seq<View>, leaves: seq<LeafNode<V>>, at: Tree,
                 views': seq<View>, leaves': seq<LeafNode<V>>, p: Path, r: byte, child: nat)
    requires TreeOk(views, leaves, at)
    requires p in at && |p| < MAX_DEPTH && views[at[p]].Inner? && r !in views[at[p]].children
    requires |views| <= |views'| && child < |views'| && child !in at.Values
    requires views'[at[p]] == Inner(views[at[p]].children[r := child])
    requires forall q :: q in at && q != p ==> views'[at[q]] == views[at[q]]
    requires |leaves| <= |leaves'| && forall l :: 0 <= l < |leaves| ==> leaves'[l].key == leaves[l].key
    requires views'[child] == Inner(map[])
             || (views'[child].LeafAt? && LeafOnRoute(views', leaves', child, Snoc(p, r)))
    ensures TreeOk(views', leaves', at[Snoc(p, r) := child])
  {
    hide PathOf, LeafOnRoute, Linked;
    var q', at' := Snoc(p, r), at[Snoc(p, r) := child];
    FreeRadix(views, leaves, at, p, r);
    forall q | q in at'
      ensures LeafOnRoute(views', leaves', at'[q], q)
      ensures |q| > 0 ==> Linked(views', at', q)
    {
      if q != q' {
        LeafOnRouteGrows(views, leaves, views', leaves', p, at[q], q);
        if |q| > 0 {
          Relink(views, views', at, p, r, child, q);
        }
      } else {
        LinkNew(views', at', p, r, child);
        EmptyBranchOnRoute(views', leaves', child, q');
      }
    }
    GraftClosed(views, leaves, at, views', p, r, child);
  }

  lemma GraftClosed<V>(views: seq<View>, leaves: seq<LeafNode<V>>, at: Tree, views': seq<View>, p: Path, r: byte, child: nat)
    requires TreeOk(views, leaves, at)
    requires p in at && |p| < MAX_DEPTH && views[at[p]].Inner? && r !in views[at[p]].children
    requires |views| <= |views'| && child < |views'|
    requires views'[at[p]] == Inner(views[at[p]].children[r := child])
    requires forall q :: q in at && q != p ==> views'[at[q]] == views[at[q]]
    requires views'[child] == Inner(map[]) || views'[child].LeafAt?
    requires Snoc(p, r) !in at
    ensures var at' := at[Snoc(p, r) := child];
            forall q, s: byte :: q in at' && views'[at'[q]].Inner? && s in views'[at'[q]].children ==> Snoc(q, s) in at'
  {
    hide PathOf, LeafOnRoute, Linked, Snoc;
    var at' := at[Snoc(p, r) := child];
    forall q, s: byte | q in at' && views'[at'[q]].Inner? && s in views'[at'[q]].children
      ensures Snoc(q, s) in at'
    {
      if q in at && q != p {
        assert views[at[q]] == views'[at'[q]];
      }
    }
  }

  lemma FreeRadix<V>(views: seq<View>, leaves: seq<LeafNode<V>>, at: Tree, p: Path, r: byte)
    requires TreeOk(views, leaves, at)
    requires p in at && (views[at[p]].Inner? ==> r !in views[at[p]].children)
    ensures Snoc(p, r) !in at
  {
    hide PathOf, LeafOnRoute;
    var q := Snoc(p, r);
    assert q[..|p|] == p && q[|p|] == r;
    assert q in at ==> Linked(views, at, q);
  }

  lemma Relink(views: seq<View>, views': seq<View>, at: Tree, p: Path, r: byte, child: nat, q: Path)
    requires p in at && at[p] < |views| <= |views'| && views[at[p]].Inner? && r !in views[at[p]].children
    requires views'[at[p]] == Inner(views[at[p]].children[r := child])
    requires forall q :: q in at && q != p && at[q] < |views| ==> views'[at[q]] == views[at[q]]
    requires q in at && |q| > 0 && Linked(views, at, q) && Snoc(p, r) !in at
    ensures Linked(views', at[Snoc(p, r) := child], q)
  {
  }

  lemma LinkNew(views: seq<View>, at: Tree, p: Path, r: byte, child: nat)
    requires p in at && at[p] < |views| && views[at[p]].Inner?
    requires r in views[at[p]].children && views[at[p]].children[r] == child
    requires Snoc(p, r) in at && at[Snoc(p, r)] == child
    ensures Linked(views, at, Snoc(p, r))
  {
    assert Snoc(p, r)[..|p|] == p;
  }

  lemma LeafOnRouteGrows<V>(views: seq<View>, leaves: seq<LeafNode<V>>, views': seq<View>, leaves': seq<LeafNode<V>>,
                            p: Path, id: nat, q: Path)
    requires id < |views| <= |views'| && LeafOnRoute(views, leaves, id, q)
    requires views'[id] == views[id] || views'[id].Inner?
    requires |leaves| <= |leaves'| && forall l :: 0 <= l < |leaves| ==> leaves'[l].key == leaves[l].key
    ensures LeafOnRoute(views', leaves', id, q)
  {
  }

  lemma EmptyBranchOnRoute<V>(views: seq<View>, leaves: seq<LeafNode<V>>, id: nat, q: Path)
    requires id < |views| && (views[id].Inner? || LeafOnRoute(views, leaves, id, q))
    ensures LeafOnRoute(views, leaves, id, q)
  {
  }

  /** A branch that gained both leaves of a split, under different radices. */
  lemma GraftPair<V>(views: seq<View>, leaves: seq<LeafNode<V>>, at: Tree, views': seq<View>,
                     p: Path, lr: byte, left: nat, rr: byte, right: nat)
    requires forall q :: q in at ==> at[q] < |views|
    requires p in at && |p| < MAX_DEPTH && views[at[p]] == Inner(map[])
    requires lr != rr && left != right && left !in at.Values && right !in at.Values
    requires |views| <= |views'| && left < |views'| && right < |views'|
    requires views'[at[p]] == Inner(map[lr := left, rr := right])
    requires forall q :: q in at && q != p ==> views'[at[q]] == views[at[q]]
    requires views'[left].LeafAt? && LeafOnRoute(views', leaves, left, Snoc(p, lr))
    requires views'[right].LeafAt? && LeafOnRoute(views', leaves, right, Snoc(p, rr))
    requires TreeOk(views, leaves, at)
    ensures TreeOk(views', leaves, at[Snoc(p, lr) := left][Snoc(p, rr) := right])
  {
    hide PathOf, Linked, TreeOk, Snoc, LeafOnRoute;
    Ids(views, leaves, at, p);
    FreeRadix(views, leaves, at, p, lr);
    assert Snoc(p, lr) != p;
    var mid := views'[at[p] := Inner(map[lr := left])];
    var at1 := at[Snoc(p, lr) := left];
    assert map[][lr := left] == map[lr := left];
    SameLeafOnRoute(views', mid, leaves, left, Snoc(p, lr));
    Graft(views, leaves, at, mid, leaves, p, lr, left);
    assert map[lr := left][rr := right] == map[lr := left, rr := right];
    ValuesAfter(at, Snoc(p, lr), left);
    assert forall q :: q in at1 && q != p ==> at1[q] != at[p] && views'[at1[q]] == mid[at1[q]];
    Graft(mid, leaves, at1, views', leaves, p, rr, right);
  }

  lemma ValuesAfter(at: Tree, q: Path, id: nat)
    ensures at[q := id].Values <= at.Values + {id}
  {
  }

  lemma SameLeafOnRoute<V>(views: seq<View>, views': seq<View>, leaves: seq<LeafNode<V>>, id: nat, q: Path)
    requires id < |views| && id < |views'| && views[id] == views'[id] && LeafOnRoute(views, leaves, id, q)
    ensures LeafOnRoute(views', leaves, id, q)
  {
  }

  lemma Ids<V>(views: seq<View>, leaves: seq<LeafNode<V>>, at: Tree, p: Path)
    requires TreeOk(views, leaves, at) && p in at
    ensures at[p] < |views|
    ensures forall q :: q in at ==> at[q] < |views| && (at[q] == at[p] ==> q == p)
    ensures forall r :: views[at[p]].Inner? && r in views[at[p]].children ==>
              && Snoc(p, r) in at
              && at[Snoc(p, r)] == views[at[p]].children[r]
              && views[at[p]].children[r] < |views|
  {
    hide PathOf, LeafOnRoute;
    forall r: byte | views[at[p]].Inner? && r in views[at[p]].children
      ensures Snoc(p, r) in at && at[Snoc(p, r)] == views[at[p]].children[r]
    {
      var q := Snoc(p, r);
      assert q in at && Linked(views, at, q);
      assert q[..|p|] == p;
    }
  }

  lemma Depths<V>(views: seq<View>, leaves: seq<LeafNode<V>>, at: Tree, p: Path)
    requires Complete(views, leaves, at) && p in at
    ensures at[p] < |views| && |p| < MAX_DEPTH && (views[at[p]].Inner? ==> |p| < MAX_DEPTH - 1)
  {
  }

  // ----- what a walk along a key's route may conclude -----

  /** The leaf reached along `key`'s route is the only one that can hold `key`,
      or any key of the same route. */
  lemma LeafDecides<V>(views: seq<View>, leaves: seq<LeafNode<V>>, at: Tree, dict: map<u64, V>,
                       key: u64, m: nat, leaf: nat, k: u64)
    requires TreeOk(views, leaves, at) && Binds(views, leaves, at, dict)
    requires Reaches(views, at, PathOf(key, m), leaf) && k in dict
    requires k == key || (PathOf(k, 7) == PathOf(key, 7) && forall q :: q in at ==> |q| < MAX_DEPTH)
    ensures leaf < |leaves| && leaves[leaf].key == k
  {
    hide Scatter, RadixByte, PathOf, TreeOk;
    var n: nat, l: nat :| Finds(views, leaves, at, k, n, l);
    SameRoute(k, key, n, at);
    Ids(views, leaves, at, PathOf(key, m));
    Ids(views, leaves, at, PathOf(key, n));
    LeafIsLast(views, leaves, at, key, m, n);
    LeafIsLast(views, leaves, at, key, n, m);
  }

  lemma SameRoute(k: u64, key: u64, n: nat, at: Tree)
    requires PathOf(k, n) in at
    requires k == key || (PathOf(k, 7) == PathOf(key, 7) && forall q :: q in at ==> |q| < MAX_DEPTH)
    ensures PathOf(k, n) == PathOf(key, n)
  {
    if k != key {
      PathPrefix(k, n, 7);
      PathPrefix(key, n, 7);
    }
  }

  /** A branch with no child for the next radix of `key` proves that neither `key`
      nor any key of the same route is bound. */
  lemma DeadEnd<V>(views: seq<View>, leaves: seq<LeafNode<V>>, at: Tree, dict: map<u64, V>, key: u64, m: nat, k: u64)
    requires TreeOk(views, leaves, at) && Binds(views, leaves, at, dict)
    requires PathOf(key, m) in at && at[PathOf(key, m)] < |views|
    requires var view := views[at[PathOf(key, m)]]; view.Inner? && RadixByte(Scatter(key), m + 1) !in view.children
    requires k == key || (PathOf(k, 7) == PathOf(key, 7) && forall q :: q in at ==> |q| < MAX_DEPTH)
    ensures k !in dict
  {
    hide Scatter, RadixByte, TreeOk;
    if k in dict {
      var n: nat, l: nat :| Finds(views, leaves, at, k, n, l);
      SameRoute(k, key, n, at);
      LeafIsLast(views, leaves, at, key, n, m);
      var q := PathOf(key, n);
      PathPrefix(key, m, n);
      if m < n {
        RoutePrefix(views, leaves, at, q, m);
      }
      assert false;
    }
  }

  lemma LeafAppended<V>(leaves: seq<LeafNode<V>>, key: u64, value: V)
    ensures LeafStored(leaves, leaves + [LeafNode(key, value)], key, value)
  {
  }

  // ----- how the three ways of binding a key change the tree -----

  /** After a split both leaves are reachable, unless their keys take the same
      seven-byte route: then the second one is in the slab but not in the tree. */
  ghost predicate Joined(leftKey: u64, left: nat, rightKey: u64, right: nat, at: Tree, at': Tree, firstNew: nat) {
    && (forall q :: q in at' && q !in at ==> at'[q] == left || at'[q] == right || firstNew <= at'[q])
    && (if PathOf(leftKey, 7) == PathOf(rightKey, 7) then
         && right !in at'.Values
         && exists n: nat :: PathOf(leftKey, n) in at' && at'[PathOf(leftKey, n)] == left
       else
         && (forall q :: q in at' && q !in at ==>
               |q| < MAX_DEPTH && (at'[q] != left && at'[q] != right ==> |q| < MAX_DEPTH - 1))
         && (exists n: nat :: PathOf(leftKey, n) in at' && at'[PathOf(leftKey, n)] == left)
         && (exists n: nat :: PathOf(rightKey, n) in at' && at'[PathOf(rightKey, n)] == right))
  }

  /** Writing a new value into the leaf of `key`. */
  lemma RebindLeaf<V>(views: seq<View>, leaves: seq<LeafNode<V>>, at: Tree, dict: map<u64, V>,
                      key: u64, n: nat, leaf: nat, value: V)
    requires TreeOk(views, leaves, at) && Complete(views, leaves, at) && Binds(views, leaves, at, dict)
    requires Reaches(views, at, PathOf(key, n), leaf) && leaf < |leaves| && leaves[leaf].key == key
    ensures var leaves' := leaves[leaf := LeafNode(key, value)];
            TreeOk(views, leaves', at) && Complete(views, leaves', at) && Binds(views, leaves', at, dict[key := value])
    ensures key in dict && dict[key] == leaves[leaf].value
    ensures !Collides(dict, key)
  {
    hide PathOf, Linked, LeafOnRoute, Complete, TreeOk;
    var leaves', dict' := leaves[leaf := LeafNode(key, value)], dict[key := value];
    Relabel(views, leaves, leaves', at);
    BoundLeaf(views, leaves, at, dict, PathOf(key, n), leaf);
    forall q, l: nat | Reaches(views, at, q, l) && l < |leaves| && leaves[l].key == key
      ensures l == leaf
    {
      OneLeafPerKey(views, leaves, at, key, n, leaf, q, l);
    }
    forall k | k in dict'
      ensures exists m: nat, l: nat :: Finds(views, leaves', at, k, m, l)
    {
      if k == key {
        assert Finds(views, leaves', at, k, n, leaf);
      } else {
        var m: nat, l: nat :| Finds(views, leaves, at, k, m, l);
        assert Finds(views, leaves', at, k, m, l);
      }
    }
  }

  lemma OneLeafPerKey<V>(views: seq<View>, leaves: seq<LeafNode<V>>, at: Tree, key: u64, n: nat, leaf: nat, q: Path, l: nat)
    requires TreeOk(views, leaves, at) && Reaches(views, at, PathOf(key, n), leaf)
    requires Reaches(views, at, q, l) && l < |leaves| && leaves[l].key == key
    ensures l == leaf
  {
    LeafRoute(views, leaves, at, q, l);
    LeafIsLast(views, leaves, at, key, |q|, n);
    LeafIsLast(views, leaves, at, key, n, |q|);
  }

  /** The tree only depends on the leaves' keys. */
  lemma Relabel<V>(views: seq<View>, leaves: seq<LeafNode<V>>, leaves': seq<LeafNode<V>>, at: Tree)
    requires TreeOk(views, leaves, at) && Complete(views, leaves, at)
    requires |leaves| == |leaves'| && forall l :: 0 <= l < |leaves| ==> leaves'[l].key == leaves[l].key
    ensures TreeOk(views, leaves', at) && Complete(views, leaves', at)
  {
    hide PathOf, Linked, LeafOnRoute;
    forall q | q in at
      ensures LeafOnRoute(views, leaves', at[q], q)
    {
      RelabelLeaf(views, leaves, leaves', at[q], q);
    }
    forall l | 0 <= l < |leaves'|
      ensures Placed(views, leaves', at, l)
    {
      assert Placed(views, leaves, at, l);
      var n: nat :| Reaches(views, at, PathOf(leaves[l].key, n), l);
      assert Reaches(views, at, PathOf(leaves'[l].key, n), l);
    }
  }

  lemma RelabelLeaf<V>(views: seq<View>, leaves: seq<LeafNode<V>>, leaves': seq<LeafNode<V>>, id: nat, q: Path)
    requires id < |views| && |leaves| == |leaves'| && LeafOnRoute(views, leaves, id, q)
    requires forall l :: 0 <= l < |leaves| ==> leaves'[l].key == leaves[l].key
    ensures LeafOnRoute(views, leaves', id, q)
  {
  }

  lemma LeafRoute<V>(views: seq<View>, leaves: seq<LeafNode<V>>, at: Tree, q: Path, leaf: nat)
    requires TreeOk(views, leaves, at) && Reaches(views, at, q, leaf)
    ensures leaf < |leaves| && PathOf(leaves[leaf].key, |q|) == q
  {
    assert LeafOnRoute(views, leaves, at[q], q);
  }

  /** Making room for a branch where a leaf was. */
  lemma Hollow<V>(views: seq<View>, leaves: seq<LeafNode<V>>, at: Tree, p: Path, views': seq<View>, leaves': seq<LeafNode<V>>)
    requires TreeOk(views, leaves, at) && p in at && at[p] < |views| && views[at[p]].LeafAt?
    requires views <= views' && leaves <= leaves'
    ensures TreeOk(views'[at[p] := Inner(map[])], leaves', at)
  {
    hide PathOf, LeafOnRoute;
    Ids(views, leaves, at, p);
    var hollow := views'[at[p] := Inner(map[])];
    forall q | q in at
      ensures LeafOnRoute(hollow, leaves', at[q], q)
      ensures |q| > 0 ==> Linked(hollow, at, q)
    {
      LeafOnRouteGrows(views, leaves, hollow, leaves', p, at[q], q);
      if |q| > 0 {
        assert Linked(views, at, q);
      }
    }
  }

  /** What a split leaves alone and what it adds. */
  ghost predicate SplitFrame(views: seq<View>, at: Tree, p: Path, views': seq<View>, at': Tree, left: nat, right: nat)
    requires p in at
  {
    && |views| <= |views'| && left < |views'| && right < |views'|
    && (forall q :: q in at ==> q in at' && at'[q] == at[q] && at[q] < |views|)
    && (forall q :: q in at && q != p ==> views'[at[q]] == views[at[q]])
    && (forall q :: q in at' && (q == p || (q !in at && at'[q] != left && at'[q] != right)) ==>
          at'[q] < |views'| && views'[at'[q]].Inner?)
  }

  lemma FrameOfSplit<V>(views: seq<View>, leaves: seq<LeafNode<V>>, at: Tree, p: Path,
                        leftKey: u64, left: nat, rightKey: u64, right: nat,
                        views': seq<View>, leaves': seq<LeafNode<V>>, at': Tree, firstNew: nat)
    requires TreeOk(views, leaves, at) && p in at && at[p] < |views| <= |views'|
    requires TreeOk(views', leaves', at') && left < |views'| && right < |views'|
    requires Joined(leftKey, left, rightKey, right, at, at', firstNew)
    requires forall q :: q in at ==> q in at' && at'[q] == at[q]
    requires forall i :: 0 <= i < |views| && i != at[p] ==> views'[i] == views[i]
    requires forall i :: firstNew <= i < |views'| ==> views'[i].Inner?
    requires views'[at[p]].Inner?
    ensures SplitFrame(views, at, p, views', at', left, right)
  {
    hide PathOf, Linked, LeafOnRoute;
  }

  lemma NotPlanted<V>(views: seq<View>, leaves: seq<LeafNode<V>>, at: Tree, id: nat)
    requires TreeOk(views, leaves, at) && |views| <= id
    ensures id !in at.Values
  {
    hide PathOf, Linked, LeafOnRoute;
  }

  lemma SplitBinds<V>(views: seq<View>, leaves: seq<LeafNode<V>>, at: Tree, dict: map<u64, V>,
                      key: u64, value: V, m: nat, leaf: nat,
                      views': seq<View>, at': Tree, left: nat, right: nat, firstNew: nat)
    requires TreeOk(views, leaves, at) && Complete(views, leaves, at) && Binds(views, leaves, at, dict)
    requires Reaches(views, at, PathOf(key, m), leaf) && leaf < |leaves| && leaves[leaf].key != key
    requires SplitFrame(views, at, PathOf(key, m), views', at', left, right)
    requires views'[left] == LeafAt(leaf) && views'[right] == LeafAt(|leaves|)
    requires Joined(leaves[leaf].key, left, key, right, at, at', firstNew)
    ensures key !in dict
    ensures Collides(dict, key) <==> PathOf(leaves[leaf].key, 7) == PathOf(key, 7)
    ensures Collides(dict, key) ==> Binds(views', leaves + [LeafNode(key, value)], at', dict)
    ensures !Collides(dict, key) ==>
              && Complete(views', leaves + [LeafNode(key, value)], at')
              && Binds(views', leaves + [LeafNode(key, value)], at', dict[key := value])
  {
    hide PathOf, Linked, LeafOnRoute, TreeOk, Complete, Joined, Reaches, SplitFrame;
    SplitCollides(views, leaves, at, dict, key, m, leaf);
    SplitBindsLeaves(views, leaves, at, dict, key, value, m, leaf, views', at', left, right, firstNew);
    SplitBindsKeys(views, leaves, at, dict, key, value, m, leaf, views', at', left, right, firstNew);
    if !Collides(dict, key) {
      SplitComplete(views, leaves, at, dict, key, value, m, leaf, views', at', left, right, firstNew);
    }
  }

  lemma SplitDone<V>(views: seq<View>, leaves: seq<LeafNode<V>>, at: Tree, dict: map<u64, V>,
                     key: u64, value: V, m: nat, leaf: nat,
                     views': seq<View>, at': Tree, left: nat, right: nat, firstNew: nat)
    requires TreeOk(views, leaves, at) && Complete(views, leaves, at) && Binds(views, leaves, at, dict)
    requires Reaches(views, at, PathOf(key, m), leaf) && leaf < |leaves| && leaves[leaf].key != key
    requires |views| <= |views'| && left < |views'| && right < |views'|
    requires views'[left] == LeafAt(leaf) && views'[right] == LeafAt(|leaves|)
    requires forall q :: q in at ==> q in at' && at'[q] == at[q]
    requires forall i :: 0 <= i < |views| && i != at[PathOf(key, m)] ==> views'[i] == views[i]
    requires forall i :: firstNew <= i < |views'| ==> views'[i].Inner?
    requires views'[at[PathOf(key, m)]].Inner?
    requires Joined(leaves[leaf].key, left, key, right, at, at', firstNew)
    requires TreeOk(views', leaves + [LeafNode(key, value)], at')
    ensures key !in dict
    ensures Collides(dict, key) <==> PathOf(leaves[leaf].key, 7) == PathOf(key, 7)
    ensures Collides(dict, key) ==> Binds(views', leaves + [LeafNode(key, value)], at', dict)
    ensures !Collides(dict, key) ==>
              && Complete(views', leaves + [LeafNode(key, value)], at')
              && Binds(views', leaves + [LeafNode(key, value)], at', dict[key := value])
  {
    hide PathOf, Linked, LeafOnRoute, TreeOk, Complete, Binds, Joined, SplitFrame, Collides;
    FrameOfSplit(views, leaves, at, PathOf(key, m), leaves[leaf].key, left, key, right,
                 views', leaves + [LeafNode(key, value)], at', firstNew);
    SplitBinds(views, leaves, at, dict, key, value, m, leaf, views', at', left, right, firstNew);
  }

  lemma SplitBindsLeaves<V>(views: seq<View>, leaves: seq<LeafNode<V>>, at: Tree, dict: map<u64, V>,
                      key: u64, value: V, m: nat, leaf: nat,
                      views': seq<View>, at': Tree, left: nat, right: nat, firstNew: nat)
    requires TreeOk(views, leaves, at) && Complete(views, leaves, at) && Binds(views, leaves, at, dict)
    requires Reaches(views, at, PathOf(key, m), leaf) && leaf < |leaves| && leaves[leaf].key != key
    requires SplitFrame(views, at, PathOf(key, m), views', at', left, right)
    requires views'[left] == LeafAt(leaf) && views'[right] == LeafAt(|leaves|)
    requires Joined(leaves[leaf].key, left, key, right, at, at', firstNew)
    ensures var leaves' := leaves + [LeafNode(key, value)];
            var dict' := if Collides(dict, key) then dict else dict[key := value];
            forall q, l: nat :: Reaches(views', at', q, l) && l < |leaves'| ==>
              leaves'[l].key in dict' && dict'[leaves'[l].key] == leaves'[l].value
  {
    hide PathOf, Linked, LeafOnRoute, TreeOk, Complete, Collides, SplitFrame;
    var leaves' := leaves + [LeafNode(key, value)];
    SplitCollides(views, leaves, at, dict, key, m, leaf);
    SplitReach(views, leaves, at, key, m, leaf, views', at', left, right);
    var dict' := if Collides(dict, key) then dict else dict[key := value];
    forall q, l: nat | Reaches(views', at', q, l) && l < |leaves'|
      ensures leaves'[l].key in dict' && dict'[leaves'[l].key] == leaves'[l].value
    {
      if l < |leaves| {
        var q0 := if q in at then q else PathOf(key, m);
        BoundLeaf(views, leaves, at, dict, q0, l);
      }
    }
  }

  lemma SplitBindsKeys<V>(views: seq<View>, leaves: seq<LeafNode<V>>, at: Tree, dict: map<u64, V>,
                      key: u64, value: V, m: nat, leaf: nat,
                      views': seq<View>, at': Tree, left: nat, right: nat, firstNew: nat)
    requires TreeOk(views, leaves, at) && Complete(views, leaves, at) && Binds(views, leaves, at, dict)
    requires Reaches(views, at, PathOf(key, m), leaf) && leaf < |leaves| && leaves[leaf].key != key
    requires SplitFrame(views, at, PathOf(key, m), views', at', left, right)
    requires views'[left] == LeafAt(leaf) && views'[right] == LeafAt(|leaves|)
    requires Joined(leaves[leaf].key, left, key, right, at, at', firstNew)
    ensures var leaves' := leaves + [LeafNode(key, value)];
            var dict' := if Collides(dict, key) then dict else dict[key := value];
            forall k :: k in dict' ==> exists n: nat, l: nat :: Finds(views', leaves', at', k, n, l)
  {
    hide PathOf, Linked, LeafOnRoute, TreeOk, Complete, Collides, SplitFrame;
    var leaves' := leaves + [LeafNode(key, value)];
    var other := leaves[leaf].key;
    SplitCollides(views, leaves, at, dict, key, m, leaf);
    SplitReach(views, leaves, at, key, m, leaf, views', at', left, right);
    var dict' := if Collides(dict, key) then dict else dict[key := value];
    forall k | k in dict'
      ensures exists n: nat, l: nat :: Finds(views', leaves', at', k, n, l)
    {
      if k == key {
        var n: nat :| PathOf(key, n) in at' && at'[PathOf(key, n)] == right;
        assert Finds(views', leaves', at', key, n, |leaves|);
      } else if k == other {
        var n: nat :| PathOf(other, n) in at' && at'[PathOf(other, n)] == left;
        assert Finds(views', leaves', at', other, n, leaf);
      } else {
        var n: nat, l: nat :| Finds(views, leaves, at, k, n, l);
        assert Finds(views', leaves', at', k, n, l);
      }
    }
  }

  lemma SplitComplete<V>(views: seq<View>, leaves: seq<LeafNode<V>>, at: Tree, dict: map<u64, V>,
                      key: u64, value: V, m: nat, leaf: nat,
                      views': seq<View>, at': Tree, left: nat, right: nat, firstNew: nat)
    requires TreeOk(views, leaves, at) && Complete(views, leaves, at) && Binds(views, leaves, at, dict)
    requires Reaches(views, at, PathOf(key, m), leaf) && leaf < |leaves| && leaves[leaf].key != key
    requires SplitFrame(views, at, PathOf(key, m), views', at', left, right)
    requires views'[left] == LeafAt(leaf) && views'[right] == LeafAt(|leaves|)
    requires Joined(leaves[leaf].key, left, key, right, at, at', firstNew)
    requires !Collides(dict, key)
    ensures Complete(views', leaves + [LeafNode(key, value)], at')
  {
    hide PathOf, Linked, LeafOnRoute, TreeOk, Binds;
    var leaves' := leaves + [LeafNode(key, value)];
    SplitCollides(views, leaves, at, dict, key, m, leaf);
    SplitReach(views, leaves, at, key, m, leaf, views', at', left, right);
    SplitDepth(key, m, leaves[leaf].key, views, leaves, at, leaf);
    forall l | 0 <= l < |leaves'|
      ensures Placed(views', leaves', at', l)
    {
      if l == |leaves| {
        var n: nat :| PathOf(key, n) in at' && at'[PathOf(key, n)] == right;
        assert Reaches(views', at', PathOf(leaves'[l].key, n), l);
      } else if l == leaf {
        var n: nat :| PathOf(leaves[l].key, n) in at' && at'[PathOf(leaves[l].key, n)] == left;
        assert Reaches(views', at', PathOf(leaves'[l].key, n), l);
      } else {
        assert Placed(views, leaves, at, l);
        var n: nat :| Reaches(views, at, PathOf(leaves[l].key, n), l);
        assert Reaches(views', at', PathOf(leaves'[l].key, n), l);
      }
    }
  }

  /** A leaf seven bytes down can only be split by a key of the same route. */
  lemma SplitDepth<V>(key: u64, m: nat, other: u64, views: seq<View>, leaves: seq<LeafNode<V>>, at: Tree, leaf: nat)
    requires TreeOk(views, leaves, at) && Reaches(views, at, PathOf(key, m), leaf)
    requires leaf < |leaves| && leaves[leaf].key == other && PathOf(other, 7) != PathOf(key, 7)
    ensures m < 7
  {
    LeafRoute(views, leaves, at, PathOf(key, m), leaf);
    if m >= 7 {
      PathPrefix(key, 7, m);
      PathPrefix(other, 7, m);
    }
  }

  /** The key whose leaf is split is bound, `key` is not, and only that key can collide. */
  lemma SplitCollides<V>(views: seq<View>, leaves: seq<LeafNode<V>>, at: Tree, dict: map<u64, V>,
                         key: u64, m: nat, leaf: nat)
    requires TreeOk(views, leaves, at) && Complete(views, leaves, at) && Binds(views, leaves, at, dict)
    requires Reaches(views, at, PathOf(key, m), leaf) && leaf < |leaves| && leaves[leaf].key != key
    ensures key !in dict && leaves[leaf].key in dict
    ensures Collides(dict, key) <==> PathOf(leaves[leaf].key, 7) == PathOf(key, 7)
  {
    hide PathOf, Linked, LeafOnRoute, TreeOk, Binds;
    if key in dict {
      LeafDecides(views, leaves, at, dict, key, m, leaf, key);
    }
    BoundLeaf(views, leaves, at, dict, PathOf(key, m), leaf);
    if Collides(dict, key) {
      var k :| k in dict && PathOf(k, 7) == PathOf(key, 7);
      LeafDecides(views, leaves, at, dict, key, m, leaf, k);
    }
  }

  lemma BoundLeaf<V>(views: seq<View>, leaves: seq<LeafNode<V>>, at: Tree, dict: map<u64, V>, q: Path, leaf: nat)
    requires Binds(views, leaves, at, dict) && Reaches(views, at, q, leaf) && leaf < |leaves|
    ensures leaves[leaf].key in dict && dict[leaves[leaf].key] == leaves[leaf].value
  {
  }

  /** Which leaves a split tree reaches: the old ones, the split one from its new
      entry, and the new one from its own. */
  lemma SplitReach<V>(views: seq<View>, leaves: seq<LeafNode<V>>, at: Tree, key: u64, m: nat, leaf: nat,
                      views': seq<View>, at': Tree, left: nat, right: nat)
    requires TreeOk(views, leaves, at)
    requires Reaches(views, at, PathOf(key, m), leaf)
    requires SplitFrame(views, at, PathOf(key, m), views', at', left, right)
    requires views'[left] == LeafAt(leaf) && views'[right] == LeafAt(|leaves|)
    ensures left < |views'| && right < |views'|
    ensures forall q, l: nat :: Reaches(views', at', q, l) && l < |leaves| ==>
              if q in at then Reaches(views, at, q, l) else l == leaf
    ensures forall q :: Reaches(views', at', q, |leaves|) ==> q !in at && at'[q] == right
    ensures forall q, l: nat :: Reaches(views, at, q, l) && l != leaf ==> Reaches(views', at', q, l)
  {
    hide PathOf, Linked;
    assert forall q :: q in at ==> LeafOnRoute(views, leaves, at[q], q);
  }

  /** Hanging the leaf of a new key below a branch that has no child for its radix. */
  lemma HangBinds<V>(views: seq<View>, leaves: seq<LeafNode<V>>, at: Tree, dict: map<u64, V>,
                     key: u64, value: V, m: nat, views': seq<View>, child: nat)
    requires TreeOk(views, leaves, at) && Complete(views, leaves, at) && Binds(views, leaves, at, dict)
    requires PathOf(key, m) in at && at[PathOf(key, m)] < |views| <= |views'| && child < |views'|
    requires var view := views[at[PathOf(key, m)]];
             && view.Inner? && RadixByte(Scatter(key), m + 1) !in view.children
             && views'[at[PathOf(key, m)]] == Inner(view.children[RadixByte(Scatter(key), m + 1) := child])
    requires forall q :: q in at && q != PathOf(key, m) && at[q] < |views| ==> views'[at[q]] == views[at[q]]
    requires views'[child] == LeafAt(|leaves|) && child !in at.Values
    ensures key !in dict && !Collides(dict, key) && m < 7 && PathOf(key, m + 1) !in at
    ensures var leaves' := leaves + [LeafNode(key, value)];
            var at' := at[PathOf(key, m + 1) := child];
            && TreeOk(views', leaves', at') && Complete(views', leaves', at')
            && Binds(views', leaves', at', dict[key := value])
  {
    hide Scatter, RadixByte, PathOf, Linked, LeafOnRoute, TreeOk, Binds;
    var p, r := PathOf(key, m), RadixByte(Scatter(key), m + 1);
    var leaves' := leaves + [LeafNode(key, value)];
    Ids(views, leaves, at, p);
    assert m < 7;
    DeadEndForAll(views, leaves, at, dict, key, m);
    PathSnoc(key, m);
    NewLeafOnRoute(views', leaves', child, PathOf(key, m + 1));
    Graft(views, leaves, at, views', leaves', p, r, child);
    FreeRadix(views, leaves, at, p, r);
    var at' := at[PathOf(key, m + 1) := child];
    LeavesOnRoutes(views, leaves, at);
    HangReach(views, leaves, at, key, m, views', child);
    HangBound(views, leaves, at, dict, key, value, m, views', child);
    forall l | 0 <= l < |leaves'|
      ensures Placed(views', leaves', at', l)
    {
      if l < |leaves| {
        assert Placed(views, leaves, at, l);
        var n: nat :| Reaches(views, at, PathOf(leaves[l].key, n), l);
        assert Reaches(views', at', PathOf(leaves'[l].key, n), l);
      } else {
        assert Reaches(views', at', PathOf(leaves'[l].key, m + 1), l);
      }
    }
  }

  lemma LeavesOnRoutes<V>(views: seq<View>, leaves: seq<LeafNode<V>>, at: Tree)
    requires TreeOk(views, leaves, at)
    ensures forall q :: q in at ==> at[q] < |views| && LeafOnRoute(views, leaves, at[q], q)
  {
  }

  lemma NewLeafOnRoute<V>(views: seq<View>, leaves: seq<LeafNode<V>>, id: nat, q: Path)
    requires id < |views| && |leaves| > 0 && views[id] == LeafAt(|leaves| - 1)
    requires q == PathOf(leaves[|leaves| - 1].key, |q|)
    ensures LeafOnRoute(views, leaves, id, q)
  {
  }

  lemma DeadEndForAll<V>(views: seq<View>, leaves: seq<LeafNode<V>>, at: Tree, dict: map<u64, V>, key: u64, m: nat)
    requires TreeOk(views, leaves, at) && Complete(views, leaves, at) && Binds(views, leaves, at, dict)
    requires PathOf(key, m) in at && at[PathOf(key, m)] < |views|
    requires var view := views[at[PathOf(key, m)]]; view.Inner? && RadixByte(Scatter(key), m + 1) !in view.children
    ensures key !in dict && !Collides(dict, key)
  {
    hide Scatter, RadixByte, PathOf, TreeOk, Binds;
    DeadEnd(views, leaves, at, dict, key, m, key);
    if Collides(dict, key) {
      var k :| k in dict && PathOf(k, 7) == PathOf(key, 7);
      DeadEnd(views, leaves, at, dict, key, m, k);
    }
  }

  lemma HangReach<V>(views: seq<View>, leaves: seq<LeafNode<V>>, at: Tree, key: u64, m: nat, views': seq<View>, child: nat)
    requires PathOf(key, m) in at && PathOf(key, m + 1) !in at
    requires forall q :: q in at ==> at[q] < |views| && LeafOnRoute(views, leaves, at[q], q)
    requires |views| <= |views'| && child < |views'| && views'[child] == LeafAt(|leaves|)
    requires views[at[PathOf(key, m)]].Inner? && views'[at[PathOf(key, m)]].Inner?
    requires forall q :: q in at && q != PathOf(key, m) && at[q] < |views| ==> views'[at[q]] == views[at[q]]
    ensures var at' := at[PathOf(key, m + 1) := child];
            && (forall q, l: nat :: Reaches(views', at', q, l) && l < |leaves| <==> Reaches(views, at, q, l))
            && (forall q :: Reaches(views', at', q, |leaves|) <==> q == PathOf(key, m + 1))
  {
    hide PathOf;
  }

  lemma HangBound<V>(views: seq<View>, leaves: seq<LeafNode<V>>, at: Tree, dict: map<u64, V>,
                     key: u64, value: V, m: nat, views': seq<View>, child: nat)
    requires Binds(views, leaves, at, dict) && key !in dict
    requires var at' := at[PathOf(key, m + 1) := child];
             && (forall q, l: nat :: Reaches(views', at', q, l) && l < |leaves| <==> Reaches(views, at, q, l))
             && (forall q :: Reaches(views', at', q, |leaves|) <==> q == PathOf(key, m + 1))
    ensures Binds(views', leaves + [LeafNode(key, value)], at[PathOf(key, m + 1) := child], dict[key := value])
  {
    hide PathOf, Reaches;
    var leaves', at', dict' := leaves + [LeafNode(key, value)], at[PathOf(key, m + 1) := child], dict[key := value];
    forall k | k in dict'
      ensures exists n: nat, l: nat :: Finds(views', leaves', at', k, n, l)
    {
      if k == key {
        assert Finds(views', leaves', at', key, m + 1, |leaves|);
      } else {
        var n: nat, l: nat :| Finds(views, leaves, at, k, n, l);
        assert Finds(views', leaves', at', k, n, l);
      }
    }
  }

  // ----- compaction: the leaves move, the entries follow -----

  function Moved(view: View, remap: seq<nat>): View {
    if view.LeafAt? && view.leaf < |remap| then LeafAt(remap[view.leaf]) else view
  }

  /** `remap` sends every leaf to its new place, and every place is taken. */
  ghost predicate Relocates<V>(leaves: seq<LeafNode<V>>, leaves': seq<LeafNode<V>>, remap: seq<nat>) {
    && |leaves| == |leaves'| == |remap|
    && (forall l :: 0 <= l < |remap| ==> remap[l] < |leaves'| && leaves'[remap[l]] == leaves[l])
    && (forall n :: 0 <= n < |leaves'| ==> n in remap)
  }

  /** The same leaves in another order. */
  ghost predicate Rearranged<V>(leaves: seq<LeafNode<V>>, leaves': seq<LeafNode<V>>) {
    (exists remap :: Relocates(leaves, leaves', remap)) && (exists order :: Relocates(leaves', leaves, order))
  }

  lemma SameLeaves<V>(leaves: seq<LeafNode<V>>, leaves': seq<LeafNode<V>>, remap: seq<nat>)
    requires Relocates(leaves, leaves', remap)
    ensures forall l :: 0 <= l < |leaves'| ==> leaves'[l] in leaves
    ensures forall l :: 0 <= l < |leaves| ==> leaves[l] in leaves'
  {
    forall n | 0 <= n < |leaves'|
      ensures leaves'[n] in leaves
    {
      assert n in remap;
      var l :| 0 <= l < |remap| && remap[l] == n;
      assert leaves'[n] == leaves[l];
    }
  }

  lemma RelocateTree<V>(views: seq<View>, leaves: seq<LeafNode<V>>, at: Tree, dict: map<u64, V>,
                        views': seq<View>, leaves': seq<LeafNode<V>>, remap: seq<nat>)
    requires TreeOk(views, leaves, at) && Binds(views, leaves, at, dict) && Relocates(leaves, leaves', remap)
    requires |views'| == |views| && forall i :: 0 <= i < |views| ==> views'[i] == Moved(views[i], remap)
    ensures TreeOk(views', leaves', at)
    ensures Binds(views', leaves', at, dict)
    ensures Complete(views, leaves, at) ==> Complete(views', leaves', at)
  {
    hide PathOf, Linked, Complete;
    RelocateShape(views, leaves, at, views', leaves', remap);
    LeavesOnRoutes(views, leaves, at);
    forall q, l': nat | Reaches(views', at, q, l') && l' < |leaves'|
      ensures leaves'[l'].key in dict && dict[leaves'[l'].key] == leaves'[l'].value
    {
      assert LeafOnRoute(views, leaves, at[q], q);
      BoundLeaf(views, leaves, at, dict, q, views[at[q]].leaf);
    }
    forall k | k in dict
      ensures exists n: nat, l: nat :: Finds(views', leaves', at, k, n, l)
    {
      var n: nat, l: nat :| Finds(views, leaves, at, k, n, l);
      assert Finds(views', leaves', at, k, n, remap[l]);
    }
    if Complete(views, leaves, at) {
      RelocateComplete(views, leaves, at, views', leaves', remap);
    }
  }

  lemma RelocateShape<V>(views: seq<View>, leaves: seq<LeafNode<V>>, at: Tree,
                         views': seq<View>, leaves': seq<LeafNode<V>>, remap: seq<nat>)
    requires TreeOk(views, leaves, at) && Relocates(leaves, leaves', remap)
    requires |views'| == |views| && forall i :: 0 <= i < |views| ==> views'[i] == Moved(views[i], remap)
    ensures TreeOk(views', leaves', at)
  {
    hide PathOf, Linked, LeafOnRoute, Relocates;
    forall q | q in at && |q| > 0
      ensures Linked(views', at, q)
    {
      LinkMoved(views, views', at, remap, q);
    }
    forall q | q in at
      ensures LeafOnRoute(views', leaves', at[q], q)
    {
      RouteMoved(views, leaves, views', leaves', remap, at[q], q);
    }
    assert forall q :: q in at && views'[at[q]].Inner? ==> views'[at[q]] == views[at[q]];
  }

  lemma LinkMoved(views: seq<View>, views': seq<View>, at: Tree, remap: seq<nat>, q: Path)
    requires q in at && |q| > 0 && Linked(views, at, q)
    requires |views'| == |views| && forall i :: 0 <= i < |views| ==> views'[i] == Moved(views[i], remap)
    ensures Linked(views', at, q)
  {
  }

  lemma RouteMoved<V>(views: seq<View>, leaves: seq<LeafNode<V>>, views': seq<View>, leaves': seq<LeafNode<V>>,
                      remap: seq<nat>, id: nat, q: Path)
    requires id < |views| == |views'| && LeafOnRoute(views, leaves, id, q) && Relocates(leaves, leaves', remap)
    requires views'[id] == Moved(views[id], remap)
    ensures LeafOnRoute(views', leaves', id, q)
  {
    hide PathOf;
  }

  lemma RelocateComplete<V>(views: seq<View>, leaves: seq<LeafNode<V>>, at: Tree,
                            views': seq<View>, leaves': seq<LeafNode<V>>, remap: seq<nat>)
    requires Complete(views, leaves, at) && Relocates(leaves, leaves', remap)
    requires |views'| == |views| && forall i :: 0 <= i < |views| ==> views'[i] == Moved(views[i], remap)
    ensures Complete(views', leaves', at)
  {
    hide PathOf;
    forall n | 0 <= n < |leaves'|
      ensures Placed(views', leaves', at, n)
    {
      assert n in remap;
      var l :| 0 <= l < |remap| && remap[l] == n;
      assert Placed(views, leaves, at, l);
      var m: nat :| Reaches(views, at, PathOf(leaves[l].key, m), l);
      assert Reaches(views', at, PathOf(leaves'[n].key, m), n);
    }
  }
}
