/** One shard: a radix tree over slabs, its root, and two shortcut arrays that
    skip the root for each first radix. */
module Shards {
  import opened Wrappers
  import opened Scattering
  import opened RadixTree
  import opened Slabs

  /** What the two shortcut arrays must hold for the radix `r`: the leaf, the branch
      below the root, or nothing. */
  ghost predicate ShortcutOk<V>(views: seq<View>, leaves: seq<LeafNode<V>>, root: nat, r: byte, jump: nat, leaf: nat) {
    root < |views| &&
    match views[root]
    case LeafAt(l) =>
      l < |leaves| && jump == EMPTY && leaf == if r == RadixByte(Scatter(leaves[l].key), 1) then l else EMPTY
    case Inner(children) =>
      if r !in children then jump == EMPTY && leaf == EMPTY
      else children[r] < |views| && match views[children[r]]
        case LeafAt(l) => jump == EMPTY && leaf == l
        case Inner(_) => jump == children[r] && leaf == EMPTY
  }

  ghost predicate ShortcutsOk<V>(views: seq<View>, leaves: seq<LeafNode<V>>, root: nat, jump: seq<nat>, leaf: seq<nat>) {
    |jump| == |leaf| == 256 && forall r: byte :: ShortcutOk(views, leaves, root, r, jump[r], leaf[r])
  }

  class Shard<V> {
    const slab: Slab<V>
    const secondJump: array<nat>
    const secondLeaf: array<nat>
    var root: Option<nat>

    /** The reachable entries by route, and the plain map the shard stands for. */
    ghost var at: Tree
    ghost var dict: map<u64, V>

    ghost const Repr: set<object>

    /** What holds at all times, even after a key was lost to a collision. */
    ghost predicate Wf()
      reads this, slab, secondJump, secondLeaf
    {
      && Repr == {this, slab, secondJump, secondLeaf}
      && secondJump != secondLeaf
      && secondJump.Length == secondLeaf.Length == 256
      && slab.Valid()
      && slab.Room(0)
      && match root
         case None =>
           slab.leaves == [] && slab.entries == [] && dict == map[]
         case Some(r) =>
           && [] in at && at[[]] == r
           && TreeOk(slab.Views(), slab.leaves, at)
           && Binds(slab.Views(), slab.leaves, at, dict)
           && ShortcutsOk(slab.Views(), slab.leaves, r, secondJump[..], secondLeaf[..])
    }

    /** No key was lost: every stored leaf can be found. */
    ghost predicate Valid()
      reads this, slab, secondJump, secondLeaf
    {
      Wf() && (root.Some? ==> Complete(slab.Views(), slab.leaves, at) && slab.NoTwinsAnywhere())
    }

    constructor ()
      ensures Valid() && dict == map[] && slab.leaves == []
      ensures fresh(Repr) && Repr == {this, slab, secondJump, secondLeaf}
      ensures slab.Sizes() == [0, 0, 0, 0, 0, 0, 0]
    {
      var s := new Slab<V>();
      var jump := new nat[256](_ => EMPTY);
      var leaf := new nat[256](_ => EMPTY);
      slab, secondJump, secondLeaf := s, jump, leaf;
      Repr := {this, s, jump, leaf};
      root, at, dict := None, map[], map[];
    }

    lemma ValidIsWf()
      requires Valid()
      ensures Wf() && Repr == {this, slab, secondJump, secondLeaf}
    {
    }

    lemma WfOwns()
      requires Wf()
      ensures Repr == {this, slab, secondJump, secondLeaf}
    {
    }

    lemma WfHasRoom()
      requires Wf()
      ensures slab.Room(0)
    {
    }

    /** The stored leaves are exactly the bindings of the shard's map. */
    lemma LeavesAreDict()
      requires Valid()
      ensures forall l :: 0 <= l < |slab.leaves| ==>
                slab.leaves[l].key in dict && dict[slab.leaves[l].key] == slab.leaves[l].value
      ensures forall k :: k in dict ==> exists l :: 0 <= l < |slab.leaves| && slab.leaves[l].key == k
    {
      if root.Some? {
        TreeLeavesAreDict(slab.Views(), slab.leaves, at, dict);
      }
    }

    /** Each binding of the shard's map has a leaf. */
    lemma DictHasLeaves()
      requires Wf()
      ensures forall k :: k in dict ==> exists l :: 0 <= l < |slab.leaves| && slab.leaves[l].key == k
    {
      hide PathOf, TreeOk, ShortcutsOk;
      forall k | k in dict
        ensures exists l :: 0 <= l < |slab.leaves| && slab.leaves[l].key == k
      {
        var n: nat, l: nat :| Finds(slab.Views(), slab.leaves, at, k, n, l);
      }
    }

    method Get(key: u64, scattered: u64) returns (value: Option<V>)
      requires Wf() && scattered == Scatter(key)
      ensures value == if key in dict then Some(dict[key]) else None
    {
      hide Scatter, RadixByte, PathOf, Binds, TreeOk, ShortcutOk, Slab.ViewOf;
      if root == None {
        return None;
      }
      ghost var views := slab.Views();
      var second := RadixByte(scattered, 1);
      var directLeaf := secondLeaf[second];
      ShortcutTells(views, slab.leaves, at, root.value, key, secondJump[second], directLeaf);
      if directLeaf != EMPTY {
        ghost var m: nat :| Reaches(views, at, PathOf(key, m), directLeaf);
        LeafAnswers(views, slab.leaves, at, dict, key, m, directLeaf);
        var leaf := slab.leaves[directLeaf];
        return if leaf.key == key then Some(leaf.value) else None;
      }
      var cached := secondJump[second];
      var id, depth := root.value, 1;
      if cached != EMPTY {
        id, depth := cached, 2;
      }
      while true
        invariant 1 <= depth <= 9
        invariant PathOf(key, depth - 1) in at && at[PathOf(key, depth - 1)] == id
        decreases 9 - depth
      {
        Ids(views, slab.leaves, at, PathOf(key, depth - 1));
        slab.LeafOrBranch(id);
        var entry := slab.entries[id];
        if Kind(entry) == Leaf {
          LeafAnswers(views, slab.leaves, at, dict, key, depth - 1, Index(entry));
          var leaf := slab.leaves[Index(entry)];
          return if leaf.key == key then Some(leaf.value) else None;
        }
        PathSnoc(key, depth - 1);
        var child := slab.FindChild(id, RadixByte(scattered, depth));
        if child == None {
          DeadEnd(views, slab.leaves, at, dict, key, depth - 1, key);
          return None;
        }
        DepthBound(views, slab.leaves, at, PathOf(key, depth));
        id := child.value;
        depth := depth + 1;
      }
    }

    method RebuildSecondJump(top: nat)
      requires slab.Valid() && slab.Room(0) && top < |slab.entries|
      requires secondJump != secondLeaf && secondJump.Length == secondLeaf.Length == 256
      requires slab.Views()[top].Inner?
      requires forall r :: r in slab.Views()[top].children ==> slab.Views()[top].children[r] < |slab.entries|
      modifies secondJump, secondLeaf
      ensures ShortcutsOk(slab.Views(), slab.leaves, top, secondJump[..], secondLeaf[..])
    {
      hide Slab.ViewOf;
      ghost var views := slab.Views();
      forall i | 0 <= i < 256 { secondJump[i] := EMPTY; }
      forall i | 0 <= i < 256 { secondLeaf[i] := EMPTY; }
      for radix := 0 to 256
        invariant forall r: byte :: r < radix ==> ShortcutOk(views, slab.leaves, top, r, secondJump[r], secondLeaf[r])
        invariant forall r: byte :: radix <= r ==> secondJump[r] == EMPTY == secondLeaf[r]
      {
        var found := slab.FindChild(top, radix);
        match found {
          case None =>
          case Some(child) =>
            slab.LeafOrBranch(child);
            var entry := slab.entries[child];
            if Kind(entry) == Leaf {
              secondLeaf[radix] := Index(entry);
            } else {
              secondJump[radix] := child;
            }
        }
      }
    }

    /** Binds `key`. A key that takes the seven-byte route of another bound key is
        lost: the shard answers as before. */
    method Insert(key: u64, scattered: u64, value: V) returns (previous: Option<V>)
      requires Valid() && slab.Room(20) && scattered == Scatter(key)
      modifies Repr
      ensures Wf()
      ensures GrownBy(old(slab.Sizes()), slab.Sizes(), 20)
      ensures LeafStored(old(slab.leaves), slab.leaves, key, value)
      ensures previous == if key in old(dict) then Some(old(dict)[key]) else None
      ensures if Collides(old(dict), key) then dict == old(dict)
              else Valid() && dict == old(dict)[key := value]
    {
      hide Scatter, RadixByte, PathOf, Binds, TreeOk, Complete, ShortcutsOk, Slab.Views, Slab.ViewOf, Slab.NoTwins,
           Slab.Valid, Slab.NoTwinsAnywhere, LeafStored, Collides;
      previous := BindInTree(key, scattered, value);
      RefreshShortcuts(root.value, key, scattered);
    }

    lemma NoRoot()
      requires Wf() && root == None
      ensures slab.Valid() && slab.leaves == [] && slab.entries == [] && dict == map[]
    {
    }

    method PlantRoot(key: u64, value: V)
      requires Valid() && slab.Room(20) && root == None
      modifies this, slab
      ensures slab.Valid() && slab.Room(0) && root.Some?
      ensures [] in at && at[[]] == root.value
      ensures TreeOk(slab.Views(), slab.leaves, at) && Binds(slab.Views(), slab.leaves, at, dict)
      ensures GrownBy(old(slab.Sizes()), slab.Sizes(), 20)
      ensures LeafStored(old(slab.leaves), slab.leaves, key, value)
      ensures !Collides(old(dict), key) && key !in old(dict) && dict == old(dict)[key := value]
      ensures Complete(slab.Views(), slab.leaves, at) && slab.NoTwinsAnywhere()
    {
      hide Scatter, RadixByte, PathOf, Binds, TreeOk, Complete, ShortcutOk, ShortcutsOk, Slab.Views, Slab.ViewOf, Slab.Valid,
           Slab.InRange, Slab.NoTwins, Slab.NoTwinsAnywhere, LeafStored, Collides, Kind, Index, Tagged, TagOf;
      NoRoot();
      hide Shard.Valid, Shard.Wf;
      NothingCollides(dict, key);
      slab.RoomFor(20, 1);
      var id := slab.AllocLeaf(key, value);
      slab.OneLeafMore();
      hide Slab.Sizes, Slab.Room, GrownBy;
      slab.OnlyLeaves();
      assert slab.Views() == [LeafAt(0)];
      FirstLeaf(slab.Views(), slab.leaves, key, value);
      LeafAppended([], key, value);
      root, at, dict := Some(id), map[[] := id], map[key := value];
    }

    /** The part of an insertion that grows the tree. */
    method BindInTree(key: u64, scattered: u64, value: V) returns (previous: Option<V>)
      requires Valid() && slab.Room(20) && scattered == Scatter(key)
      modifies this, slab
      ensures slab.Valid() && slab.Room(0) && root.Some?
      ensures [] in at && at[[]] == root.value
      ensures TreeOk(slab.Views(), slab.leaves, at) && Binds(slab.Views(), slab.leaves, at, dict)
      ensures GrownBy(old(slab.Sizes()), slab.Sizes(), 20)
      ensures LeafStored(old(slab.leaves), slab.leaves, key, value)
      ensures previous == if key in old(dict) then Some(old(dict)[key]) else None
      ensures if Collides(old(dict), key) then dict == old(dict)
              else Complete(slab.Views(), slab.leaves, at) && slab.NoTwinsAnywhere() && dict == old(dict)[key := value]
    {
      hide Scatter, RadixByte, PathOf, Binds, TreeOk, Complete, ShortcutOk, ShortcutsOk, Slab.Views, Slab.ViewOf,
           Slab.NoTwins, Slab.Valid, Slab.NoTwinsAnywhere, LeafStored, Collides;
      match root {
        case None =>
          PlantRoot(key, value);
          previous := None;
        case Some(top) =>
          ghost var grown;
          assert PathOf(key, 0) == [];
          Ids(slab.Views(), slab.leaves, at, []);
          previous, grown := slab.InsertAt(top, 1, key, scattered, value, at, [], dict);
          at := grown;
          if !Collides(dict, key) {
            dict := dict[key := value];
          }
      }
    }

    /** The shortcuts are rebuilt after every insertion. */
    method RefreshShortcuts(top: nat, key: u64, scattered: u64)
      requires slab.Valid() && slab.Room(0) && scattered == Scatter(key)
      requires secondJump != secondLeaf && secondJump.Length == secondLeaf.Length == 256
      requires [] in at && at[[]] == top
      requires TreeOk(slab.Views(), slab.leaves, at) && Binds(slab.Views(), slab.leaves, at, dict)
      requires key in dict || Collides(dict, key)
      modifies secondJump, secondLeaf
      ensures ShortcutsOk(slab.Views(), slab.leaves, top, secondJump[..], secondLeaf[..])
    {
      hide Scatter, RadixByte, PathOf, Binds, TreeOk, Complete, ShortcutOk, Slab.ViewOf, Slab.NoTwins, Collides;
      Ids(slab.Views(), slab.leaves, at, []);
      slab.LeafOrBranch(top);
      if Kind(slab.entries[top]) == Leaf {
        RootLeafRadix(slab.Views(), slab.leaves, at, dict, key, Index(slab.entries[top]));
        PointAtRootLeaf(top, RadixByte(scattered, 1));
      } else {
        RebuildSecondJump(top);
      }
    }

    /** Compaction moves leaves, entries and shortcuts together: the shard answers as before. */
    method CompactLeaves()
      requires Wf()
      modifies Repr
      ensures Wf() && (old(Valid()) ==> Valid()) && dict == old(dict) && slab.Sizes() == old(slab.Sizes())
      ensures Rearranged(old(slab.leaves), slab.leaves)
      ensures forall m, n :: 0 <= m < n < |slab.leaves| ==> KeyLe(slab.leaves[m].key, slab.leaves[n].key)
    {
      hide Scatter, RadixByte, PathOf, Binds, TreeOk, Complete, ShortcutOk, Slab.ViewOf, Slab.NoTwins, Slab.InRange,
           KeyLe, Kind, Index, Relocates;
      ghost var views, leaves := slab.Views(), slab.leaves;
      ghost var remap, order := slab.Compact();
      if root.Some? {
        RelocateTree(views, leaves, at, dict, slab.Views(), slab.leaves, remap);
        Ids(slab.Views(), slab.leaves, at, []);
        slab.LeafOrBranch(root.value);
        if Kind(slab.entries[root.value]) == Leaf {
          var leafId := Index(slab.entries[root.value]);
          PointAtRootLeaf(root.value, RadixByte(Scatter(slab.leaves[leafId].key), 1));
        } else {
          RebuildSecondJump(root.value);
        }
      }
    }

    method PointAtRootLeaf(top: nat, second: byte)
      requires slab.Valid() && top < |slab.entries| && Kind(slab.entries[top]) == Leaf
      requires secondJump != secondLeaf && secondJump.Length == secondLeaf.Length == 256
      requires slab.Views()[top].LeafAt? && slab.Views()[top].leaf < |slab.leaves|
      requires second == RadixByte(Scatter(slab.leaves[slab.Views()[top].leaf].key), 1)
      modifies secondJump, secondLeaf
      ensures ShortcutsOk(slab.Views(), slab.leaves, top, secondJump[..], secondLeaf[..])
    {
      hide Slab.ViewOf, Scatter, RadixByte;
      slab.LeafOrBranch(top);
      forall i | 0 <= i < 256 { secondJump[i] := EMPTY; }
      forall i | 0 <= i < 256 { secondLeaf[i] := EMPTY; }
      secondLeaf[second] := Index(slab.entries[top]);
    }
  }

  lemma TreeLeavesAreDict<V>(views: seq<View>, leaves: seq<LeafNode<V>>, at: Tree, dict: map<u64, V>)
    requires Complete(views, leaves, at) && Binds(views, leaves, at, dict)
    ensures forall l :: 0 <= l < |leaves| ==> leaves[l].key in dict && dict[leaves[l].key] == leaves[l].value
    ensures forall k :: k in dict ==> exists l :: 0 <= l < |leaves| && leaves[l].key == k
  {
    hide PathOf;
    forall l | 0 <= l < |leaves|
      ensures leaves[l].key in dict && dict[leaves[l].key] == leaves[l].value
    {
      assert Placed(views, leaves, at, l);
      var n: nat :| Reaches(views, at, PathOf(leaves[l].key, n), l);
    }
    forall k | k in dict
      ensures exists l :: 0 <= l < |leaves| && leaves[l].key == k
    {
      var n: nat, l: nat :| Finds(views, leaves, at, k, n, l);
    }
  }

  lemma NothingCollides<V>(dict: map<u64, V>, key: u64)
    requires dict == map[]
    ensures !Collides(dict, key)
  {
  }

  /** A shard with one leaf. */
  lemma FirstLeaf<V>(views: seq<View>, leaves: seq<LeafNode<V>>, key: u64, value: V)
    requires views == [LeafAt(0)] && leaves == [LeafNode(key, value)]
    ensures TreeOk(views, leaves, map[[] := 0])
    ensures Complete(views, leaves, map[[] := 0])
    ensures Binds(views, leaves, map[[] := 0], map[key := value])
  {
    assert PathOf(key, 0) == [];
    assert Finds(views, leaves, map[[] := 0], key, 0, 0);
    assert Reaches(views, map[[] := 0], PathOf(key, 0), 0);
  }

  /** A root that is a leaf starts with the radix of every key that was just bound
      or lost to it. */
  lemma RootLeafRadix<V>(views: seq<View>, leaves: seq<LeafNode<V>>, at: Tree, dict: map<u64, V>, key: u64, leaf: nat)
    requires TreeOk(views, leaves, at) && Binds(views, leaves, at, dict)
    requires Reaches(views, at, [], leaf) && (key in dict || Collides(dict, key))
    ensures leaf < |leaves| && RadixByte(Scatter(leaves[leaf].key), 1) == RadixByte(Scatter(key), 1)
  {
    hide Scatter, RadixByte, TreeOk, Binds;
    var k :| k in dict && PathOf(k, 7) == PathOf(key, 7);
    assert PathOf(k, 0) == [];
    LeafDecides(views, leaves, at, dict, k, 0, leaf, k);
    assert PathOf(k, 7)[0] == PathOf(key, 7)[0];
  }

  lemma DepthBound<V>(views: seq<View>, leaves: seq<LeafNode<V>>, at: Tree, p: Path)
    requires TreeOk(views, leaves, at) && p in at
    ensures |p| <= 8
  {
  }

  /** A leaf on `key`'s route settles the lookup either way. */
  lemma LeafAnswers<V>(views: seq<View>, leaves: seq<LeafNode<V>>, at: Tree, dict: map<u64, V>, key: u64, m: nat, leaf: nat)
    requires TreeOk(views, leaves, at) && Binds(views, leaves, at, dict) && Reaches(views, at, PathOf(key, m), leaf)
    ensures leaf < |leaves|
    ensures if leaves[leaf].key == key then key in dict && dict[key] == leaves[leaf].value else key !in dict
  {
    hide Scatter, RadixByte, PathOf, TreeOk, Binds;
    LeafRoute(views, leaves, at, PathOf(key, m), leaf);
    if key in dict {
      LeafDecides(views, leaves, at, dict, key, m, leaf, key);
    }
    BoundLeaf(views, leaves, at, dict, PathOf(key, m), leaf);
  }

  /** The shortcuts lead to where the route of `key` starts, or to its leaf. */
  lemma ShortcutTells<V>(views: seq<View>, leaves: seq<LeafNode<V>>, at: Tree, root: nat, key: u64, jump: nat, leaf: nat)
    requires TreeOk(views, leaves, at) && [] in at && at[[]] == root
    requires ShortcutOk(views, leaves, root, RadixByte(Scatter(key), 1), jump, leaf)
    ensures PathOf(key, 0) == []
    ensures leaf != EMPTY ==> exists m: nat :: Reaches(views, at, PathOf(key, m), leaf)
    ensures leaf == EMPTY && jump != EMPTY ==> PathOf(key, 1) in at && at[PathOf(key, 1)] == jump
  {
    hide Scatter, RadixByte, TreeOk;
    PathSnoc(key, 0);
    Ids(views, leaves, at, []);
    assert PathOf(key, 0) == [];
    if leaf != EMPTY {
      assert Reaches(views, at, PathOf(key, if views[root].LeafAt? then 0 else 1), leaf);
    }
  }
}
