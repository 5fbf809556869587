/** The D-HARHT table: up to 256 shards selected by the top bits of the scattered
    key, and a front directory built by sealing. */
module DHarhts {
  import opened Wrappers
  import opened Scattering
  import opened RadixTree
  import opened Slabs
  import opened FrontDirectories
  import opened Shards

  /** The objects of one shard. */
  ghost function Parts<V>(s: Shard<V>): set<object> {
    {s, s.slab, s.secondJump, s.secondLeaf}
  }

  /** Another bound key of the same shard takes the seven-byte route of `key`. */
  ghost predicate Clashes<V>(contents: map<u64, V>, shards: nat, key: u64)
    requires ShardCountOk(shards)
  {
    key !in contents && exists k :: k in contents && SameShardAndRoute(k, key, shards)
  }

  ghost predicate SameShardAndRoute(a: u64, b: u64, shards: nat)
    requires ShardCountOk(shards)
  {
    ShardOf(Scatter(a), shards) == ShardOf(Scatter(b), shards) && PathOf(a, 7) == PathOf(b, 7)
  }

  /** With 256 shards no two keys clash. */
  lemma FullTableNeverClashes<V>(contents: map<u64, V>, key: u64)
    ensures !Clashes(contents, 256, key)
  {
    if Clashes(contents, 256, key) {
      var k :| k in contents && SameShardAndRoute(k, key, 256);
      FullShardsSeparate(k, key);
    }
  }

  lemma NothingStored<V>(table: Table<V>, dicts: seq<map<u64, V>>)
    requires ShardCountOk(|table|) && |dicts| == |table|
    requires forall i :: 0 <= i < |table| ==> table[i] == [] && dicts[i] == map[]
    ensures AtHome(table) && Honest(table, map[]) && Collects(dicts, map[])
  {
  }

  method MakeShards<V>(n: nat) returns (made: seq<Shard<V>>, ghost repr: set<object>)
    ensures |made| == n && fresh(repr)
    ensures forall j :: 0 <= j < n ==> Parts(made[j]) <= repr && made[j].Valid() && made[j].Wf() && made[j].dict == map[]
    ensures forall j :: 0 <= j < n ==> made[j].slab.leaves == [] && made[j].slab.Sizes() == [0, 0, 0, 0, 0, 0, 0]
    ensures forall j, k :: 0 <= j < k < n ==> Parts(made[j]) !! Parts(made[k])
  {
    hide Shard.Valid, Shard.Wf, Slab.Sizes;
    made, repr := [], {};
    for i := 0 to n
      invariant |made| == i && fresh(repr)
      invariant forall j :: 0 <= j < i ==> Parts(made[j]) <= repr && made[j].Valid() && made[j].Wf() && made[j].dict == map[]
      invariant forall j :: 0 <= j < i ==> made[j].slab.leaves == [] && made[j].slab.Sizes() == [0, 0, 0, 0, 0, 0, 0]
      invariant forall j, k :: 0 <= j < k < i ==> Parts(made[j]) !! Parts(made[k])
    {
      var shard := new Shard<V>();
      shard.ValidIsWf();
      made := made + [shard];
      repr := repr + Parts(shard);
    }
  }

  class DHarht<V> {
    const shards: seq<Shard<V>>
    var frontDir: FrontDirectory
    var micro4: seq<MicroBucket>
    var micro8: seq<MicroBucket>
    var micro16: seq<MicroBucket>
    var frontBits: nat
    var profile: LookupProfile
    var isSealed: bool

    /** The plain map the table stands for. */
    ghost var contents: map<u64, V>

    ghost const Repr: set<object>

    ghost predicate Owned() {
      && ShardCountOk(|shards|)
      && (forall i :: 0 <= i < |shards| ==> Parts(shards[i]) <= Repr)
      && (forall i, j :: 0 <= i < j < |shards| ==> Parts(shards[i]) !! Parts(shards[j]))
      && this !in Repr
    }

    function LeafTable(): (table: Table<V>)
      requires Owned()
      reads Repr
      ensures |table| == |shards|
      ensures forall i :: 0 <= i < |shards| ==> shards[i] in Repr && shards[i].slab in Repr && table[i] == shards[i].slab.leaves
    {
      seq(|shards|, i requires 0 <= i < |shards| && Owned() reads Repr => assert Parts(shards[i]) <= Repr; shards[i].slab.leaves)
    }

    ghost predicate ShardsWf()
      requires Owned()
      reads Repr
    {
      forall i :: 0 <= i < |shards| ==> Parts(shards[i]) <= Repr && shards[i].Wf()
    }

    ghost predicate ShardsValid()
      requires Owned()
      reads Repr
    {
      forall i :: 0 <= i < |shards| ==> Parts(shards[i]) <= Repr && shards[i].Valid()
    }

    /** The plain maps of the shards. */
    ghost function Dicts(): (dicts: seq<map<u64, V>>)
      requires Owned()
      reads Repr
      ensures |dicts| == |shards|
      ensures forall i :: 0 <= i < |shards| ==> shards[i] in Repr && dicts[i] == shards[i].dict
    {
      seq(|shards|, i requires 0 <= i < |shards| && Owned() reads Repr => assert Parts(shards[i]) <= Repr; shards[i].dict)
    }

    ghost predicate Wf()
      reads this, Repr
    {
      && Owned() && ShardsWf() && Collects(Dicts(), contents)
      && AtHome(LeafTable()) && Honest(LeafTable(), contents)
      && frontBits == FrontBits(profile)
      && (isSealed ==> SealedOk(LeafTable(), frontBits, frontDir, micro4, micro8, micro16))
    }

    /** No key was lost. */
    ghost predicate Valid()
      reads this, Repr
    {
      Wf() && ShardsValid()
    }

    /** Does the sealed table answer a key that its map has lost? */
    ghost predicate Recalls(key: u64)
      requires Wf()
      reads this, Repr
    {
      isSealed && Lost(LeafTable(), contents, key) && !Crowded(LeafTable(), frontBits, key)
    }

    constructor (n: nat)
      requires ShardCountOk(n)
      ensures Owned() && Valid() && fresh(Repr) && contents == map[] && |shards| == n && !isSealed
      ensures forall i :: 0 <= i < n ==> shards[i].slab.Sizes() == [0, 0, 0, 0, 0, 0, 0]
    {
      hide Shard.Valid, Shard.Wf, Scatter, ShardOf, AtHome, Honest, Collects, Slab.Sizes, SealedOk;
      var made, repr := MakeShards<V>(n);
      shards, Repr := made, repr;
      frontDir, micro4, micro8, micro16 := EmptyDirectory, [], [], [];
      frontBits, profile, isSealed := 20, Balanced, false;
      contents := map[];
      new;
      NothingStored(LeafTable(), Dicts());
    }

    method SetLookupProfile(chosen: LookupProfile)
      requires Wf()
      modifies this
      ensures Wf() && contents == old(contents) && (old(Valid()) ==> Valid())
      ensures profile == chosen && frontBits == FrontBits(chosen) && !isSealed
    {
      hide ShardsWf, ShardsValid, Collects, AtHome, Honest, SealedOk;
      profile := chosen;
      frontBits := FrontBits(chosen);
      isSealed := false;
    }

    /** Each leaf of a table without lost keys is a binding, and each binding is a leaf. */
    lemma LeavesAreContents()
      requires Owned() && ShardsValid() && Collects(Dicts(), contents)
      ensures TableBinds(LeafTable(), contents)
    {
      hide Shard.Valid, Shard.Wf, Scatter, ShardOf;
      var table: Table<V> := LeafTable();
      forall s: nat, l: nat | s < |table| && l < |table[s]|
        ensures table[s][l].key in contents && contents[table[s][l].key] == table[s][l].value
      {
        shards[s].LeavesAreDict();
      }
      forall k | k in contents
        ensures Stored(table, k)
      {
        var s := ShardOf(Scatter(k), |shards|);
        shards[s].LeavesAreDict();
        var l :| 0 <= l < |shards[s].slab.leaves| && shards[s].slab.leaves[l].key == k;
        assert LeafOf(table, s, l, k);
      }
    }

    lemma LeavesAreHonest()
      requires Owned() && ShardsValid() && Collects(Dicts(), contents)
      ensures Honest(LeafTable(), contents)
    {
      hide ShardsValid, Collects;
      LeavesAreContents();
    }

    lemma ContentsHaveLeaves()
      requires Owned() && ShardsWf() && Collects(Dicts(), contents)
      ensures forall k :: k in contents ==> Stored(LeafTable(), k)
    {
      hide Shard.Valid, Shard.Wf, Scatter, ShardOf;
      forall k | k in contents
        ensures Stored(LeafTable(), k)
      {
        var s := ShardOf(Scatter(k), |shards|);
        shards[s].DictHasLeaves();
        var l :| 0 <= l < |shards[s].slab.leaves| && shards[s].slab.leaves[l].key == k;
        assert LeafOf(LeafTable(), s, l, k);
      }
    }

    /** A table without lost keys recalls none. */
    lemma NothingToRecall(key: u64)
      requires Valid()
      ensures !Recalls(key)
    {
      hide Scatter, ShardsWf, Collects, AtHome, Honest, SealedOk, Crowded;
      LeavesAreContents();
    }

    /** What the table answers, sealed or not: its plain map, but for lost keys that a sealed
        table still has a leaf of. */
    method Get(key: u64) returns (value: Option<V>)
      requires Wf()
      ensures key in contents ==> value == Some(contents[key])
      ensures key !in contents ==> (value.Some? <==> Recalls(key))
      ensures value.Some? ==> Tells(LeafTable(), key, value)
    {
      hide Scatter, ShardOf, FrontPrefix, WordOk, BucketOk, Pow2, AtHome, Shard.Valid, Shard.Wf, Stored, Crowded,
           Tells, Honest;
      var scattered := Scatter(key);
      ContentsHaveLeaves();
      if isSealed {
        PrefixBound(scattered, frontBits);
        var front := DirectoryGet(frontDir, FrontPrefix(scattered, frontBits), Pow2(frontBits));
        WordAnswers(LeafTable(), frontBits, key, Unpack(front), micro4, micro8, micro16);
        match Unpack(front) {
          case Single(shardId, leafId) =>
            var leaf := shards[shardId].slab.leaves[leafId];
            value := if leaf.key == key then Some(leaf.value) else None;
            TellsContents(LeafTable(), contents, key, value);
            return;
          case Micro4(bucket) =>
            value := BucketGet(micro4[bucket], key);
            TellsContents(LeafTable(), contents, key, value);
            return;
          case Micro8(bucket) =>
            value := BucketGet(micro8[bucket], key);
            TellsContents(LeafTable(), contents, key, value);
            return;
          case Micro16(bucket) =>
            value := BucketGet(micro16[bucket], key);
            TellsContents(LeafTable(), contents, key, value);
            return;
          case NoWord =>
        }
      }
      var shardId := ShardOf(scattered, |shards|);
      CollectsInHand(Dicts(), contents, key);
      value := shards[shardId].Get(key, scattered);
      if value.Some? {
        HonestTells(LeafTable(), contents, key);
      }
    }

    method Insert(key: u64, value: V) returns (previous: Option<V>)
      requires Valid() && shards[ShardOf(Scatter(key), |shards|)].slab.Room(20)
      modifies this, Repr
      ensures Wf() && !isSealed
      ensures previous == if key in old(contents) then Some(old(contents)[key]) else None
      ensures if Clashes(old(contents), |shards|, key) then contents == old(contents)
              else Valid() && contents == old(contents)[key := value]
      ensures forall i :: 0 <= i < |shards| ==> GrownBy(old(shards[i].slab.Sizes()), shards[i].slab.Sizes(), 20)
      ensures StoredIn(old(LeafTable()), LeafTable(), key, value)
    {
      hide Scatter, ShardOf, Shard.Valid, Shard.Wf, AtHome, SealedOk, Collides, Clashes, Collects, LeafStored, PathOf,
           Slab.Sizes, GrownBy, Slab.Room, ShardsWf, ShardsValid, Honest, StoredIn;
      var scattered := Scatter(key);
      var shardId := ShardOf(scattered, |shards|);
      PartsOwned(shardId);
      hide Owned, Parts;
      ghost var table, dicts, bound := LeafTable(), Dicts(), contents;
      CollectsInHand(dicts, bound, key);
      isSealed := false;
      contents := ContentsAfter(bound, |shards|, key, value);
      previous := InsertInShard(shardId, key, scattered, value);
      InsertCollected(table, LeafTable(), dicts, Dicts(), bound, key, value);
      if !Clashes(bound, |shards|, key) {
        LeavesAreHonest();
      }
    }

    lemma PartsOwned(shardId: nat)
      requires Owned() && shardId < |shards|
      ensures Parts(shards[shardId]) <= Repr && this !in Repr && ShardCountOk(|shards|)
    {
    }

    /** One shard changes, the others keep their state. */
    method InsertInShard(shardId: nat, key: u64, scattered: u64, value: V) returns (previous: Option<V>)
      requires Owned() && ShardsValid() && shardId < |shards| && shards[shardId].slab.Room(20)
      requires scattered == Scatter(key)
      modifies Parts(shards[shardId])
      ensures Owned() && ShardsWf() && |LeafTable()[shardId]| <= INDEX_LIMIT
      ensures previous == Lookup(old(Dicts()[shardId]), key)
      ensures if Collides(old(Dicts()[shardId]), key) then Dicts()[shardId] == old(Dicts()[shardId])
              else ShardsValid() && Dicts()[shardId] == old(Dicts()[shardId])[key := value]
      ensures Dicts() == old(Dicts())[shardId := Dicts()[shardId]]
      ensures LeafStored(old(LeafTable()[shardId]), LeafTable()[shardId], key, value)
      ensures LeafTable() == old(LeafTable())[shardId := LeafTable()[shardId]]
      ensures forall i :: 0 <= i < |shards| ==> GrownBy(old(shards[i].slab.Sizes()), shards[i].slab.Sizes(), 20)
    {
      hide Scatter, Shard.Valid, Shard.Wf, Collides, LeafStored, PathOf;
      forall i | 0 <= i < |shards|
        ensures shards[i].Wf() && shards[i].Repr == Parts(shards[i])
        ensures i != shardId ==> Parts(shards[i]) !! Parts(shards[shardId])
      {
        shards[i].ValidIsWf();
      }
      previous := shards[shardId].Insert(key, scattered, value);
      shards[shardId].WfHasRoom();
    }

    /** Sealing compacts every shard and builds the directory. No answer changes, but that a
        lost key is found again when at most sixteen leaves share its prefix. */
    method SealForLookup()
      requires Wf()
      modifies this, Repr
      ensures Wf() && (old(Valid()) ==> Valid()) && isSealed && contents == old(contents) && profile == old(profile)
      ensures forall i :: 0 <= i < |shards| ==> shards[i].slab.Sizes() == old(shards[i].slab.Sizes())
      ensures forall i :: 0 <= i < |shards| ==> SortedLeaves(LeafTable()[i])
      ensures forall key :: Recalls(key) <==>
                old(Lost(LeafTable(), contents, key)) && !old(Crowded(LeafTable(), FrontBits(profile), key))
    {
      hide DHarht.Wf, DHarht.Recalls, Slab.Sizes, SortedLeaves, SameStock, Lost, Crowded;
      WfOwned();
      ghost var table := LeafTable();
      CompactLeafStorage();
      BuildDirectory();
      SealRecalls(table);
    }

    lemma WfOwned()
      requires Wf()
      ensures Owned()
    {
    }

    method BuildDirectory()
      requires Wf()
      modifies `frontDir, `micro4, `micro8, `micro16, `isSealed
      ensures Wf() && isSealed
    {
      hide Scatter, ShardOf, Shard.Valid, Shard.Wf, AtHome, Collects, SealedOk, Pow2, WordOk, Honest;
      frontDir, micro4, micro8, micro16 := BuildFrontDirectory(profile, LeafTable());
      isSealed := true;
    }

    lemma SealRecalls(table: Table<V>)
      requires Wf() && isSealed && SameStock(table, LeafTable())
      ensures forall key :: Recalls(key) <==> Lost(table, contents, key) && !Crowded(table, FrontBits(profile), key)
    {
      hide ShardsWf, AtHome, Collects, SealedOk, Honest, SameStock, Lost, Crowded;
      SameStockRecalled(table, LeafTable(), contents, frontBits);
    }

    method CompactLeafStorage()
      requires Wf()
      modifies this, Repr
      ensures Wf() && (old(Valid()) ==> Valid()) && contents == old(contents) && profile == old(profile) && !isSealed
      ensures forall i :: 0 <= i < |shards| ==> shards[i].slab.Sizes() == old(shards[i].slab.Sizes())
      ensures forall i :: 0 <= i < |shards| ==> SortedLeaves(LeafTable()[i])
      ensures SameStock(old(LeafTable()), LeafTable())
    {
      hide Scatter, ShardOf, Shard.Valid, Shard.Wf, AtHome, Collects, SealedOk, Slab.Sizes, SortedLeaves, Honest,
           Stored, LeavesOf;
      isSealed := false;
      for i := 0 to |shards|
        invariant Owned() && ShardsWf() && Dicts() == old(Dicts())
        invariant old(ShardsValid()) ==> ShardsValid()
        invariant AtHome(LeafTable()) && Honest(LeafTable(), contents) && SameStock(old(LeafTable()), LeafTable())
        invariant forall j :: 0 <= j < |shards| ==> shards[j].slab.Sizes() == old(shards[j].slab.Sizes())
        invariant forall j :: 0 <= j < i ==> SortedLeaves(LeafTable()[j])
        invariant frontBits == FrontBits(profile) && contents == old(contents) && profile == old(profile) && !isSealed
      {
        ghost var table := LeafTable();
        CompactShard(i);
        MovedAtHome(table, LeafTable(), i);
        MovedHonest(table, LeafTable(), contents, i);
        MovedStock(table, LeafTable(), i);
      }
    }

    method CompactShard(shardId: nat)
      requires Owned() && ShardsWf() && shardId < |shards|
      modifies Parts(shards[shardId])
      ensures Owned() && ShardsWf() && (old(ShardsValid()) ==> ShardsValid()) && Dicts() == old(Dicts())
      ensures forall i :: 0 <= i < |shards| ==> shards[i].slab.Sizes() == old(shards[i].slab.Sizes())
      ensures SortedLeaves(LeafTable()[shardId]) && Rearranged(old(LeafTable()[shardId]), LeafTable()[shardId])
      ensures forall i :: 0 <= i < |shards| && i != shardId ==> LeafTable()[i] == old(LeafTable()[i])
    {
      hide Scatter, Shard.Valid, Shard.Wf, Rearranged;
      forall i | 0 <= i < |shards|
        ensures shards[i].Repr == Parts(shards[i])
        ensures i != shardId ==> Parts(shards[i]) !! Parts(shards[shardId])
      {
        shards[i].WfOwns();
      }
      shards[shardId].CompactLeaves();
    }

    method BucketGet(b: MicroBucket, key: u64) returns (value: Option<V>)
      requires Owned() && b.count <= |b.keys| == |b.leafIds| && b.shardId < |shards|
      requires forall slot :: 0 <= slot < b.count ==> b.leafIds[slot] < |LeafTable()[b.shardId]|
      ensures value == BucketAnswer(LeafTable(), b, key)
    {
      var slot := FirstAt(b.keys[..b.count], key);
      if slot < b.count {
        return Some(shards[b.shardId].slab.leaves[b.leafIds[slot]].value);
      }
      return None;
    }
  }

  ghost predicate SortedLeaves<V>(leaves: seq<LeafNode<V>>) {
    forall m, n :: 0 <= m < n < |leaves| ==> KeyLe(leaves[m].key, leaves[n].key)
  }

  lemma MovedAtHome<V>(table: Table<V>, table': Table<V>, s: nat)
    requires AtHome(table) && s < |table| == |table'| && Rearranged(table[s], table'[s])
    requires forall i :: 0 <= i < |table| && i != s ==> table'[i] == table[i]
    ensures AtHome(table')
  {
    hide Scatter, ShardOf, Relocates;
    RearrangedIn(table[s], table'[s]);
  }

  lemma MovedHonest<V>(table: Table<V>, table': Table<V>, contents: map<u64, V>, s: nat)
    requires Honest(table, contents) && s < |table| == |table'| && Rearranged(table[s], table'[s])
    requires forall i :: 0 <= i < |table| && i != s ==> table'[i] == table[i]
    ensures Honest(table', contents)
  {
    hide Relocates;
    RearrangedIn(table[s], table'[s]);
  }

  lemma RearrangedIn<V>(leaves: seq<LeafNode<V>>, leaves': seq<LeafNode<V>>)
    requires Rearranged(leaves, leaves')
    ensures |leaves'| == |leaves|
    ensures forall l :: 0 <= l < |leaves'| ==> leaves'[l] in leaves
    ensures forall l :: 0 <= l < |leaves| ==> leaves[l] in leaves'
  {
    var remap :| Relocates(leaves, leaves', remap);
    SameLeaves(leaves, leaves', remap);
  }

  /** The same keys are stored, and as many leaves under each prefix. */
  ghost predicate SameStock<V>(table: Table<V>, table': Table<V>) {
    && (forall key :: Stored(table', key) <==> Stored(table, key))
    && (forall p: nat, bits: nat | bits <= 64 :: |LeavesOf(table', p, bits)| == |LeavesOf(table, p, bits)|)
  }

  lemma SameStockRecalled<V>(table: Table<V>, table': Table<V>, contents: map<u64, V>, bits: nat)
    requires bits <= 64 && SameStock(table, table')
    ensures forall key :: Lost(table', contents, key) && !Crowded(table', bits, key) <==>
              Lost(table, contents, key) && !Crowded(table, bits, key)
  {
    hide FrontPrefix, Scatter, Stored, LeavesOf;
  }

  lemma MovedStock<V>(table: Table<V>, table': Table<V>, s: nat)
    requires s < |table| == |table'| && Rearranged(table[s], table'[s])
    requires forall i :: 0 <= i < |table| && i != s ==> table'[i] == table[i]
    ensures SameStock(table, table')
  {
    hide Relocates, LeavesOf, Stored;
    var remap :| Relocates(table[s], table'[s], remap);
    var order :| Relocates(table'[s], table[s], order);
    forall key ensures Stored(table', key) <==> Stored(table, key) {
      StillStored(table, table', s, remap, key);
      StillStored(table', table, s, order, key);
    }
    forall p: nat, bits: nat | bits <= 64 ensures |LeavesOf(table', p, bits)| == |LeavesOf(table, p, bits)| {
      NoMoreLeaves(table, table', s, remap, p, bits);
      NoMoreLeaves(table', table, s, order, p, bits);
    }
  }

  lemma StillStored<V>(table: Table<V>, table': Table<V>, s: nat, remap: seq<nat>, key: u64)
    requires s < |table| == |table'| && Relocates(table[s], table'[s], remap)
    requires forall i :: 0 <= i < |table| && i != s ==> table'[i] == table[i]
    ensures Stored(table, key) ==> Stored(table', key)
  {
    if Stored(table, key) {
      var s0: nat, l: nat :| LeafOf(table, s0, l, key);
      assert LeafOf(table', s0, if s0 == s then remap[l] else l, key);
    }
  }

  lemma NoMoreLeaves<V>(table: Table<V>, table': Table<V>, s: nat, remap: seq<nat>, p: nat, bits: nat)
    requires s < |table| == |table'| && Relocates(table[s], table'[s], remap) && bits <= 64
    requires forall i :: 0 <= i < |table| && i != s ==> table'[i] == table[i]
    ensures |LeavesOf(table', p, bits)| <= |LeavesOf(table, p, bits)|
  {
    hide FrontPrefix, Scatter;
    var move := (x: (nat, nat)) => if x.0 == s && x.1 < |remap| then (s, remap[x.1]) else x;
    forall y | y in LeavesOf(table', p, bits)
      ensures exists x :: x in LeavesOf(table, p, bits) && move(x) == y
    {
      if y.0 == s {
        assert y.1 in remap;
        var l :| 0 <= l < |remap| && remap[l] == y.1;
        assert LeafHasPrefix(table, s, l, p, bits);
        assert (s, l) in LeavesOf(table, p, bits) && move((s, l)) == y;
      } else {
        assert LeafHasPrefix(table, y.0, y.1, p, bits);
        assert y in LeavesOf(table, p, bits) && move(y) == y;
      }
    }
    ImageSize(LeavesOf(table, p, bits), LeavesOf(table', p, bits), move);
  }

  lemma {:induction false} ImageSize<X>(from: set<X>, to: set<X>, f: X -> X)
    requires forall y :: y in to ==> exists x :: x in from && f(x) == y
    ensures |to| <= |from|
    decreases from
  {
    if to != {} {
      var y :| y in to;
      var x :| x in from && f(x) == y;
      ImageSize(from - {x}, to - {y}, f);
    }
  }

  /** The table's map is the union of the shards' maps, each key in its own shard. */
  ghost predicate Collects<V>(dicts: seq<map<u64, V>>, contents: map<u64, V>) {
    && ShardCountOk(|dicts|)
    && (forall k :: k in contents ==>
          k in dicts[ShardOf(Scatter(k), |dicts|)] && dicts[ShardOf(Scatter(k), |dicts|)][k] == contents[k])
    && (forall i, k :: 0 <= i < |dicts| && k in dicts[i] ==>
          ShardOf(Scatter(k), |dicts|) == i && k in contents && contents[k] == dicts[i][k])
  }

  lemma CollidesIsClashes<V>(dicts: seq<map<u64, V>>, contents: map<u64, V>, key: u64)
    requires Collects(dicts, contents)
    ensures Collides(dicts[ShardOf(Scatter(key), |dicts|)], key) <==> Clashes(contents, |dicts|, key)
    ensures Clashes(contents, |dicts|, key) ==> key !in contents
  {
    hide Scatter, ShardOf, PathOf;
    var dict := dicts[ShardOf(Scatter(key), |dicts|)];
    if Collides(dict, key) {
      var k :| k in dict && PathOf(k, 7) == PathOf(key, 7);
      assert SameShardAndRoute(k, key, |dicts|);
    }
    if Clashes(contents, |dicts|, key) {
      var k :| k in contents && SameShardAndRoute(k, key, |dicts|);
      assert k in dict && PathOf(k, 7) == PathOf(key, 7);
    }
  }

  lemma CollectsInHand<V>(dicts: seq<map<u64, V>>, contents: map<u64, V>, key: u64)
    requires Collects(dicts, contents)
    ensures var dict := dicts[ShardOf(Scatter(key), |dicts|)];
            (key in dict <==> key in contents) && (key in dict ==> dict[key] == contents[key])
  {
    hide Scatter, ShardOf;
  }

  lemma CollectsOneMore<V>(dicts: seq<map<u64, V>>, contents: map<u64, V>, dicts': seq<map<u64, V>>, key: u64, value: V)
    requires Collects(dicts, contents) && |dicts'| == |dicts|
    requires forall i :: 0 <= i < |dicts| && i != ShardOf(Scatter(key), |dicts|) ==> dicts'[i] == dicts[i]
    requires dicts'[ShardOf(Scatter(key), |dicts|)] == dicts[ShardOf(Scatter(key), |dicts|)][key := value]
    ensures Collects(dicts', contents[key := value])
  {
    hide Scatter, ShardOf;
  }

  /** One leaf is written, in the shard of its key. */
  ghost predicate StoredIn<V>(table: Table<V>, table': Table<V>, key: u64, value: V) {
    && ShardCountOk(|table|) && |table'| == |table|
    && var s := ShardOf(Scatter(key), |table|);
    && LeafStored(table[s], table'[s], key, value)
    && (forall i :: 0 <= i < |table| && i != s ==> table'[i] == table[i])
  }

  /** What an insertion leaves the table's map as. */
  ghost function ContentsAfter<V>(contents: map<u64, V>, shards: nat, key: u64, value: V): map<u64, V>
    requires ShardCountOk(shards)
  {
    if Clashes(contents, shards, key) then contents else contents[key := value]
  }

  lemma InsertCollected<V>(table: Table<V>, table': Table<V>, dicts: seq<map<u64, V>>, dicts': seq<map<u64, V>>,
                           contents: map<u64, V>, key: u64, value: V)
    requires AtHome(table) && Honest(table, contents) && Collects(dicts, contents) && |dicts| == |table| == |table'| == |dicts'|
    requires var s := ShardOf(Scatter(key), |table|);
             && LeafStored(table[s], table'[s], key, value) && table' == table[s := table'[s]] && |table'[s]| <= INDEX_LIMIT
             && dicts' == dicts[s := dicts'[s]]
             && dicts'[s] == if Collides(dicts[s], key) then dicts[s] else dicts[s][key := value]
    ensures StoredIn(table, table', key, value) && AtHome(table')
    ensures Collects(dicts', ContentsAfter(contents, |table|, key, value))
    ensures Collides(dicts[ShardOf(Scatter(key), |table|)], key) <==> Clashes(contents, |table|, key)
    ensures Clashes(contents, |table|, key) ==> Honest(table', contents)
  {
    assert ShardCountOk(|table|);
    hide Scatter, ShardOf, LeafStored, Collides, Clashes, AtHome, Honest, Collects, StoredIn;
    CollidesIsClashes(dicts, contents, key);
    OneShardStored(table, table', key, value);
    StoredAtHome(table, table', key, value);
    if Clashes(contents, |table|, key) {
      assert dicts' == dicts;
      StoredHonest(table, table', contents, key, value);
    } else {
      CollectsOneMore(dicts, contents, dicts', key, value);
    }
  }

  lemma OneShardStored<V>(table: Table<V>, table': Table<V>, key: u64, value: V)
    requires ShardCountOk(|table|) && |table'| == |table|
    requires LeafStored(table[ShardOf(Scatter(key), |table|)], table'[ShardOf(Scatter(key), |table|)], key, value)
    requires forall i :: 0 <= i < |table| && i != ShardOf(Scatter(key), |table|) ==> table'[i] == table[i]
    ensures StoredIn(table, table', key, value)
  {
    hide Scatter, ShardOf, LeafStored;
  }

  lemma StoredAtHome<V>(table: Table<V>, table': Table<V>, key: u64, value: V)
    requires AtHome(table) && StoredIn(table, table', key, value) && |table'[ShardOf(Scatter(key), |table|)]| <= INDEX_LIMIT
    ensures AtHome(table')
  {
    hide Scatter, ShardOf;
  }

  lemma StoredHonest<V>(table: Table<V>, table': Table<V>, contents: map<u64, V>, key: u64, value: V)
    requires Honest(table, contents) && StoredIn(table, table', key, value) && key !in contents
    ensures Honest(table', contents)
  {
    hide Scatter, ShardOf;
  }

  // ----- what sealed words answer -----

  ghost predicate LeafOf<V>(table: Table<V>, s: nat, l: nat, key: u64) {
    s < |table| && l < |table[s]| && table[s][l].key == key
  }

  ghost predicate Stored<V>(table: Table<V>, key: u64) {
    exists s: nat, l: nat :: LeafOf(table, s, l, key)
  }

  ghost predicate TableBinds<V>(table: Table<V>, contents: map<u64, V>) {
    && (forall s: nat, l: nat :: s < |table| && l < |table[s]| ==>
          table[s][l].key in contents && contents[table[s][l].key] == table[s][l].value)
    && (forall k :: k in contents ==> Stored(table, k))
  }

  /** The leaves of bound keys hold what the keys are bound to. */
  ghost predicate Honest<V>(table: Table<V>, contents: map<u64, V>) {
    forall s: nat, l: nat :: s < |table| && l < |table[s]| && table[s][l].key in contents ==>
      contents[table[s][l].key] == table[s][l].value
  }

  /** A key with a leaf that the map does not bind. */
  ghost predicate Lost<V>(table: Table<V>, contents: map<u64, V>, key: u64) {
    key !in contents && Stored(table, key)
  }

  /** More leaves share the prefix of `key` than a bucket holds. */
  ghost predicate Crowded<V>(table: Table<V>, bits: nat, key: u64)
    requires bits <= 64
  {
    |LeavesOf(table, FrontPrefix(Scatter(key), bits), bits)| > 16
  }

  /** The answer is a leaf of `key`, or there is none. */
  ghost predicate Tells<V>(table: Table<V>, key: u64, answer: Option<V>) {
    match answer
    case None => !Stored(table, key)
    case Some(v) => exists s: nat, l: nat :: LeafOf(table, s, l, key) && table[s][l].value == v
  }

  lemma TellsContents<V>(table: Table<V>, contents: map<u64, V>, key: u64, answer: Option<V>)
    requires Tells(table, key, answer) && Honest(table, contents)
    ensures answer.Some? <==> Stored(table, key)
    ensures answer.Some? && key in contents ==> answer == Some(contents[key])
  {
  }

  lemma HonestTells<V>(table: Table<V>, contents: map<u64, V>, key: u64)
    requires key in contents && Honest(table, contents) && Stored(table, key)
    ensures Tells(table, key, Some(contents[key]))
  {
    var s: nat, l: nat :| LeafOf(table, s, l, key);
    assert table[s][l].value == contents[key];
  }

  ghost function BucketAnswer<V>(table: Table<V>, b: MicroBucket, key: u64): Option<V>
    requires b.count <= |b.keys| == |b.leafIds| && b.shardId < |table|
    requires forall slot :: 0 <= slot < b.count ==> b.leafIds[slot] < |table[b.shardId]|
  {
    var slot := FirstAt(b.keys[..b.count], key);
    if slot < b.count then Some(table[b.shardId][b.leafIds[slot]].value) else None
  }

  ghost predicate BucketTells<V>(table: Table<V>, b: MicroBucket, key: u64) {
    && b.count <= |b.keys| == |b.leafIds| && b.shardId < |table|
    && (forall slot :: 0 <= slot < b.count ==> b.leafIds[slot] < |table[b.shardId]|)
    && Tells(table, key, BucketAnswer(table, b, key))
  }

  /** A sealed word settles the lookup of every key of its prefix, stored or not; there is none
      for crowded prefixes. */
  lemma WordAnswers<V>(table: Table<V>, bits: nat, key: u64, w: Word,
                       micro4: seq<MicroBucket>, micro8: seq<MicroBucket>, micro16: seq<MicroBucket>)
    requires bits <= 64
    requires WordOk(table, FrontPrefix(Scatter(key), bits), bits, w, micro4, micro8, micro16)
    ensures if w.NoWord? then Stored(table, key) ==> Crowded(table, bits, key) else !Crowded(table, bits, key)
    ensures match w
            case Single(s, l) =>
              && s < |table| && l < |table[s]|
              && Tells(table, key, if table[s][l].key == key then Some(table[s][l].value) else None)
            case Micro4(b) => b < |micro4| && BucketTells(table, micro4[b], key)
            case Micro8(b) => b < |micro8| && BucketTells(table, micro8[b], key)
            case Micro16(b) => b < |micro16| && BucketTells(table, micro16[b], key)
            case NoWord => true
  {
    hide Scatter, FrontPrefix, BucketOk, BucketTells, Tells, Stored, LeavesOf;
    match w
    case Single(s, l) => SingleSettles(table, bits, key, s, l);
    case Micro4(b) => BucketSettles(table, bits, key, micro4[b]);
    case Micro8(b) => BucketSettles(table, bits, key, micro8[b]);
    case Micro16(b) => BucketSettles(table, bits, key, micro16[b]);
    case NoWord =>
      if Stored(table, key) {
        StoredCounts(table, bits, key);
      }
  }

  lemma StoredCounts<V>(table: Table<V>, bits: nat, key: u64)
    requires bits <= 64 && Stored(table, key)
    ensures |LeavesOf(table, FrontPrefix(Scatter(key), bits), bits)| > 0
  {
    hide Scatter, FrontPrefix;
    var s: nat, l: nat :| LeafOf(table, s, l, key);
    assert LeafHasPrefix(table, s, l, FrontPrefix(Scatter(key), bits), bits);
    assert (s, l) in LeavesOf(table, FrontPrefix(Scatter(key), bits), bits);
  }

  lemma SingleSettles<V>(table: Table<V>, bits: nat, key: u64, s: nat, l: nat)
    requires bits <= 64 && LeafHasPrefix(table, s, l, FrontPrefix(Scatter(key), bits), bits)
    requires forall s': nat, l': nat :: LeafHasPrefix(table, s', l', FrontPrefix(Scatter(key), bits), bits) ==> s' == s && l' == l
    ensures Tells(table, key, if table[s][l].key == key then Some(table[s][l].value) else None)
  {
    hide Scatter, FrontPrefix;
    if Stored(table, key) {
      var s', l' :| LeafOf(table, s', l', key);
      assert LeafHasPrefix(table, s', l', FrontPrefix(Scatter(key), bits), bits);
    }
    assert table[s][l].key == key ==> LeafOf(table, s, l, key);
  }

  lemma BucketSettles<V>(table: Table<V>, bits: nat, key: u64, b: MicroBucket)
    requires bits <= 64 && BucketOk(table, FrontPrefix(Scatter(key), bits), bits, b)
    ensures BucketTells(table, b, key)
  {
    hide Scatter, FrontPrefix, LeavesOf;
    var slot := FirstAt(b.keys[..b.count], key);
    if Stored(table, key) {
      StoredIsKeyed(table, bits, key, b);
    }
    assert slot < b.count ==> LeafOf(table, b.shardId, b.leafIds[slot], key);
  }

  lemma StoredIsKeyed<V>(table: Table<V>, bits: nat, key: u64, b: MicroBucket)
    requires bits <= 64 && BucketOk(table, FrontPrefix(Scatter(key), bits), bits, b) && Stored(table, key)
    ensures key in b.keys[..b.count]
  {
    hide Scatter, FrontPrefix, LeavesOf;
    var s: nat, l: nat :| LeafOf(table, s, l, key);
    assert LeafHasPrefix(table, s, l, FrontPrefix(Scatter(key), bits), bits);
    var i :| 0 <= i < b.count && b.leafIds[..b.count][i] == l;
    assert b.keys[..b.count][i] == key;
  }

  // ----- whole runs -----

  datatype Op<V> = Put(key: u64, value: V) | Look(key: u64) | Choose(profile: LookupProfile) | Seal

  function Lookup<V>(m: map<u64, V>, key: u64): Option<V> {
    if key in m then Some(m[key]) else None
  }

  /** What a plain map does with the same operations. */
  function MapAfter<V>(m: map<u64, V>, op: Op<V>): map<u64, V> {
    if op.Put? then m[op.key := op.value] else m
  }

  function MapAnswer<V>(m: map<u64, V>, op: Op<V>): Option<V> {
    if op.Put? || op.Look? then Lookup(m, op.key) else None
  }

  function MapRun<V>(m: map<u64, V>, ops: seq<Op<V>>): map<u64, V> {
    if ops == [] then m else MapAfter(MapRun(m, ops[..|ops| - 1]), ops[|ops| - 1])
  }

  /** No insertion of the run clashes with an earlier key. */
  ghost predicate ClashFree<V>(ops: seq<Op<V>>, shards: nat)
    requires ShardCountOk(shards)
  {
    forall i :: 0 <= i < |ops| && ops[i].Put? ==> !Clashes(MapRun(map[], ops[..i]), shards, ops[i].key)
  }

  lemma FullTableClashFree<V>(ops: seq<Op<V>>)
    ensures ClashFree(ops, 256)
  {
    forall i | 0 <= i < |ops| && ops[i].Put?
      ensures !Clashes(MapRun(map[], ops[..i]), 256, ops[i].key)
    {
      FullTableNeverClashes(MapRun(map[], ops[..i]), ops[i].key);
    }
  }

  /** Any run of a fresh table answers every operation as a plain map would. */
  method Replay<V>(n: nat, ops: seq<Op<V>>) returns (table: DHarht<V>, answers: seq<Option<V>>)
    requires ShardCountOk(n) && ClashFree(ops, n) && 20 * |ops| <= INDEX_LIMIT
    ensures table.Valid() && table.contents == MapRun(map[], ops)
    ensures |answers| == |ops|
    ensures forall i :: 0 <= i < |ops| ==> answers[i] == MapAnswer(MapRun(map[], ops[..i]), ops[i])
  {
    hide Clashes, Scatter, ShardOf, ClashFree, GrownBy, DHarht.Valid, DHarht.Owned, RoomUsed;
    table := new DHarht(n);
    answers := [];
    assert ops[..0] == [];
    EmptyRoom(table);
    for i := 0 to |ops|
      invariant fresh(table) && fresh(table.Repr) && table.Owned() && table.Valid() && |table.shards| == n
      invariant table.contents == MapRun(map[], ops[..i])
      invariant RoomUsed(table, 20 * i)
      invariant |answers| == i && AnswersSoFar(ops, answers)
    {
      assert ops[..i + 1][..i] == ops[..i];
      NextClashFree(ops, n, i);
      var answer := Apply(table, ops[i], 20 * i);
      OneMoreAnswer(ops, answers, answer);
      answers := answers + [answer];
    }
    assert ops[..|ops|] == ops;
    hide MapRun, MapAnswer;
  }

  ghost predicate AnswersSoFar<V>(ops: seq<Op<V>>, answers: seq<Option<V>>) {
    |answers| <= |ops| && forall j :: 0 <= j < |answers| ==> answers[j] == MapAnswer(MapRun(map[], ops[..j]), ops[j])
  }

  lemma OneMoreAnswer<V>(ops: seq<Op<V>>, answers: seq<Option<V>>, answer: Option<V>)
    requires AnswersSoFar(ops, answers) && |answers| < |ops|
    requires answer == MapAnswer(MapRun(map[], ops[..|answers|]), ops[|answers|])
    ensures AnswersSoFar(ops, answers + [answer])
  {
    hide MapRun, MapAnswer;
  }

  ghost predicate RoomUsed<V>(table: DHarht<V>, used: nat)
    requires table.Owned()
    reads table.Repr
  {
    forall s :: 0 <= s < |table.shards| ==>
      Parts(table.shards[s]) <= table.Repr && GrownBy([0, 0, 0, 0, 0, 0, 0], table.shards[s].slab.Sizes(), used)
  }

  lemma EmptyRoom<V>(table: DHarht<V>)
    requires table.Owned()
    requires forall i :: 0 <= i < |table.shards| ==> table.shards[i].slab.Sizes() == [0, 0, 0, 0, 0, 0, 0]
    ensures RoomUsed(table, 0)
  {
  }

  lemma NextClashFree<V>(ops: seq<Op<V>>, n: nat, i: nat)
    requires ShardCountOk(n) && ClashFree(ops, n) && i < |ops|
    ensures ops[i].Put? ==> !Clashes(MapRun(map[], ops[..i]), n, ops[i].key)
  {
  }

  method Apply<V>(table: DHarht<V>, op: Op<V>, ghost used: nat) returns (answer: Option<V>)
    requires table.Valid() && RoomUsed(table, used) && used + 20 <= INDEX_LIMIT
    requires op.Put? ==> !Clashes(table.contents, |table.shards|, op.key)
    modifies table, table.Repr
    ensures table.Valid() && table.contents == MapAfter(old(table.contents), op)
    ensures answer == MapAnswer(old(table.contents), op)
    ensures RoomUsed(table, used + 20)
    ensures op.Put? ==> StoredIn(old(table.LeafTable()), table.LeafTable(), op.key, op.value)
  {
    hide Clashes, Scatter, Shr, AtHome, Collects, SealedOk, Shard.Valid, Shard.Wf, DHarht.ShardsValid, DHarht.ShardsWf,
      StoredIn, Honest, Tells, DHarht.Recalls, SortedLeaves, Lost, Crowded;
    answer := None;
    match op {
      case Put(key, value) => answer := table.Insert(key, value);
      case Look(key) =>
        answer := table.Get(key);
        table.NothingToRecall(key);
      case Choose(profile) => table.SetLookupProfile(profile);
      case Seal => table.SealForLookup();
    }
  }

  // ----- fewer than 256 shards -----

  lemma {:induction false} ShrPow2(m: nat, n: nat)
    ensures Shr(Pow2(m), n) == if n <= m then Pow2(m - n) else 0
  {
    if n > 0 {
      ShrPow2(m, n - 1);
    }
  }

  lemma {:induction false} ShrZero(n: nat)
    ensures Shr(0, n) == 0
  {
    if n > 0 {
      ShrZero(n - 1);
    }
  }

  /** Two keys that differ in the lowest bit of the top byte take one route, and with
      fewer than 256 shards they share a shard. */
  lemma TwinsClash(n: nat)
    requires ShardCountOk(n) && n < 256
    ensures Pow2(56) < WORD
    ensures SameShardAndRoute(Unscatter(0), Unscatter(Pow2(56)), n) && Unscatter(0) != Unscatter(Pow2(56))
  {
    hide Scatter, Unscatter, Shr, Pow2;
    Pow2Values();
    Pow2Add(56, 8);
    ScatterIsPermutation(0);
    ScatterIsPermutation(Pow2(56));
    var a, b := Unscatter(0), Unscatter(Pow2(56));
    Log2Small(n);
    ShrZero(64 - Log2(n));
    ShrPow2(56, 64 - Log2(n));
    forall i | 0 <= i < 7
      ensures PathOf(a, 7)[i] == PathOf(b, 7)[i]
    {
      TwinByte(i + 1);
    }
    assert PathOf(a, 7) == PathOf(b, 7);
  }

  lemma TwinByte(depth: nat)
    requires 1 <= depth <= 7
    ensures Pow2(56) < WORD
    ensures RadixByte(0, depth) == 0 == RadixByte(Pow2(56), depth)
  {
    hide Shr, Pow2;
    Pow2Values();
    Pow2Add(56, 8);
    var below := (7 - depth) * 8;
    ShrZero(below);
    ShrPow2(56, below);
    Pow2Add(56 - below - 8, 8);
    Multiple(Pow2(56 - below - 8));
  }

  lemma Multiple(q: nat)
    ensures (q * 256) % 256 == 0
  {
  }

  lemma Log2Small(n: nat)
    requires ShardCountOk(n) && n < 256
    ensures Log2(n) <= 7
  {
    assert Log2(2) == 1 && Log2(4) == 2 && Log2(8) == 3;
    assert Log2(16) == 4 && Log2(32) == 5;
    assert Log2(64) == 6;
    assert Log2(128) == 7;
  }

  lemma RoomLeft<V>(table: DHarht<V>, used: nat, s: nat)
    requires table.Owned() && RoomUsed(table, used) && used + 20 <= INDEX_LIMIT && s < |table.shards|
    ensures table.shards[s].slab.Room(20)
  {
  }

  lemma OnlyTwinsClash<V>(first: u64, second: u64, value: V, n: nat)
    requires ShardCountOk(n) && first != second && SameShardAndRoute(first, second, n)
    ensures !Clashes<V>(map[], n, first) && Clashes(map[first := value], n, second)
  {
  }

  /** No prefix has more than `n` leaves. */
  ghost predicate Sparsely<V>(table: Table<V>, n: nat) {
    forall p: nat, bits: nat | bits <= 64 :: |LeavesOf(table, p, bits)| <= n
  }

  lemma NoLeavesYet<V>(table: DHarht<V>)
    requires table.Owned() && RoomUsed(table, 0)
    ensures Sparsely(table.LeafTable(), 0)
  {
    hide FrontPrefix, Scatter;
    forall s: nat | s < |table.shards|
      ensures table.LeafTable()[s] == []
    {
      assert table.shards[s].slab.Sizes()[1] == 0;
    }
    forall p: nat, bits: nat | bits <= 64 ensures LeavesOf(table.LeafTable(), p, bits) == {} {
    }
  }

  lemma OneMoreLeaf<V>(table: Table<V>, table': Table<V>, key: u64, value: V, n: nat)
    requires StoredIn(table, table', key, value) && Sparsely(table, n)
    ensures Sparsely(table', n + 1)
  {
    hide FrontPrefix, Scatter, ShardOf;
    var s: nat := ShardOf(Scatter(key), |table|);
    forall p: nat, bits: nat | bits <= 64 ensures |LeavesOf(table', p, bits)| <= n + 1 {
      var was, now := LeavesOf(table, p, bits), LeavesOf(table', p, bits);
      var added := (s, |table[s]|);
      assert now <= was + {added};
      ImageSize(was + {added}, now, x => x);
    }
  }

  lemma NowStored<V>(table: Table<V>, table': Table<V>, key: u64, value: V)
    requires StoredIn(table, table', key, value)
    ensures Stored(table', key)
  {
    hide Scatter, ShardOf;
    var s: nat := ShardOf(Scatter(key), |table|);
    var l: nat := |table[s]|;
    if table'[s] != table[s] + [LeafNode(key, value)] {
      l :| l < |table[s]| && table'[s] == table[s][l := LeafNode(key, value)];
    }
    assert LeafOf(table', s, l, key);
  }

  /** With fewer than 256 shards some freshly inserted key cannot be found again. */
  method LosesKey(n: nat) returns (table: DHarht<nat>, first: u64, second: u64, answer: Option<nat>)
    requires ShardCountOk(n) && n < 256
    ensures first != second && SameShardAndRoute(first, second, n)
    ensures table.Wf() && |table.shards| == n && table.contents == map[first := 1] && answer == None
    ensures fresh(table) && fresh(table.Repr) && !table.isSealed
    ensures Lost(table.LeafTable(), table.contents, second) && Sparsely(table.LeafTable(), 2)
  {
    hide Clashes, SameShardAndRoute, Scatter, Unscatter, ShardOf, Pow2, PathOf, GrownBy, RoomUsed;
    hide Slab.Room, DHarht.Owned, DHarht.Valid, DHarht.Wf, Sparsely, StoredIn, Stored, Tells, DHarht.Recalls;
    TwinsClash(n);
    first, second := Unscatter(0), Unscatter(Pow2(56));
    OnlyTwinsClash(first, second, 1 as nat, n);
    table := new DHarht<nat>(n);
    EmptyRoom(table);
    NoLeavesYet(table);
    ghost var leaves := table.LeafTable();
    answer := Apply(table, Put(first, 1), 0);
    OneMoreLeaf(leaves, table.LeafTable(), first, 1 as nat, 0);
    RoomLeft(table, 20, ShardOf(Scatter(second), n));
    leaves := table.LeafTable();
    answer := table.Insert(second, 2);
    OneMoreLeaf(leaves, table.LeafTable(), second, 2 as nat, 1);
    NowStored(leaves, table.LeafTable(), second, 2 as nat);
    Unsealed(table, second);
    answer := table.Get(second);
  }

  lemma Unsealed<V>(table: DHarht<V>, key: u64)
    requires table.Wf() && !table.isSealed
    ensures !table.Recalls(key) && table.Owned()
  {
  }

  /** Sealing the table brings the lost key back. */
  method SealFindsLostKey(n: nat) returns (before: Option<nat>, after: Option<nat>)
    requires ShardCountOk(n) && n < 256
    ensures before == None && after.Some?
  {
    hide DHarht.Wf, DHarht.Valid, Lost, SameShardAndRoute, DHarht.Recalls, SortedLeaves, Slab.Sizes, Tells;
    var table, first, second, answer := LosesKey(n);
    before := answer;
    table.WfOwned();
    NotCrowded(table.LeafTable(), FrontBits(table.profile), second);
    table.SealForLookup();
    after := table.Get(second);
  }

  lemma NotCrowded<V>(table: Table<V>, bits: nat, key: u64)
    requires bits <= 64 && Sparsely(table, 2)
    ensures !Crowded(table, bits, key)
  {
    hide FrontPrefix, Scatter, LeavesOf;
  }
}
