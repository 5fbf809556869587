/** The sealed front directory: packed words, micro-buckets and the dense and the
    paged table, with what a word must say about the leaves of its prefix. */
module FrontDirectories {
  import opened Scattering
  import opened RadixTree
  import opened Slabs

  const FRONT_EMPTY: nat := 0xFFFF_FFFF_FFFF_FFFF
  const NO_PAGE: nat := 0xFFFF_FFFF
  const PAGE_SIZE: nat := 256
  const TWO_29: nat := 0x2000_0000
  const TWO_32: nat := 0x1_0000_0000
  const TWO_35: nat := 0x8_0000_0000
  const TWO_61: nat := 0x2000_0000_0000_0000

  datatype LookupProfile = Speed | Balanced | Memory

  function FrontBits(profile: LookupProfile): nat {
    match profile
    case Speed => 20
    case Balanced => 20
    case Memory => 16
  }

  // ----- packed words -----

  datatype Word = Single(shardId: nat, leafId: nat) | Micro4(bucket: nat) | Micro8(bucket: nat) | Micro16(bucket: nat) | NoWord

  function PackFrontLeaf(shardId: nat, leafId: nat): nat {
    shardId * TWO_32 + leafId
  }

  function UnpackFrontLeaf(packed: nat): (nat, nat) {
    (packed / TWO_32, packed % TWO_32)
  }

  function Pack(w: Word): nat {
    match w
    case Single(shardId, leafId) => shardId * TWO_35 + leafId * 8 + 1
    case Micro4(bucket) => bucket * 8 + 2
    case Micro8(bucket) => bucket * 8 + 3
    case Micro16(bucket) => bucket * 8 + 4
    case NoWord => FRONT_EMPTY
  }

  function Unpack(packed: nat): Word {
    match packed % 8
    case 1 => Single(packed / TWO_35, (packed / 8) % TWO_32)
    case 2 => Micro4(packed / 8)
    case 3 => Micro8(packed / 8)
    case 4 => Micro16(packed / 8)
    case _ => NoWord
  }

  predicate WordFits(w: Word) {
    match w
    case Single(shardId, leafId) => shardId < TWO_29 && leafId < TWO_32
    case Micro4(bucket) => bucket < TWO_61
    case Micro8(bucket) => bucket < TWO_61
    case Micro16(bucket) => bucket < TWO_61
    case NoWord => true
  }

  /** Every kind of word survives packing, fits 64 bits, and only `NoWord` packs to
      the empty word. */
  lemma PackRoundTrip(w: Word)
    requires WordFits(w)
    ensures Unpack(Pack(w)) == w
    ensures Pack(w) < WORD
    ensures Pack(w) == FRONT_EMPTY <==> w == NoWord
  {
    if w.Single? {
      var p := Pack(w);
      assert p / 8 == w.shardId * TWO_32 + w.leafId;
      LeafRoundTrip(w.shardId, w.leafId);
      assert p / TWO_35 == (p / 8) / TWO_32;
    }
  }

  lemma LeafRoundTrip(shardId: nat, leafId: nat)
    requires leafId < TWO_32
    ensures UnpackFrontLeaf(PackFrontLeaf(shardId, leafId)) == (shardId, leafId)
  {
  }

  // ----- micro-buckets -----

  datatype MicroBucket = MicroBucket(shardId: nat, count: nat, keys: seq<u64>, leafIds: seq<nat>)

  // ----- directories -----

  datatype FrontDirectory =
    | EmptyDirectory
    | Dense(entries: seq<nat>)
    | Sparse(pageTable: seq<nat>, pages: seq<seq<nat>>)

  ghost predicate DirectoryOk(dir: FrontDirectory, length: nat) {
    match dir
    case EmptyDirectory => true
    case Dense(entries) => |entries| == length
    case Sparse(pageTable, pages) =>
      && |pageTable| * PAGE_SIZE == length
      && (forall p :: 0 <= p < |pageTable| ==> pageTable[p] == NO_PAGE || pageTable[p] < |pages|)
      && (forall p :: 0 <= p < |pages| ==> |pages[p]| == PAGE_SIZE)
  }

  function DirectoryGet(dir: FrontDirectory, prefix: nat, length: nat): nat
    requires DirectoryOk(dir, length) && prefix < length
  {
    match dir
    case EmptyDirectory => FRONT_EMPTY
    case Dense(entries) => entries[prefix]
    case Sparse(pageTable, pages) =>
      var page := pageTable[prefix / PAGE_SIZE];
      if page == NO_PAGE then FRONT_EMPTY else pages[page][prefix % PAGE_SIZE]
  }

  /** The word listed for a prefix. */
  function WordFor(entries: seq<(nat, nat)>, prefix: nat): nat {
    if entries == [] then FRONT_EMPTY
    else if entries[|entries| - 1].0 == prefix then entries[|entries| - 1].1
    else WordFor(entries[..|entries| - 1], prefix)
  }

  /** The directory answers every prefix with the word listed for it. */
  ghost predicate Lists(dir: FrontDirectory, length: nat, entries: seq<(nat, nat)>) {
    && DirectoryOk(dir, length)
    && forall p: nat :: p < length ==> DirectoryGet(dir, p, length) == WordFor(entries, p)
  }

  method BuildDense(length: nat, entries: seq<(nat, nat)>) returns (dir: FrontDirectory)
    requires forall i :: 0 <= i < |entries| ==> entries[i].0 < length
    ensures Lists(dir, length, entries)
  {
    var dense := Fill(length, FRONT_EMPTY);
    for i := 0 to |entries|
      invariant |dense| == length
      invariant forall p :: 0 <= p < length ==> dense[p] == WordFor(entries[..i], p)
    {
      assert entries[..i + 1][..i] == entries[..i];
      dense := dense[entries[i].0 := entries[i].1];
    }
    assert entries[..|entries|] == entries;
    dir := Dense(dense);
  }

  method BuildSparse(length: nat, entries: seq<(nat, nat)>) returns (dir: FrontDirectory)
    requires length % PAGE_SIZE == 0 && |entries| <= length < NO_PAGE
    requires forall i :: 0 <= i < |entries| ==> entries[i].0 < length
    ensures Lists(dir, length, entries)
  {
    hide Lists, Injective;
    var pageTable: seq<nat>, pages: seq<seq<nat>> := Fill(length / PAGE_SIZE, NO_PAGE), [];
    NoPages(length);
    assert entries[..0] == [];
    for i := 0 to |entries|
      invariant Lists(Sparse(pageTable, pages), length, entries[..i])
      invariant Injective(pageTable) && |pages| <= i
    {
      var prefix, word := entries[i].0, entries[i].1;
      PageInTable(pageTable, pages, entries[..i], prefix, length);
      var page := prefix / PAGE_SIZE;
      if pageTable[page] == NO_PAGE {
        FreshPage(pageTable, pages, entries[..i], page, length);
        pageTable := pageTable[page := |pages|];
        pages := pages + [Fill(PAGE_SIZE, FRONT_EMPTY)];
        PageInTable(pageTable, pages, entries[..i], prefix, length);
      }
      var pageId := pageTable[page];
      WordSet(pageTable, pages, entries, i, length);
      var words: seq<nat> := pages[pageId][prefix % PAGE_SIZE := word];
      pages := pages[pageId := words];
    }
    assert entries[..|entries|] == entries;
    dir := Sparse(pageTable, pages);
  }

  /** Each page belongs to one slot of the page table. */
  ghost predicate Injective(pageTable: seq<nat>) {
    forall p, q :: 0 <= p < q < |pageTable| && pageTable[p] != NO_PAGE ==> pageTable[p] != pageTable[q]
  }

  lemma NoPages(length: nat)
    requires length % PAGE_SIZE == 0
    ensures Lists(Sparse(Fill(length / PAGE_SIZE, NO_PAGE), []), length, [])
    ensures Injective(Fill(length / PAGE_SIZE, NO_PAGE))
  {
  }

  lemma LastWord(entries: seq<(nat, nat)>, i: nat, p: nat)
    requires i < |entries|
    ensures WordFor(entries[..i + 1], p) == if p == entries[i].0 then entries[i].1 else WordFor(entries[..i], p)
  {
    assert entries[..i + 1][..i] == entries[..i];
  }

  lemma PageInTable(pageTable: seq<nat>, pages: seq<seq<nat>>, entries: seq<(nat, nat)>, prefix: nat, length: nat)
    requires Lists(Sparse(pageTable, pages), length, entries) && prefix < length
    ensures prefix / PAGE_SIZE < |pageTable|
    ensures var id := pageTable[prefix / PAGE_SIZE]; id != NO_PAGE ==> id < |pages| && |pages[id]| == PAGE_SIZE
  {
  }

  /** Giving an empty page to a slot that had none changes no word. */
  lemma FreshPage(pageTable: seq<nat>, pages: seq<seq<nat>>, entries: seq<(nat, nat)>, page: nat, length: nat)
    requires Lists(Sparse(pageTable, pages), length, entries) && Injective(pageTable)
    requires page < |pageTable| && pageTable[page] == NO_PAGE && |pages| < NO_PAGE
    ensures Lists(Sparse(pageTable[page := |pages|], pages + [Fill(PAGE_SIZE, FRONT_EMPTY)]), length, entries)
    ensures Injective(pageTable[page := |pages|])
  {
    var dir := Sparse(pageTable[page := |pages|], pages + [Fill(PAGE_SIZE, FRONT_EMPTY)]);
    assert DirectoryOk(dir, length);
    forall p: nat | p < length
      ensures DirectoryGet(dir, p, length) == WordFor(entries, p)
    {
      assert DirectoryGet(dir, p, length) == DirectoryGet(Sparse(pageTable, pages), p, length);
    }
  }

  /** Writing a word on its page changes that prefix only. */
  lemma WordSet(pageTable: seq<nat>, pages: seq<seq<nat>>, entries: seq<(nat, nat)>, i: nat, length: nat)
    requires i < |entries| && entries[i].0 < length
    requires Lists(Sparse(pageTable, pages), length, entries[..i]) && Injective(pageTable)
    requires entries[i].0 / PAGE_SIZE < |pageTable| && pageTable[entries[i].0 / PAGE_SIZE] != NO_PAGE
    requires var id := pageTable[entries[i].0 / PAGE_SIZE]; id < |pages| && |pages[id]| == PAGE_SIZE
    ensures var id := pageTable[entries[i].0 / PAGE_SIZE];
            var words: seq<nat> := pages[id][entries[i].0 % PAGE_SIZE := entries[i].1];
            Lists(Sparse(pageTable, pages[id := words]), length, entries[..i + 1])
  {
    var prefix, word := entries[i].0, entries[i].1;
    var id := pageTable[prefix / PAGE_SIZE];
    var words: seq<nat> := pages[id][prefix % PAGE_SIZE := word];
    var dir := Sparse(pageTable, pages[id := words]);
    assert DirectoryOk(dir, length);
    forall p: nat | p < length
      ensures DirectoryGet(dir, p, length) == WordFor(entries[..i + 1], p)
    {
      LastWord(entries, i, p);
      DivMod(p, prefix);
      assert p != prefix ==> DirectoryGet(dir, p, length) == DirectoryGet(Sparse(pageTable, pages), p, length);
    }
  }

  lemma DivMod(p: nat, q: nat)
    ensures p / PAGE_SIZE == q / PAGE_SIZE && p % PAGE_SIZE == q % PAGE_SIZE ==> p == q
  {
  }

  // ----- what a sealed word promises -----

  /** All shards' leaves, by shard. */
  type Table<V> = seq<seq<LeafNode<V>>>

  ghost predicate LeafHasPrefix<V>(table: Table<V>, s: nat, l: nat, prefix: nat, bits: nat)
    requires bits <= 64
  {
    s < |table| && l < |table[s]| && FrontPrefix(Scatter(table[s][l].key), bits) == prefix
  }

  /** Where the leaves of a prefix are: shard and leaf id. */
  ghost function LeavesOf<V>(table: Table<V>, prefix: nat, bits: nat): set<(nat, nat)>
    requires bits <= 64
  {
    set s: nat, l: nat | s < |table| && l < |table[s]| && LeafHasPrefix(table, s, l, prefix, bits) :: (s, l)
  }

  /** The bucket lists exactly the leaves of its prefix, each once, all of one shard. */
  ghost predicate BucketOk<V>(table: Table<V>, prefix: nat, bits: nat, b: MicroBucket)
    requires bits <= 64
  {
    && b.count <= |b.keys| == |b.leafIds|
    && b.shardId < |table|
    && (forall slot :: 0 <= slot < b.count ==>
          b.leafIds[slot] < |table[b.shardId]| && table[b.shardId][b.leafIds[slot]].key == b.keys[slot])
    && (forall s: nat, l: nat :: LeafHasPrefix(table, s, l, prefix, bits) ==> s == b.shardId && l in b.leafIds[..b.count])
    && (forall i, j :: 0 <= i < j < b.count ==> b.leafIds[i] != b.leafIds[j])
    && b.count == |LeavesOf(table, prefix, bits)|
  }

  /** The kind of word a prefix with `n` leaves has. */
  predicate Sized(w: Word, n: nat) {
    match w
    case Single(_, _) => n == 1
    case Micro4(_) => 2 <= n <= 4
    case Micro8(_) => 5 <= n <= 8
    case Micro16(_) => 9 <= n <= 16
    case NoWord => n == 0 || n > 16
  }

  ghost predicate WordOk<V>(table: Table<V>, prefix: nat, bits: nat, w: Word,
                            micro4: seq<MicroBucket>, micro8: seq<MicroBucket>, micro16: seq<MicroBucket>)
    requires bits <= 64
  {
    && Sized(w, |LeavesOf(table, prefix, bits)|)
    && match w
    case Single(shardId, leafId) =>
      && LeafHasPrefix(table, shardId, leafId, prefix, bits)
      && forall s: nat, l: nat :: LeafHasPrefix(table, s, l, prefix, bits) ==> s == shardId && l == leafId
    case Micro4(bucket) => bucket < |micro4| && BucketOk(table, prefix, bits, micro4[bucket])
    case Micro8(bucket) => bucket < |micro8| && BucketOk(table, prefix, bits, micro8[bucket])
    case Micro16(bucket) => bucket < |micro16| && BucketOk(table, prefix, bits, micro16[bucket])
    case NoWord => true
  }

  /** Each leaf is in the shard its key selects. */
  ghost predicate AtHome<V>(table: Table<V>) {
    && ShardCountOk(|table|)
    && (forall s :: 0 <= s < |table| ==> |table[s]| <= INDEX_LIMIT)
    && (forall s, l :: 0 <= s < |table| && 0 <= l < |table[s]| ==> ShardOf(Scatter(table[s][l].key), |table|) == s)
  }

  ghost predicate SealedOk<V>(table: Table<V>, bits: nat, dir: FrontDirectory,
                              micro4: seq<MicroBucket>, micro8: seq<MicroBucket>, micro16: seq<MicroBucket>)
    requires bits <= 64
  {
    && DirectoryOk(dir, Pow2(bits))
    && forall p: nat :: p < Pow2(bits) ==>
         WordOk(table, p, bits, Unpack(DirectoryGet(dir, p, Pow2(bits))), micro4, micro8, micro16)
  }

  // ----- sealing -----

  /** The leaves before (`s0`, `l0`) are listed under their prefixes, each once, and no others. */
  ghost predicate Grouped<V>(table: Table<V>, bits: nat, buckets: map<nat, seq<nat>>, s0: nat, l0: nat)
    requires bits <= 64
  {
    && (forall p :: p in buckets ==>
          buckets[p] != [] && Listed(table, bits, p, buckets[p]) && Distinct(buckets[p]) && AllBefore(buckets[p], s0, l0))
    && (forall s: nat, l: nat, p: nat :: LeafHasPrefix(table, s, l, p, bits) && Before(s, l, s0, l0) ==>
          p in buckets && PackFrontLeaf(s, l) in buckets[p])
  }

  predicate Before(s: nat, l: nat, s0: nat, l0: nat) { s < s0 || (s == s0 && l < l0) }

  predicate AllBefore(packed: seq<nat>, s0: nat, l0: nat) {
    forall i :: 0 <= i < |packed| ==> Before(UnpackFrontLeaf(packed[i]).0, UnpackFrontLeaf(packed[i]).1, s0, l0)
  }

  ghost predicate Listed<V>(table: Table<V>, bits: nat, p: nat, packed: seq<nat>)
    requires bits <= 64
  {
    forall i :: 0 <= i < |packed| ==>
      LeafHasPrefix(table, UnpackFrontLeaf(packed[i]).0, UnpackFrontLeaf(packed[i]).1, p, bits)
  }

  /** The leaves of a prefix, each once, in some order. */
  ghost predicate Enumerates<V>(table: Table<V>, bits: nat, p: nat, packed: seq<nat>)
    requires bits <= 64
  {
    && Listed(table, bits, p, packed) && Distinct(packed)
    && forall s: nat, l: nat :: LeafHasPrefix(table, s, l, p, bits) ==> PackFrontLeaf(s, l) in packed
  }

  function Unpacked(packed: seq<nat>): (pairs: seq<(nat, nat)>)
    ensures |pairs| == |packed| && forall i :: 0 <= i < |packed| ==> pairs[i] == UnpackFrontLeaf(packed[i])
  {
    seq(|packed|, i requires 0 <= i < |packed| => UnpackFrontLeaf(packed[i]))
  }

  /** An enumeration has as many entries as there are leaves. */
  lemma EnumerationSize<V>(table: Table<V>, bits: nat, p: nat, packed: seq<nat>)
    requires bits <= 64 && AtHome(table) && Enumerates(table, bits, p, packed)
    ensures |LeavesOf(table, p, bits)| == |packed|
  {
    UnpackedDistinct(packed);
    UnpackedAreLeaves(table, bits, p, packed);
    DistinctSize(Unpacked(packed));
  }

  lemma UnpackedDistinct(packed: seq<nat>)
    requires Distinct(packed)
    ensures Distinct(Unpacked(packed))
  {
    hide UnpackFrontLeaf;
    forall i, j | 0 <= i < j < |packed|
      ensures Unpacked(packed)[i] != Unpacked(packed)[j]
    {
      UnpackInjective(packed[i], packed[j]);
    }
  }

  lemma UnpackedAreLeaves<V>(table: Table<V>, bits: nat, p: nat, packed: seq<nat>)
    requires bits <= 64 && AtHome(table) && Enumerates(table, bits, p, packed)
    ensures (set x | x in Unpacked(packed)) == LeavesOf(table, p, bits)
  {
    hide FrontPrefix, Scatter, UnpackFrontLeaf, PackFrontLeaf, AtHome, LeafHasPrefix, Distinct, Unpacked;
    var pairs := Unpacked(packed);
    forall s: nat, l: nat | LeafHasPrefix(table, s, l, p, bits)
      ensures (s, l) in pairs
    {
      AllListed(table, bits, p, packed, s, l);
      var i :| 0 <= i < |packed| && UnpackFrontLeaf(packed[i]) == (s, l);
      assert pairs[i] == (s, l);
    }
    forall x | x in pairs
      ensures x in LeavesOf(table, p, bits)
    {
      var i :| 0 <= i < |pairs| && pairs[i] == x;
      InTable(table, bits, p, packed, i);
    }
  }

  lemma UnpackInjective(a: nat, b: nat)
    ensures UnpackFrontLeaf(a) == UnpackFrontLeaf(b) ==> a == b
  {
  }

  lemma {:induction false} DistinctSize<T>(xs: seq<T>)
    requires Distinct(xs)
    ensures |set x | x in xs| == |xs|
  {
    if xs != [] {
      var front, last := xs[..|xs| - 1], xs[|xs| - 1];
      DistinctSize(front);
      assert (set x | x in xs) == (set x | x in front) + {last};
      assert last !in front;
    }
  }

  method GroupByPrefix<V>(table: Table<V>, bits: nat) returns (buckets: map<nat, seq<nat>>)
    requires bits <= 64 && AtHome(table)
    ensures Grouped(table, bits, buckets, |table|, 0)
  {
    hide Scatter, Shr, FrontPrefix, ShardOf, Grouped, PackFrontLeaf;
    buckets := map[];
    assert Grouped(table, bits, map[], 0, 0) by { NothingGrouped(table, bits); }
    for shardId := 0 to |table|
      invariant Grouped(table, bits, buckets, shardId, 0)
    {
      for leafId := 0 to |table[shardId]|
        invariant Grouped(table, bits, buckets, shardId, leafId)
      {
        var prefix := FrontPrefix(Scatter(table[shardId][leafId].key), bits);
        var bucket := if prefix in buckets then buckets[prefix] else [];
        GroupOne(table, bits, buckets, shardId, leafId);
        buckets := buckets[prefix := bucket + [PackFrontLeaf(shardId, leafId)]];
      }
      NextShard(table, bits, buckets, shardId);
    }
  }

  lemma NothingGrouped<V>(table: Table<V>, bits: nat)
    requires bits <= 64
    ensures Grouped(table, bits, map[], 0, 0)
  {
  }

  lemma NextShard<V>(table: Table<V>, bits: nat, buckets: map<nat, seq<nat>>, s: nat)
    requires bits <= 64 && s < |table| && Grouped(table, bits, buckets, s, |table[s]|)
    ensures Grouped(table, bits, buckets, s + 1, 0)
  {
  }

  lemma GroupOne<V>(table: Table<V>, bits: nat, buckets: map<nat, seq<nat>>, s0: nat, l0: nat)
    requires bits <= 64 && s0 < |table| && l0 < |table[s0]| && |table[s0]| <= INDEX_LIMIT
    requires Grouped(table, bits, buckets, s0, l0)
    ensures var prefix := FrontPrefix(Scatter(table[s0][l0].key), bits);
            var bucket := if prefix in buckets then buckets[prefix] else [];
            Grouped(table, bits, buckets[prefix := bucket + [PackFrontLeaf(s0, l0)]], s0, l0 + 1)
  {
    hide Scatter, FrontPrefix, PackFrontLeaf, UnpackFrontLeaf, Listed, Distinct, AllBefore, Before, LeafHasPrefix;
    var prefix := FrontPrefix(Scatter(table[s0][l0].key), bits);
    var bucket := if prefix in buckets then buckets[prefix] else [];
    var bucket' := bucket + [PackFrontLeaf(s0, l0)];
    NothingListed(table, bits, prefix, s0, l0);
    ListOne(table, bits, prefix, bucket, s0, l0);
    forall p | p in buckets
      ensures AllBefore(buckets[p], s0, l0 + 1)
    {
      StillBefore(buckets[p], s0, l0);
    }
    forall s: nat, l: nat, p: nat | LeafHasPrefix(table, s, l, p, bits) && Before(s, l, s0, l0 + 1)
      ensures p in buckets[prefix := bucket'] && PackFrontLeaf(s, l) in buckets[prefix := bucket'][p]
    {
      if s == s0 && l == l0 {
        assert p == prefix by { hide *; LeafPrefix(table, s, l, p, bits); }
        assert bucket'[|bucket|] == PackFrontLeaf(s0, l0);
      } else {
        BeforeStep(s, l, s0, l0);
        assert PackFrontLeaf(s, l) in buckets[p];
      }
    }
  }

  lemma LeafPrefix<V>(table: Table<V>, s: nat, l: nat, p: nat, bits: nat)
    requires bits <= 64 && LeafHasPrefix(table, s, l, p, bits)
    ensures s < |table| && l < |table[s]| && FrontPrefix(Scatter(table[s][l].key), bits) == p
  {
  }

  lemma BeforeStep(s: nat, l: nat, s0: nat, l0: nat)
    ensures Before(s, l, s0, l0 + 1) <==> Before(s, l, s0, l0) || (s == s0 && l == l0)
  {
  }

  lemma NothingListed<V>(table: Table<V>, bits: nat, p: nat, s0: nat, l0: nat)
    requires bits <= 64
    ensures Listed(table, bits, p, []) && Distinct<nat>([]) && AllBefore([], s0, l0)
  {
  }

  lemma StillBefore(packed: seq<nat>, s0: nat, l0: nat)
    requires AllBefore(packed, s0, l0)
    ensures AllBefore(packed, s0, l0 + 1)
  {
    hide UnpackFrontLeaf;
  }

  /** One leaf more in a list of earlier ones. */
  lemma ListOne<V>(table: Table<V>, bits: nat, p: nat, packed: seq<nat>, s0: nat, l0: nat)
    requires bits <= 64 && s0 < |table| && l0 < |table[s0]| && |table[s0]| <= INDEX_LIMIT
    requires FrontPrefix(Scatter(table[s0][l0].key), bits) == p
    requires Listed(table, bits, p, packed) && Distinct(packed) && AllBefore(packed, s0, l0)
    ensures var more := packed + [PackFrontLeaf(s0, l0)];
            Listed(table, bits, p, more) && Distinct(more) && AllBefore(more, s0, l0 + 1)
  {
    hide Scatter, FrontPrefix, PackFrontLeaf, UnpackFrontLeaf;
    LeafRoundTrip(s0, l0);
    assert LeafHasPrefix(table, s0, l0, p, bits);
    assert PackFrontLeaf(s0, l0) !in packed;
  }

  method MakeBucket<V>(table: Table<V>, ghost bits: nat, ghost prefix: nat, packed: seq<nat>, capacity: nat)
    returns (bucket: MicroBucket)
    requires 8 <= bits <= 64 && AtHome(table) && 0 < |packed| <= capacity
    requires Enumerates(table, bits, prefix, packed)
    ensures BucketOk(table, prefix, bits, bucket) && bucket.count == |packed| && |bucket.keys| == capacity
  {
    hide Scatter, Shr, FrontPrefix, ShardOf, UnpackFrontLeaf, PackFrontLeaf, LeafHasPrefix, AtHome, Listed, BucketOk;
    var shard: nat, keys: seq<u64>, leafIds: seq<nat> := 0, Fill(capacity, 0), Fill(capacity, EMPTY);
    for slot := 0 to |packed|
      invariant |keys| == |leafIds| == capacity
      invariant slot > 0 ==> shard == UnpackFrontLeaf(packed[0]).0
      invariant forall i :: 0 <= i < slot ==> SlotFilled(table, packed, shard, keys, leafIds, i)
    {
      InTable(table, bits, prefix, packed, slot);
      InTable(table, bits, prefix, packed, 0);
      OneShard(table, bits, prefix, UnpackFrontLeaf(packed[slot]).0, UnpackFrontLeaf(packed[slot]).1,
               UnpackFrontLeaf(packed[0]).0, UnpackFrontLeaf(packed[0]).1);
      var leaf := UnpackFrontLeaf(packed[slot]);
      ghost var filled := (shard, keys, leafIds);
      shard := leaf.0;
      keys := keys[slot := table[leaf.0][leaf.1].key];
      leafIds := leafIds[slot := leaf.1];
      forall i | 0 <= i < slot
        ensures SlotFilled(table, packed, shard, keys, leafIds, i)
      {
        assert SlotFilled(table, packed, filled.0, filled.1, filled.2, i);
      }
    }
    bucket := MicroBucket(shard, |packed|, keys, leafIds);
    BucketFilled(table, bits, prefix, packed, bucket);
  }

  ghost predicate SlotFilled<V>(table: Table<V>, packed: seq<nat>, shard: nat, keys: seq<u64>, leafIds: seq<nat>, i: nat)
    requires i < |packed| <= |keys| == |leafIds|
  {
    && UnpackFrontLeaf(packed[i]) == (shard, leafIds[i])
    && shard < |table| && leafIds[i] < |table[shard]|
    && keys[i] == table[shard][leafIds[i]].key
  }

  lemma BucketFilled<V>(table: Table<V>, bits: nat, prefix: nat, packed: seq<nat>, b: MicroBucket)
    requires bits <= 64 && AtHome(table) && 0 < |packed| == b.count <= |b.keys| == |b.leafIds|
    requires forall i :: 0 <= i < |packed| ==> SlotFilled(table, packed, b.shardId, b.keys, b.leafIds, i)
    requires Enumerates(table, bits, prefix, packed)
    ensures BucketOk(table, prefix, bits, b)
  {
    hide Scatter, FrontPrefix, ShardOf, UnpackFrontLeaf, PackFrontLeaf, LeafHasPrefix, AtHome, LeavesOf, Enumerates;
    EnumerationSize(table, bits, prefix, packed);
    assert SlotFilled(table, packed, b.shardId, b.keys, b.leafIds, 0);
    forall slot | 0 <= slot < b.count
      ensures b.leafIds[slot] < |table[b.shardId]| && table[b.shardId][b.leafIds[slot]].key == b.keys[slot]
    {
      assert SlotFilled(table, packed, b.shardId, b.keys, b.leafIds, slot);
    }
    EnumeratesDistinct(table, bits, prefix, packed);
    SlotsDistinct(table, packed, b.shardId, b.keys, b.leafIds);
    forall s: nat, l: nat | LeafHasPrefix(table, s, l, prefix, bits)
      ensures s == b.shardId && l in b.leafIds[..b.count]
    {
      SlotFound(table, bits, prefix, packed, b, s, l);
    }
  }

  lemma EnumeratesAll<V>(table: Table<V>, bits: nat, prefix: nat, packed: seq<nat>, s: nat, l: nat)
    requires bits <= 64 && Enumerates(table, bits, prefix, packed) && LeafHasPrefix(table, s, l, prefix, bits)
    ensures PackFrontLeaf(s, l) in packed
  {
  }

  lemma EnumeratesDistinct<V>(table: Table<V>, bits: nat, prefix: nat, packed: seq<nat>)
    requires bits <= 64 && Enumerates(table, bits, prefix, packed)
    ensures Distinct(packed)
  {
  }

  lemma SlotsDistinct<V>(table: Table<V>, packed: seq<nat>, shard: nat, keys: seq<u64>, leafIds: seq<nat>)
    requires Distinct(packed) && |packed| <= |keys| == |leafIds|
    requires forall i :: 0 <= i < |packed| ==> SlotFilled(table, packed, shard, keys, leafIds, i)
    ensures forall i, j :: 0 <= i < j < |packed| ==> leafIds[i] != leafIds[j]
  {
    hide UnpackFrontLeaf;
    forall i, j | 0 <= i < j < |packed|
      ensures leafIds[i] != leafIds[j]
    {
      assert SlotFilled(table, packed, shard, keys, leafIds, i);
      assert SlotFilled(table, packed, shard, keys, leafIds, j);
      UnpackInjective(packed[i], packed[j]);
    }
  }

  lemma SlotFound<V>(table: Table<V>, bits: nat, prefix: nat, packed: seq<nat>, b: MicroBucket, s: nat, l: nat)
    requires bits <= 64 && AtHome(table) && |packed| == b.count <= |b.keys| == |b.leafIds|
    requires forall i :: 0 <= i < |packed| ==> SlotFilled(table, packed, b.shardId, b.keys, b.leafIds, i)
    requires Enumerates(table, bits, prefix, packed) && LeafHasPrefix(table, s, l, prefix, bits)
    ensures s == b.shardId && l in b.leafIds[..b.count]
  {
    hide Scatter, FrontPrefix, UnpackFrontLeaf, PackFrontLeaf, AtHome, Enumerates, LeafHasPrefix;
    EnumeratesAll(table, bits, prefix, packed, s, l);
    AllListed(table, bits, prefix, packed, s, l);
    var i :| 0 <= i < |packed| && UnpackFrontLeaf(packed[i]) == (s, l);
    assert SlotFilled(table, packed, b.shardId, b.keys, b.leafIds, i);
    assert b.leafIds[..b.count][i] == l;
  }

  lemma InTable<V>(table: Table<V>, bits: nat, prefix: nat, packed: seq<nat>, i: nat)
    requires bits <= 64 && Listed(table, bits, prefix, packed) && i < |packed|
    ensures var (s, l) := UnpackFrontLeaf(packed[i]);
            s < |table| && l < |table[s]| && LeafHasPrefix(table, s, l, prefix, bits)
  {
  }

  lemma AllListed<V>(table: Table<V>, bits: nat, prefix: nat, packed: seq<nat>, s: nat, l: nat)
    requires bits <= 64 && AtHome(table) && LeafHasPrefix(table, s, l, prefix, bits)
    requires PackFrontLeaf(s, l) in packed
    ensures exists i :: 0 <= i < |packed| && UnpackFrontLeaf(packed[i]) == (s, l)
  {
    hide UnpackFrontLeaf, PackFrontLeaf, FrontPrefix, Scatter;
    LeafRoundTrip(s, l);
    var i :| 0 <= i < |packed| && packed[i] == PackFrontLeaf(s, l);
  }

  lemma OneShard<V>(table: Table<V>, bits: nat, prefix: nat, s: nat, l: nat, s': nat, l': nat)
    requires 8 <= bits <= 64 && AtHome(table)
    requires LeafHasPrefix(table, s, l, prefix, bits) && LeafHasPrefix(table, s', l', prefix, bits)
    ensures s == s'
  {
    hide Scatter, Shr, ShardOf;
    PrefixDeterminesShard(Scatter(table[s][l].key), Scatter(table[s'][l'].key), bits, |table|);
  }

  /** The right word for each prefix of one to sixteen leaves, and none for the others. */
  method BuildWords<V>(table: Table<V>, bits: nat, buckets: map<nat, seq<nat>>)
    returns (entries: seq<(nat, nat)>, micro4: seq<MicroBucket>, micro8: seq<MicroBucket>, micro16: seq<MicroBucket>)
    requires 8 <= bits <= 64 && AtHome(table) && Pow2(bits) <= TWO_32 && Grouped(table, bits, buckets, |table|, 0)
    ensures |entries| <= Pow2(bits) && forall i :: 0 <= i < |entries| ==> entries[i].0 < Pow2(bits)
    ensures AllWordsOk(table, bits, Pow2(bits), entries, micro4, micro8, micro16)
  {
    hide Scatter, Shr, FrontPrefix, ShardOf, AtHome, WordOk, WordFor, Pack, Unpack, BucketOk, Grouped, Listed, Enumerates,
      LeafHasPrefix, LeavesOf, UnpackFrontLeaf, PackFrontLeaf;
    entries, micro4, micro8, micro16 := [], [], [], [];
    for prefix := 0 to Pow2(bits)
      invariant |entries| <= prefix && forall i :: 0 <= i < |entries| ==> entries[i].0 < prefix
      invariant |micro4| <= prefix && |micro8| <= prefix && |micro16| <= prefix
      invariant AllWordsOk(table, bits, prefix, entries, micro4, micro8, micro16)
    {
      ghost var before4, before8, before16 := micro4, micro8, micro16;
      var word := NoWord;
      if prefix in buckets {
        var packed := buckets[prefix];
        BucketComplete(table, bits, buckets, prefix);
        EnumerationSize(table, bits, prefix, packed);
        if |packed| == 1 {
          word := Single(UnpackFrontLeaf(packed[0]).0, UnpackFrontLeaf(packed[0]).1);
          SingleOk(table, bits, prefix, packed, micro4, micro8, micro16);
        } else if 2 <= |packed| <= 4 {
          var bucket := MakeBucket(table, bits, prefix, packed, 4);
          word := Micro4(|micro4|);
          micro4 := micro4 + [bucket];
        } else if 5 <= |packed| <= 8 {
          var bucket := MakeBucket(table, bits, prefix, packed, 8);
          word := Micro8(|micro8|);
          micro8 := micro8 + [bucket];
        } else if 9 <= |packed| <= 16 {
          var bucket := MakeBucket(table, bits, prefix, packed, 16);
          word := Micro16(|micro16|);
          micro16 := micro16 + [bucket];
        }
      } else {
        NoLeaves(table, bits, buckets, prefix);
      }
      MicroOk(table, bits, prefix, word, micro4, micro8, micro16);
      WordsGrow(table, bits, prefix, entries, before4, before8, before16, micro4, micro8, micro16);
      PackRoundTrip(word);
      WordAdded(table, bits, entries, prefix, word, micro4, micro8, micro16);
      if Pack(word) != FRONT_EMPTY {
        entries := entries + [(prefix, Pack(word))];
      }
    }
  }

  /** Every prefix below `upto` has its right word. */
  ghost predicate AllWordsOk<V>(table: Table<V>, bits: nat, upto: nat, entries: seq<(nat, nat)>,
                                micro4: seq<MicroBucket>, micro8: seq<MicroBucket>, micro16: seq<MicroBucket>)
    requires bits <= 64
  {
    forall p: nat :: p < upto ==> WordOk(table, p, bits, Unpack(WordFor(entries, p)), micro4, micro8, micro16)
  }

  lemma NoLeaves<V>(table: Table<V>, bits: nat, buckets: map<nat, seq<nat>>, prefix: nat)
    requires bits <= 64 && Grouped(table, bits, buckets, |table|, 0) && prefix !in buckets
    ensures LeavesOf(table, prefix, bits) == {}
  {
    hide FrontPrefix, Scatter, PackFrontLeaf, UnpackFrontLeaf;
    forall s: nat, l: nat | s < |table| && l < |table[s]|
      ensures !LeafHasPrefix(table, s, l, prefix, bits)
    {
      assert Before(s, l, |table|, 0);
    }
  }

  lemma BucketComplete<V>(table: Table<V>, bits: nat, buckets: map<nat, seq<nat>>, prefix: nat)
    requires bits <= 64 && Grouped(table, bits, buckets, |table|, 0) && prefix in buckets
    ensures Enumerates(table, bits, prefix, buckets[prefix]) && buckets[prefix] != []
  {
    hide FrontPrefix, Scatter, PackFrontLeaf, UnpackFrontLeaf;
    forall s: nat, l: nat | LeafHasPrefix(table, s, l, prefix, bits)
      ensures PackFrontLeaf(s, l) in buckets[prefix]
    {
      assert Before(s, l, |table|, 0);
    }
  }

  lemma SingleOk<V>(table: Table<V>, bits: nat, prefix: nat, packed: seq<nat>,
                    micro4: seq<MicroBucket>, micro8: seq<MicroBucket>, micro16: seq<MicroBucket>)
    requires bits <= 64 && AtHome(table) && |packed| == 1 && Enumerates(table, bits, prefix, packed)
    ensures var w := Single(UnpackFrontLeaf(packed[0]).0, UnpackFrontLeaf(packed[0]).1);
            WordOk(table, prefix, bits, w, micro4, micro8, micro16) && WordFits(w)
  {
    hide UnpackFrontLeaf, PackFrontLeaf, FrontPrefix, Scatter;
    InTable(table, bits, prefix, packed, 0);
    EnumerationSize(table, bits, prefix, packed);
    forall s: nat, l: nat | LeafHasPrefix(table, s, l, prefix, bits)
      ensures UnpackFrontLeaf(packed[0]) == (s, l)
    {
      AllListed(table, bits, prefix, packed, s, l);
    }
  }

  lemma MicroOk<V>(table: Table<V>, bits: nat, prefix: nat, word: Word,
                   micro4: seq<MicroBucket>, micro8: seq<MicroBucket>, micro16: seq<MicroBucket>)
    requires bits <= 64
    requires |micro4| <= TWO_32 + 1 && |micro8| <= TWO_32 + 1 && |micro16| <= TWO_32 + 1
    requires match word
             case Single(_, _) => WordOk(table, prefix, bits, word, micro4, micro8, micro16) && WordFits(word)
             case Micro4(b) => b + 1 == |micro4| && BucketOk(table, prefix, bits, micro4[b])
             case Micro8(b) => b + 1 == |micro8| && BucketOk(table, prefix, bits, micro8[b])
             case Micro16(b) => b + 1 == |micro16| && BucketOk(table, prefix, bits, micro16[b])
             case NoWord => true
    requires Sized(word, |LeavesOf(table, prefix, bits)|)
    ensures WordOk(table, prefix, bits, word, micro4, micro8, micro16) && WordFits(word)
  {
    hide BucketOk, LeafHasPrefix, LeavesOf, Sized;
  }

  lemma WordsGrow<V>(table: Table<V>, bits: nat, upto: nat, entries: seq<(nat, nat)>,
                     micro4: seq<MicroBucket>, micro8: seq<MicroBucket>, micro16: seq<MicroBucket>,
                     micro4': seq<MicroBucket>, micro8': seq<MicroBucket>, micro16': seq<MicroBucket>)
    requires bits <= 64 && AllWordsOk(table, bits, upto, entries, micro4, micro8, micro16)
    requires micro4 <= micro4' && micro8 <= micro8' && micro16 <= micro16'
    ensures AllWordsOk(table, bits, upto, entries, micro4', micro8', micro16')
  {
    hide BucketOk, LeafHasPrefix, LeavesOf, Sized, Unpack, WordFor;
  }

  /** One prefix more: its word is appended unless it is the empty one. */
  lemma WordAdded<V>(table: Table<V>, bits: nat, entries: seq<(nat, nat)>, prefix: nat, word: Word,
                     micro4: seq<MicroBucket>, micro8: seq<MicroBucket>, micro16: seq<MicroBucket>)
    requires bits <= 64 && AllWordsOk(table, bits, prefix, entries, micro4, micro8, micro16)
    requires forall i :: 0 <= i < |entries| ==> entries[i].0 < prefix
    requires WordOk(table, prefix, bits, word, micro4, micro8, micro16) && Unpack(Pack(word)) == word
    ensures var entries' := if Pack(word) == FRONT_EMPTY then entries else entries + [(prefix, Pack(word))];
            AllWordsOk(table, bits, prefix + 1, entries', micro4, micro8, micro16)
  {
    hide BucketOk, LeafHasPrefix, Unpack, Pack, WordOk;
    NotYetListed(entries, prefix);
    var more := entries + [(prefix, Pack(word))];
    assert more[..|entries|] == entries;
    var entries' := if Pack(word) == FRONT_EMPTY then entries else more;
    forall p: nat | p < prefix + 1
      ensures WordOk(table, p, bits, Unpack(WordFor(entries', p)), micro4, micro8, micro16)
    {
      assert WordFor(entries', p) == if p == prefix then Pack(word) else WordFor(entries, p);
    }
  }

  lemma {:induction false} NotYetListed(entries: seq<(nat, nat)>, prefix: nat)
    requires forall i :: 0 <= i < |entries| ==> entries[i].0 < prefix
    ensures WordFor(entries, prefix) == FRONT_EMPTY
  {
    if entries != [] {
      NotYetListed(entries[..|entries| - 1], prefix);
    }
  }

  lemma ListsIsSealed<V>(table: Table<V>, bits: nat, dir: FrontDirectory, entries: seq<(nat, nat)>,
                         micro4: seq<MicroBucket>, micro8: seq<MicroBucket>, micro16: seq<MicroBucket>)
    requires bits <= 64 && Lists(dir, Pow2(bits), entries)
    requires AllWordsOk(table, bits, Pow2(bits), entries, micro4, micro8, micro16)
    ensures SealedOk(table, bits, dir, micro4, micro8, micro16)
  {
    hide WordOk, WordFor, Unpack, Pow2;
  }

  /** The directory of a profile over the leaves of all shards. */
  method BuildFrontDirectory<V>(profile: LookupProfile, table: Table<V>)
    returns (dir: FrontDirectory, micro4: seq<MicroBucket>, micro8: seq<MicroBucket>, micro16: seq<MicroBucket>)
    requires AtHome(table)
    ensures SealedOk(table, FrontBits(profile), dir, micro4, micro8, micro16)
  {
    hide AtHome, Lists, AllWordsOk, SealedOk, Pow2;
    Pow2Values();
    var bits := FrontBits(profile);
    var buckets := GroupByPrefix(table, bits);
    var entries;
    entries, micro4, micro8, micro16 := BuildWords(table, bits, buckets);
    var length := Pow2(bits);
    match profile {
      case Speed => dir := BuildDense(length, entries);
      case Balanced => dir := BuildSparse(length, entries);
      case Memory => dir := BuildSparse(length, entries);
    }
    ListsIsSealed(table, bits, dir, entries, micro4, micro8, micro16);
  }
}
