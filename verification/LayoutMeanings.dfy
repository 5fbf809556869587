/** What a layout is, without saying how it is computed: every member has room where its
    alignment allows, no two members of a struct share a byte, and nothing is larger or
    further out than that takes. */
module LayoutMeanings {
  import opened Wrappers
  import opened Scattering
  import opened RangeTexts
  import opened Layouts
  import opened LayoutModels

  // ----- the specification -----

  /** The strictest alignment of some members, and of a byte. */
  ghost predicate Strictest(ls: seq<Layout>, a: nat) {
    && a >= 1
    && (forall i :: 0 <= i < |ls| ==> ls[i].align <= a)
    && (a == 1 || exists i :: 0 <= i < |ls| && ls[i].align == a)
  }

  /** Members one behind the other, each at a multiple of its alignment, all below `end`. */
  ghost predicate Placed(ls: seq<Layout>, at: seq<nat>, end: nat) {
    && |at| == |ls|
    && (forall i :: 0 <= i < |ls| ==> Multiple(at[i], ls[i].align) && at[i] + ls[i].size <= end)
    && (forall i, j :: 0 <= i < j < |ls| ==> at[i] + ls[i].size <= at[j])
  }

  /** The struct of these members in this order: the least such placement. */
  ghost predicate IsStruct(ls: seq<Layout>, at: seq<nat>, l: Layout) {
    && Strictest(ls, l.align)
    && Multiple(l.size, l.align)
    && Placed(ls, at, l.size)
    && forall b: seq<nat>, n: nat :: Placed(ls, b, n) && Multiple(n, l.align) ==> l.size <= n && forall i :: 0 <= i < |ls| ==> at[i] <= b[i]
  }

  ghost predicate Covers(ls: seq<Layout>, at: nat, end: nat) {
    at <= end && forall i :: 0 <= i < |ls| ==> Multiple(at, ls[i].align) && at + ls[i].size <= end
  }

  /** Members that all start at the beginning, in the least space. */
  ghost predicate IsUnion(ls: seq<Layout>, l: Layout) {
    && Strictest(ls, l.align)
    && Multiple(l.size, l.align)
    && Covers(ls, 0, l.size)
    && forall n: nat :: Covers(ls, 0, n) && Multiple(n, l.align) ==> l.size <= n
  }

  /** A tag of four bytes and behind it, at one common place, the payloads. */
  ghost predicate IsTagged(ps: seq<Layout>, at: nat, l: Layout) {
    && Strictest([Scalar(4)] + ps, l.align)
    && Multiple(l.size, l.align)
    && at >= 4
    && Covers(ps, at, l.size)
    && forall b: nat, n: nat :: b >= 4 && Covers(ps, b, n) && Multiple(n, l.align) ==> at <= b && l.size <= n
  }

  /** No other placement is the least one. */
  lemma StructUnique(ls: seq<Layout>, a: seq<nat>, l: Layout, b: seq<nat>, k: Layout)
    requires IsStruct(ls, a, l) && IsStruct(ls, b, k)
    ensures l == k && a == b
  {
    assert l.align == k.align;
    assert Placed(ls, a, l.size) && Placed(ls, b, k.size);
    assert forall i :: 0 <= i < |ls| ==> a[i] == b[i];
  }

  // ----- aggregates -----

  lemma NextMultiple(n: nat, align: nat, x: nat)
    requires align > 0 && n <= x && Multiple(x, align)
    ensures AlignTo(n, align) <= x
  {
    AlignToMonotone(n, x, align);
    AlreadyAligned(x, align);
  }

  lemma MaxAlignStrictest(ls: seq<Layout>)
    ensures Strictest(ls, MaxAlign(ls))
  {
    MaxAlignIsOne(ls);
    forall i | 0 <= i < |ls| ensures ls[i].align <= MaxAlign(ls) {
      MaxAlignIsMax(ls, i);
    }
  }

  function Offsets(ls: seq<Layout>): (at: seq<nat>)
    ensures |at| == |ls| && forall i :: 0 <= i < |ls| ==> at[i] == OffsetAt(ls, i)
  {
    seq(|ls|, i requires 0 <= i < |ls| => OffsetAt(ls, i))
  }

  lemma OffsetsExtend(ls: seq<Layout>)
    requires ls != []
    ensures Offsets(ls) == Offsets(ls[..|ls| - 1]) + [OffsetAt(ls, |ls| - 1)]
  {
    var front := ls[..|ls| - 1];
    forall i | 0 <= i < |front|
      ensures OffsetAt(ls, i) == OffsetAt(front, i)
    {
      assert front[..i] == ls[..i];
    }
  }

  lemma {:induction false} OffsetsPlace(ls: seq<Layout>)
    requires forall l :: l in ls ==> l.align > 0
    ensures Placed(ls, Offsets(ls), End(ls))
    decreases |ls|
  {
    hide AlignTo, Offsets, Multiple, Placed;
    if ls == [] {
      NothingPlaced();
      assert Offsets(ls) == [];
    } else {
      var front, last := ls[..|ls| - 1], ls[|ls| - 1];
      OffsetsPlace(front);
      OffsetsExtend(ls);
      assert last in ls;
      AlignToBounds(End(front), last.align);
      PlacedBehind(front, Offsets(front), End(front), last, OffsetAt(ls, |ls| - 1));
      assert ls == front + [last];
    }
  }

  lemma NothingPlaced()
    ensures Placed([], [], 0)
  {
  }

  lemma PlacedBehind(ls: seq<Layout>, at: seq<nat>, end: nat, last: Layout, off: nat)
    requires Placed(ls, at, end) && end <= off && Multiple(off, last.align)
    ensures Placed(ls + [last], at + [off], off + last.size)
  {
    hide Multiple;
  }

  lemma {:induction false} OffsetsLeast(ls: seq<Layout>, at: seq<nat>, end: nat)
    requires Placed(ls, at, end) && forall l :: l in ls ==> l.align > 0
    ensures End(ls) <= end && forall i :: 0 <= i < |ls| ==> Offsets(ls)[i] <= at[i]
    decreases |ls|
  {
    hide AlignTo, Offsets, Multiple;
    if ls != [] {
      var n := |ls| - 1;
      var front := ls[..n];
      OffsetsLeast(front, at[..n], at[n]);
      OffsetsExtend(ls);
      assert ls[n] in ls;
      NextMultiple(End(front), ls[n].align, at[n]);
    }
  }

  /** The C rule gives the least placement. */
  lemma AggregateIsStruct(ls: seq<Layout>)
    requires forall l :: l in ls ==> l.align > 0
    ensures IsStruct(ls, Offsets(ls), Aggregate(ls))
  {
    hide AlignTo, Offsets, Multiple, Placed, End, MaxAlign, Strictest;
    var whole := Aggregate(ls);
    OffsetsPlace(ls);
    MaxAlignStrictest(ls);
    AlignToBounds(End(ls), MaxAlign(ls));
    PlacedBelow(ls, Offsets(ls), End(ls), whole.size);
    forall b, n | Placed(ls, b, n) && Multiple(n, whole.align)
      ensures whole.size <= n && forall i :: 0 <= i < |ls| ==> Offsets(ls)[i] <= PlaceOf(ls, b, n, i)
    {
      OffsetsLeast(ls, b, n);
      NextMultiple(End(ls), whole.align, n);
    }
  }

  ghost function PlaceOf(ls: seq<Layout>, at: seq<nat>, end: nat, i: nat): nat
    requires Placed(ls, at, end) && i < |ls|
  {
    at[i]
  }

  lemma PlacedBelow(ls: seq<Layout>, at: seq<nat>, end: nat, more: nat)
    requires Placed(ls, at, end) && end <= more
    ensures Placed(ls, at, more)
  {
  }

  // ----- overlapping members -----

  /** The size of overlapping members is the widest one's. */
  lemma {:induction false} OverlapWidest(ls: seq<Layout>)
    ensures forall i :: 0 <= i < |ls| ==> ls[i].size <= Overlap(ls).size
    ensures Overlap(ls).size == 0 || exists i :: 0 <= i < |ls| && ls[i].size == Overlap(ls).size
    decreases |ls|
  {
    if ls != [] {
      var front, last := ls[..|ls| - 1], ls[|ls| - 1];
      OverlapWidest(front);
      if Overlap(ls).size == last.size {
        var k := |ls| - 1;
        assert 0 <= k < |ls| && ls[k].size == Overlap(ls).size;
      } else if Overlap(front).size > 0 {
        var i :| 0 <= i < |front| && front[i].size == Overlap(front).size;
        assert ls[i].size == Overlap(ls).size;
      }
    }
  }

  lemma OverlapStrictest(ls: seq<Layout>)
    ensures Strictest(ls, Overlap(ls).align)
  {
    hide Strictest;
    OverlapAlign(ls);
    MaxAlignStrictest(ls);
  }

  lemma OverlapBelow(ls: seq<Layout>, at: nat, n: nat)
    requires Covers(ls, at, n)
    ensures at + Overlap(ls).size <= n
  {
    hide Multiple, Overlap;
    OverlapWidest(ls);
  }

  lemma ZeroIsMultiple(d: nat)
    ensures Multiple(0, d)
  {
    assert 0 == 0 * d;
  }

  lemma UnionIsUnion(ls: seq<Layout>)
    ensures IsUnion(ls, UnionLayout(ls))
  {
    hide Overlap, AlignTo, Multiple, Strictest;
    OverlapWidest(ls);
    OverlapStrictest(ls);
    var o, l := Overlap(ls), UnionLayout(ls);
    assert o.align >= 1 by { OverlapAlign(ls); }
    AlignToBounds(o.size, o.align);
    forall i | 0 <= i < |ls| ensures Multiple(0, ls[i].align) {
      ZeroIsMultiple(ls[i].align);
    }
    forall n: nat | Covers(ls, 0, n) && Multiple(n, l.align) ensures l.size <= n {
      OverlapBelow(ls, 0, n);
      NextMultiple(o.size, o.align, n);
    }
  }

  /** A multiple of the strictest alignment suits every member, and only such a one does. */
  lemma SuitsAll(ls: seq<Layout>, a: nat, at: nat)
    requires Strictest(ls, a) && forall l :: l in ls ==> Aligned(l)
    ensures Multiple(at, a) <==> forall i :: 0 <= i < |ls| ==> Multiple(at, ls[i].align)
  {
    hide Multiple, PowerOfTwo;
    if Multiple(at, a) {
      forall i | 0 <= i < |ls| ensures Multiple(at, ls[i].align) {
        assert Aligned(ls[i]);
        StrictestIsPower(ls, a);
        PowersDivide(a, ls[i].align);
        MultipleOfMultiple(at, a, ls[i].align);
      }
    } else if a == 1 {
      OneDivides(at);
    }
  }

  lemma OneDivides(n: nat)
    ensures Multiple(n, 1)
  {
    assert n == n * 1;
  }

  lemma StrictestIsPower(ls: seq<Layout>, a: nat)
    requires Strictest(ls, a) && forall l :: l in ls ==> Aligned(l)
    ensures PowerOfTwo(a)
  {
    if a == 1 {
      PowersAligned();
    } else {
      var i :| 0 <= i < |ls| && ls[i].align == a;
      assert Aligned(ls[i]);
    }
  }

  /** Where the payloads of a tagged enum start. */
  function PayloadAt(ps: seq<Layout>): nat { AlignTo(4, Overlap(ps).align) }

  lemma TaggedIs(ps: seq<Layout>)
    ensures var o, a := Overlap(ps), Max(4, Overlap(ps).align);
      TaggedLayout(ps) == Layout(AlignTo(PayloadAt(ps) + o.size, a), a) && o.align >= 1
  {
    hide AlignTo, Overlap;
    OverlapAlign(ps);
    TaggedAlign(ps);
    var two := [Scalar(4), Overlap(ps)];
    assert two[..1] == [Scalar(4)] && [Scalar(4)][..0] == [];
    assert End([Scalar(4)]) == AlignTo(0, 4) + 4;
    assert AlignTo(0, 4) == 0 by { ZeroIsMultiple(4); AlreadyAligned(0, 4); }
    assert End(two) == PayloadAt(ps) + Overlap(ps).size;
  }

  lemma TaggedIsTagged(ps: seq<Layout>)
    requires forall l :: l in ps ==> Aligned(l)
    ensures IsTagged(ps, PayloadAt(ps), TaggedLayout(ps))
  {
    hide Overlap, AlignTo, Multiple, Strictest, Aligned, TaggedLayout;
    OverlapWidest(ps);
    OverlapStrictest(ps);
    TaggedIs(ps);
    var o, at, l := Overlap(ps), PayloadAt(ps), TaggedLayout(ps);
    AlignToBounds(4, o.align);
    AlignToBounds(at + o.size, l.align);
    SuitsAll(ps, o.align, at);
    StrictestBehind(ps, o.align);
    forall b: nat, n: nat | b >= 4 && Covers(ps, b, n) && Multiple(n, l.align)
      ensures at <= b && l.size <= n
    {
      SuitsAll(ps, o.align, b);
      NextMultiple(4, o.align, b);
      OverlapBelow(ps, b, n);
      NextMultiple(at + o.size, l.align, n);
    }
  }

  lemma StrictestBehind(ps: seq<Layout>, a: nat)
    requires Strictest(ps, a)
    ensures Strictest([Scalar(4)] + ps, Max(4, a))
  {
    var all := [Scalar(4)] + ps;
    assert all[0].align == 4;
    assert forall i :: 0 <= i < |ps| ==> all[i + 1] == ps[i];
  }

  // ----- reordering -----

  /** These members in some order, in the smallest struct that any order of them has. */
  ghost predicate IsSmallestStruct(ls: seq<Layout>, l: Layout) {
    && (exists fs: seq<Layout>, at: seq<nat> :: multiset(fs) == multiset(ls) && IsStruct(fs, at, l))
    && forall gs: seq<Layout>, b: seq<nat>, k: Layout :: multiset(gs) == multiset(ls) && IsStruct(gs, b, k) ==> l.size <= k.size
  }

  lemma AutoIsSmallest(ls: seq<Layout>)
    requires forall l :: l in ls ==> Aligned(l)
    ensures IsSmallestStruct(ls, Aggregate(Auto(ls)))
  {
    hide Aggregate, Auto, IsStruct, Aligned;
    AutoKeepsFields(ls);
    SameMembersPositive(ls, Auto(ls));
    AggregateIsStruct(Auto(ls));
    forall gs: seq<Layout>, b: seq<nat>, k: Layout | multiset(gs) == multiset(ls) && IsStruct(gs, b, k)
      ensures Aggregate(Auto(ls)).size <= k.size
    {
      SameMembersPositive(ls, gs);
      AggregateIsStruct(gs);
      StructUnique(gs, b, k, Offsets(gs), Aggregate(gs));
      AutoIsBest(ls, gs);
    }
  }

  lemma SameMembersPositive(ls: seq<Layout>, gs: seq<Layout>)
    requires multiset(gs) == multiset(ls) && forall l :: l in ls ==> Aligned(l)
    ensures forall l :: l in gs ==> l.align > 0
  {
    forall l | l in gs ensures l.align > 0 {
      assert l in multiset(gs);
      assert l in ls && Aligned(l);
      AlignedPositive(l);
    }
  }

  lemma AlignedPositive(l: Layout)
    requires Aligned(l)
    ensures l.align > 0
  {
    var e: nat :| l.align == Pow2(e);
    Pow2Positive(e);
  }

  lemma {:induction false} Pow2Positive(e: nat)
    ensures Pow2(e) > 0
  {
    if e > 0 {
      Pow2Positive(e - 1);
    }
  }

  // ----- the checked table -----

  /** The layouts of some types, one by one. */
  ghost predicate Members(table: seq<Row>, m: Model, ts: seq<Ty>, fuel: nat, ls: seq<Layout>) {
    |ls| == |ts| && forall i :: 0 <= i < |ts| ==> LayoutOf(table, m, ts[i], fuel) == Some(ls[i])
  }

  /** The structs of some variants' payloads. */
  ghost predicate Variants(table: seq<Row>, m: Model, vs: seq<seq<Ty>>, fuel: nat, ps: seq<Layout>) {
    |ps| == |vs| && forall i :: 0 <= i < |vs| ==> PayloadSays(table, m, vs[i], fuel, ps[i])
  }

  ghost predicate PayloadSays(table: seq<Row>, m: Model, ts: seq<Ty>, fuel: nat, p: Layout) {
    exists ls: seq<Layout>, at: seq<nat> :: Members(table, m, ts, fuel, ls) && IsStruct(ls, at, p)
  }

  lemma {:induction false} MembersAre(table: seq<Row>, m: Model, ts: seq<Ty>, fuel: nat)
    requires LayoutsOf(table, m, ts, fuel).Some?
    ensures Members(table, m, ts, fuel, LayoutsOf(table, m, ts, fuel).value)
    ensures forall l :: l in LayoutsOf(table, m, ts, fuel).value ==> Aligned(l) && l.align > 0
    decreases |ts|
  {
    hide Aligned, LayoutOf;
    if ts != [] {
      MembersAre(table, m, ts[..|ts| - 1], fuel);
      var last := ts[|ts| - 1];
      LayoutAligned(table, m, last, fuel);
      AlignedPositive(LayoutOf(table, m, last, fuel).value);
    }
  }

  lemma {:induction false} VariantsAre(table: seq<Row>, m: Model, vs: seq<seq<Ty>>, fuel: nat)
    requires Payloads(table, m, vs, fuel).Some?
    ensures Variants(table, m, vs, fuel, Payloads(table, m, vs, fuel).value)
    decreases |vs|
  {
    hide LayoutsOf, Members, IsStruct, Aggregate, Aligned;
    if vs != [] {
      var last := vs[|vs| - 1];
      VariantsAre(table, m, vs[..|vs| - 1], fuel);
      MembersAre(table, m, last, fuel);
      AggregateIsStruct(LayoutsOf(table, m, last, fuel).value);
      assert PayloadSays(table, m, last, fuel, Aggregate(LayoutsOf(table, m, last, fuel).value));
      hide PayloadSays;
    }
  }

  /** An enum that is a pointer: one variant holds a single pointer, the other nothing. */
  predicate IsNullable(vs: seq<seq<Ty>>) { vs == [[], [Pointer]] || vs == [[Pointer], []] }

  lemma NicheIsNullable(vs: seq<seq<Ty>>)
    ensures NicheTypes(vs) <==> IsNullable(vs)
  {
    if NicheTypes(vs) {
      assert vs == [vs[0], vs[1]];
    }
  }

  /** What the layout of a declared type is, given those of the types inside it. */
  ghost predicate NamedSays(table: seq<Row>, m: Model, i: nat, fuel: nat, l: Layout)
    requires i < |table|
  {
    match table[i].kind
    case Struct(fields) => exists ls: seq<Layout> :: Members(table, m, fields, fuel, ls) && StructSays(m, table[i].name, ls, l)
    case Enum(variants) =>
      if IsNullable(variants) then l == Layout(8, 8)
      else exists ps: seq<Layout>, at: nat :: Variants(table, m, variants, fuel, ps) && IsTagged(ps, at, l)
    case Distinct(base) => LayoutOf(table, m, base, fuel) == Some(l)
  }

  ghost predicate StructSays(m: Model, name: Ident, ls: seq<Layout>, l: Layout) {
    if name in m.unions then IsUnion(ls, l)
    else if name in m.auto then IsSmallestStruct(ls, l)
    else exists at: seq<nat> :: IsStruct(ls, at, l)
  }

  lemma NamedMeans(table: seq<Row>, m: Model, i: nat, fuel: nat)
    requires NamedLayout(table, m, i, fuel).Some?
    ensures fuel > 0 && i < |table| && NamedSays(table, m, i, fuel - 1, NamedLayout(table, m, i, fuel).value)
  {
    hide Members, Variants, IsUnion, IsStruct, IsTagged, IsSmallestStruct, NicheTypes, IsNullable, Aligned,
      UnionLayout, Aggregate, Auto, TaggedLayout, LayoutsOf, Payloads;
    match table[i].kind
    case Struct(fields) =>
      MembersAre(table, m, fields, fuel - 1);
      var ls := LayoutsOf(table, m, fields, fuel - 1).value;
      UnionIsUnion(ls);
      AutoIsSmallest(ls);
      AggregateIsStruct(ls);
    case Enum(variants) =>
      NicheIsNullable(variants);
      if !NicheTypes(variants) {
        VariantsAre(table, m, variants, fuel - 1);
        PayloadsAligned(table, m, variants, fuel - 1);
        TaggedIsTagged(Payloads(table, m, variants, fuel - 1).value);
      }
    case Distinct(base) =>
  }

  // ----- other types -----

  function Copies(l: Layout, n: nat): (ls: seq<Layout>)
    ensures |ls| == n && forall i :: 0 <= i < n ==> ls[i] == l
  {
    seq(n, i => l)
  }

  lemma {:induction false} CopiesEnd(l: Layout, n: nat)
    requires l.align > 0 && Multiple(l.size, l.align)
    ensures End(Copies(l, n)) == l.size * n && Multiple(l.size * n, l.align)
    ensures n > 0 ==> MaxAlign(Copies(l, n)) == l.align
    decreases n
  {
    hide AlignTo, Multiple;
    if n == 0 {
      ZeroIsMultiple(l.align);
      assert Copies(l, n) == [];
    } else {
      CopiesEnd(l, n - 1);
      assert Copies(l, n)[..n - 1] == Copies(l, n - 1);
      AlreadyAligned(l.size * (n - 1), l.align);
      AddMultiples(l.size * (n - 1), l.size, l.align);
      assert l.size * n == l.size * (n - 1) + l.size;
    }
  }

  /** An array is the struct of its elements; an empty one still has their alignment. */
  ghost predicate ArraySays(e: Layout, len: nat, l: Layout) {
    if len == 0 then l == Layout(0, e.align) else exists at: seq<nat> :: IsStruct(Copies(e, len), at, l)
  }

  lemma ArrayIsStruct(e: Layout, len: nat)
    requires Aligned(e)
    ensures ArraySays(e, len, Layout(e.size * len, e.align))
  {
    hide IsStruct, MaxAlign, End, Multiple, PowerOfTwo;
    AlignedPositive(e);
    CopiesEnd(e, len);
    if len > 0 {
      AlreadyAligned(e.size * len, e.align);
      AggregateIsStruct(Copies(e, len));
      assert IsStruct(Copies(e, len), Offsets(Copies(e, len)), Layout(e.size * len, e.align));
    }
  }

  /** Of the primitives: `i` and `u` with the width in bits, floats of 32 and 64 bits, words
      as wide as a pointer, texts as an address and a length, owned ones as three words. */
  ghost predicate PrimSays(n: Ident, l: Layout) {
    || (n in {"bool"} && l == Scalar(1))
    || (n in {"char"} && l == Scalar(4))
    || (n in {"isize", "usize", "cstr", "cptr"} && l == Scalar(8))
    || (exists bytes: nat :: IsNumber(n, bytes) && l == Scalar(bytes))
    || (n in {"str", "os_str"} && exists at: seq<nat> :: IsStruct([Scalar(8), Scalar(8)], at, l))
    || (n in {"String", "Cow", "Builder"} && exists at: seq<nat> :: IsStruct([Scalar(8), Scalar(8), Scalar(8)], at, l))
  }

  predicate IsNumber(n: Ident, bytes: nat) {
    || (bytes in {1, 2, 4, 8} && n in {"i" + Decimal(8 * bytes), "u" + Decimal(8 * bytes)})
    || (bytes in {4, 8} && n == "f" + Decimal(8 * bytes))
  }

  lemma Widths()
    ensures Decimal(8) == "8" && Decimal(16) == "16" && Decimal(32) == "32" && Decimal(64) == "64"
  {
    assert Decimal(1) == "1" && Decimal(3) == "3" && Decimal(6) == "6";
  }

  lemma WordsAre(n: nat, l: Layout)
    requires 0 < n && l == Layout(8 * n, 8)
    ensures exists at: seq<nat> :: IsStruct(Copies(Scalar(8), n), at, l)
  {
    hide IsStruct;
    PowersAligned();
    ScalarAligned(8);
    ArrayIsStruct(Scalar(8), n);
    assert ArraySays(Scalar(8), n, l);
  }

  lemma PrimMeans(n: Ident)
    ensures PrimLayout(n).Some? ==> PrimSays(n, PrimLayout(n).value)
    ensures forall l :: PrimSays(n, l) ==> PrimLayout(n) == Some(l)
  {
    hide Decimal, IsStruct;
    Widths();
    WordsAre(2, Layout(16, 8));
    WordsAre(3, Layout(24, 8));
    assert Copies(Scalar(8), 2) == [Scalar(8), Scalar(8)];
    assert Copies(Scalar(8), 3) == [Scalar(8), Scalar(8), Scalar(8)];
    NumberLayouts(n);
    forall l | PrimSays(n, l)
      ensures PrimLayout(n) == Some(l)
    {
      TextsUnique(n, l);
    }
  }

  lemma NumberLayouts(n: Ident)
    ensures forall bytes: nat :: IsNumber(n, bytes) ==> PrimLayout(n) == Some(Scalar(bytes))
    ensures n in {"i8", "u8"} ==> IsNumber(n, 1)
    ensures n in {"i16", "u16"} ==> IsNumber(n, 2)
    ensures n in {"i32", "u32", "f32"} ==> IsNumber(n, 4)
    ensures n in {"i64", "u64", "f64"} ==> IsNumber(n, 8)
  {
    hide Decimal;
    Widths();
    assert "i" + "8" == "i8" && "i" + "16" == "i16" && "i" + "32" == "i32" && "i" + "64" == "i64";
    assert "u" + "8" == "u8" && "u" + "16" == "u16" && "u" + "32" == "u32" && "u" + "64" == "u64";
    assert "f" + "32" == "f32" && "f" + "64" == "f64";
  }

  lemma TextsUnique(n: Ident, l: Layout)
    ensures n in {"str", "os_str"} && (exists at: seq<nat> :: IsStruct([Scalar(8), Scalar(8)], at, l)) ==> l == Layout(16, 8)
    ensures n in {"String", "Cow", "Builder"} && (exists at: seq<nat> :: IsStruct([Scalar(8), Scalar(8), Scalar(8)], at, l)) ==> l == Layout(24, 8)
  {
    hide IsStruct;
    WordsAre(2, Layout(16, 8));
    WordsAre(3, Layout(24, 8));
    assert Copies(Scalar(8), 2) == [Scalar(8), Scalar(8)];
    assert Copies(Scalar(8), 3) == [Scalar(8), Scalar(8), Scalar(8)];
    forall ls: seq<Layout>, a: seq<nat>, k: Layout, b: seq<nat> | IsStruct(ls, a, l) && IsStruct(ls, b, k)
      ensures l == k
    {
      StructUnique(ls, a, l, b, k);
    }
  }

  /** What the layout of a type is, given those of the types inside it. */
  ghost predicate TypeSays(table: seq<Row>, m: Model, ty: Ty, fuel: nat, l: Layout) {
    match ty
    case Unit => l == Layout(0, 1)
    case Prim(n) => PrimSays(n, l)
    case Pointer => l == Scalar(8)
    case FnPtr => l == Scalar(8)
    case Fat => exists at: seq<nat> :: IsStruct([Scalar(8), Scalar(8)], at, l)
    case Array(len, elem) =>
      LayoutOf(table, m, elem, fuel).Some? && ArraySays(LayoutOf(table, m, elem, fuel).value, len, l)
    case Named(i) => NamedLayout(table, m, i, fuel) == Some(l)
    case Result(ok) =>
      exists o: Layout, at: seq<nat> :: LayoutOf(table, m, ok, fuel) == Some(o) && IsStruct([Scalar(1), o, Scalar(4)], at, l)
    case Unknown => false
  }

  lemma TypeMeans(table: seq<Row>, m: Model, ty: Ty, fuel: nat)
    requires LayoutOf(table, m, ty, fuel).Some?
    ensures fuel > 0 && TypeSays(table, m, ty, fuel - 1, LayoutOf(table, m, ty, fuel).value)
  {
    hide IsStruct, NamedLayout, PrimSays, PrimLayout, Aligned, Aggregate;
    var l := LayoutOf(table, m, ty, fuel).value;
    match ty
    case Prim(n) => PrimMeans(n);
    case Fat =>
      WordsAre(2, l);
      assert Copies(Scalar(8), 2) == [Scalar(8), Scalar(8)];
    case Array(len, elem) =>
      var e := LayoutOf(table, m, elem, fuel - 1).value;
      LayoutAligned(table, m, elem, fuel - 1);
      ArrayIsStruct(e, len);
      hide ArraySays;
    case Result(ok) =>
      var o := LayoutOf(table, m, ok, fuel - 1).value;
      LayoutAligned(table, m, ok, fuel - 1);
      AlignedPositive(o);
      AggregateIsStruct([Scalar(1), o, Scalar(4)]);
    case _ =>
  }

  // ----- the syntax tree -----

  ghost predicate AstMembers(ds: seq<Decl>, ts: seq<TypeExpr>, depth: nat, ls: seq<Layout>) {
    |ls| == |ts| && forall i :: 0 <= i < |ts| ==> AstLayout(ds, ts[i], depth) == Some(ls[i])
  }

  ghost predicate AstPayloadSays(ds: seq<Decl>, ts: seq<TypeExpr>, depth: nat, p: Layout) {
    exists ls: seq<Layout>, at: seq<nat> :: AstMembers(ds, ts, depth, ls) && IsStruct(ls, at, p)
  }

  ghost predicate AstVariants(ds: seq<Decl>, vs: seq<seq<TypeExpr>>, depth: nat, ps: seq<Layout>) {
    |ps| == |vs| && forall i :: 0 <= i < |vs| ==> AstPayloadSays(ds, vs[i], depth, ps[i])
  }

  lemma AstAligned(ds: seq<Decl>, t: TypeExpr, depth: nat)
    requires DistinctNames(ds) && AstLayout(ds, t, depth).Some?
    ensures Aligned(AstLayout(ds, t, depth).value) && AstLayout(ds, t, depth).value.align > 0
  {
    hide AstLayout, LayoutOf, Aligned;
    ModelsAgree(ds, t, depth, depth, depth);
    LayoutAligned(TableOf(ds), ModelOf(ds, depth), Resolved(ds, t), depth);
    AlignedPositive(AstLayout(ds, t, depth).value);
  }

  lemma {:induction false} AstMembersAre(ds: seq<Decl>, ts: seq<TypeExpr>, depth: nat)
    requires DistinctNames(ds) && AstAll(ds, ts, depth).Some?
    ensures AstMembers(ds, ts, depth, AstAll(ds, ts, depth).value)
    ensures forall l :: l in AstAll(ds, ts, depth).value ==> Aligned(l) && l.align > 0
    decreases |ts|
  {
    hide Aligned, AstLayout;
    if ts != [] {
      AstMembersAre(ds, ts[..|ts| - 1], depth);
      AstAligned(ds, ts[|ts| - 1], depth);
    }
  }

  lemma {:induction false} AstVariantsAre(ds: seq<Decl>, vs: seq<seq<TypeExpr>>, depth: nat)
    requires DistinctNames(ds) && AstPayloads(ds, vs, depth).Some?
    ensures AstVariants(ds, vs, depth, AstPayloads(ds, vs, depth).value)
    ensures forall p :: p in AstPayloads(ds, vs, depth).value ==> Aligned(p)
    decreases |vs|
  {
    hide AstAll, AstMembers, IsStruct, Aggregate, Aligned;
    if vs != [] {
      var last := vs[|vs| - 1];
      AstVariantsAre(ds, vs[..|vs| - 1], depth);
      AstMembersAre(ds, last, depth);
      AggregateIsStruct(AstAll(ds, last, depth).value);
      AggregateAligned(AstAll(ds, last, depth).value);
      assert AstPayloadSays(ds, last, depth, Aggregate(AstAll(ds, last, depth).value));
      hide AstPayloadSays;
    }
  }

  predicate IsNullableSyntax(vs: seq<seq<TypeExpr>>) { vs == [[], [TPointer]] || vs == [[TPointer], []] }

  lemma NicheSyntaxIsNullable(vs: seq<seq<TypeExpr>>)
    ensures NicheSyntax(vs) <==> IsNullableSyntax(vs)
  {
    if NicheSyntax(vs) {
      assert vs == [vs[0], vs[1]];
    }
  }

  /** What the layout of a declaration is, given those of the types written in it. */
  ghost predicate DeclSays(ds: seq<Decl>, d: Decl, depth: nat, l: Layout) {
    match d
    case StructDecl(_, fields, auto, isUnion) =>
      exists ls: seq<Layout> :: AstMembers(ds, FieldTypes(fields), depth, ls) && FieldsSay(auto, isUnion, ls, l)
    case EnumDecl(_, _, variants) =>
      if IsNullableSyntax(variants) then l == Layout(8, 8)
      else exists ps: seq<Layout>, at: nat :: AstVariants(ds, variants, depth, ps) && IsTagged(ps, at, l)
    case DistinctDecl(_, base) => AstLayout(ds, base, depth) == Some(l)
  }

  ghost predicate FieldsSay(auto: bool, isUnion: bool, ls: seq<Layout>, l: Layout) {
    if isUnion then IsUnion(ls, l)
    else if auto then IsSmallestStruct(ls, l)
    else exists at: seq<nat> :: IsStruct(ls, at, l)
  }

  lemma DeclMeans(ds: seq<Decl>, n: Ident, depth: nat)
    requires DistinctNames(ds) && AstNamed(ds, n, depth).Some?
    ensures depth > 0 && IndexOf(ds, n).Some?
    ensures DeclSays(ds, ds[IndexOf(ds, n).value], depth - 1, AstNamed(ds, n, depth).value)
  {
    hide AstMembers, AstVariants, IsUnion, IsStruct, IsTagged, IsSmallestStruct, NicheSyntax, IsNullableSyntax, Aligned,
      UnionLayout, Aggregate, Auto, TaggedLayout, AstAll, AstPayloads;
    match ds[IndexOf(ds, n).value]
    case StructDecl(_, fields, auto, isUnion) =>
      AstMembersAre(ds, FieldTypes(fields), depth - 1);
      var ls := AstAll(ds, FieldTypes(fields), depth - 1).value;
      UnionIsUnion(ls);
      AutoIsSmallest(ls);
      AggregateIsStruct(ls);
    case EnumDecl(_, _, variants) =>
      NicheSyntaxIsNullable(variants);
      if !NicheSyntax(variants) {
        AstVariantsAre(ds, variants, depth - 1);
        TaggedIsTagged(AstPayloads(ds, variants, depth - 1).value);
      }
    case DistinctDecl(_, base) =>
  }

  // ----- what is refused -----

  lemma {:induction false} AllKnown(ds: seq<Decl>, ts: seq<TypeExpr>, depth: nat)
    ensures AstAll(ds, ts, depth).Some? <==> forall i :: 0 <= i < |ts| ==> AstLayout(ds, ts[i], depth).Some?
    decreases |ts|
  {
    hide AstLayout;
    if ts != [] {
      AllKnown(ds, ts[..|ts| - 1], depth);
    }
  }

  lemma FieldsKnown(ds: seq<Decl>, fields: seq<Field>, depth: nat)
    ensures AstAll(ds, FieldTypes(fields), depth).Some? <==>
      forall i :: 0 <= i < |fields| ==> AstLayout(ds, fields[i].ty, depth).Some?
  {
    hide AstLayout, AstAll;
    var ts := FieldTypes(fields);
    AllKnown(ds, ts, depth);
    assert forall i :: 0 <= i < |fields| ==> ts[i] == fields[i].ty;
    if forall i :: 0 <= i < |ts| ==> AstLayout(ds, ts[i], depth).Some? {
      forall i | 0 <= i < |fields| ensures AstLayout(ds, fields[i].ty, depth).Some? {
        assert AstLayout(ds, ts[i], depth).Some?;
      }
    }
  }

  lemma {:induction false} PayloadsKnown(ds: seq<Decl>, vs: seq<seq<TypeExpr>>, depth: nat)
    ensures AstPayloads(ds, vs, depth).Some? <==>
      forall i, j :: 0 <= i < |vs| && 0 <= j < |vs[i]| ==> AstLayout(ds, vs[i][j], depth).Some?
    decreases |vs|
  {
    hide AstLayout, AstAll;
    if vs != [] {
      PayloadsKnown(ds, vs[..|vs| - 1], depth);
      AllKnown(ds, vs[|vs| - 1], depth);
    }
  }

  /** A declaration has a layout unless it has a bit-field, is generic, or holds a type
      without one; the enum that is a pointer has one whatever it points to. */
  predicate DeclKnown(ds: seq<Decl>, d: Decl, depth: nat) {
    match d
    case StructDecl(_, fields, _, _) =>
      forall i :: 0 <= i < |fields| ==> !fields[i].bits && AstLayout(ds, fields[i].ty, depth).Some?
    case EnumDecl(_, generic, vs) =>
      !generic && (IsNullableSyntax(vs) ||
        forall i, j :: 0 <= i < |vs| && 0 <= j < |vs[i]| ==> AstLayout(ds, vs[i][j], depth).Some?)
    case DistinctDecl(_, base) => AstLayout(ds, base, depth).Some?
  }

  lemma DeclKnownIff(ds: seq<Decl>, n: Ident, depth: nat)
    ensures AstNamed(ds, n, depth).Some? <==>
      depth > 0 && IndexOf(ds, n).Some? && DeclKnown(ds, ds[IndexOf(ds, n).value], depth - 1)
  {
    hide AstLayout, AstAll, AstPayloads, UnionLayout, TaggedLayout, Aggregate, Auto, NicheSyntax, IsNullableSyntax;
    var i := IndexOf(ds, n);
    if depth > 0 && i.Some? {
      match ds[i.value]
      case StructDecl(_, fields, _, _) => FieldsKnown(ds, fields, depth - 1);
      case EnumDecl(_, _, vs) =>
        NicheSyntaxIsNullable(vs);
        PayloadsKnown(ds, vs, depth - 1);
      case DistinctDecl(_, _) =>
    }
  }

  /** A type without a layout: an unknowable one, an array of one or of unknown length, or a
      name that is no primitive and declares none. */
  lemma TypeKnownIff(ds: seq<Decl>, t: TypeExpr, depth: nat)
    ensures AstLayout(ds, t, depth).Some? <==> depth > 0 && match t
      case TName(n) => (exists l :: PrimSays(n, l)) || AstNamed(ds, n, depth - 1).Some?
      case TArray(len, elem) => len.Some? && AstLayout(ds, elem, depth - 1).Some?
      case TUnknowable => false
      case _ => true
  {
    hide PrimSays, PrimLayout, AstNamed;
    if t.TName? {
      PrimMeans(t.n);
    }
  }

  // ----- offsets -----

  /** The emission of a struct's fields: `order` lists them as they are placed. */
  ghost predicate Emission(ds: seq<Decl>, d: Decl, ls: seq<Layout>, order: seq<nat>, at: seq<nat>, l: Layout)
    requires d.StructDecl?
  {
    && AstMembers(ds, FieldTypes(d.fields), 31, ls)
    && Below(order, |ls|)
    && multiset(order) == multiset(UpTo(|ls|))
    && (d.auto || order == UpTo(|ls|))
    && IsStruct(Emitted(ls, order), at, l)
  }

  /** The offset of a field is its place in the struct that is emitted, 0 in a union. */
  lemma OffsetMeans(ds: seq<Decl>, n: Ident, k: nat) returns (ls: seq<Layout>, order: seq<nat>, at: seq<nat>, j: nat)
    requires DistinctNames(ds) && AstNamed(ds, n, 32).Some?
    requires ds[IndexOf(ds, n).value].StructDecl? && k < |ds[IndexOf(ds, n).value].fields|
    requires var fields := ds[IndexOf(ds, n).value].fields;
      forall i, j :: 0 <= i < j < |fields| ==> fields[i].name != fields[j].name
    ensures var d := ds[IndexOf(ds, n).value];
      if d.isUnion then AstOffsetOf(ds, n, d.fields[k].name) == Some(0)
      else
        && Emission(ds, d, ls, order, at, AstNamed(ds, n, 32).value)
        && j < |at| == |order| && order[j] == k
        && AstOffsetOf(ds, n, d.fields[k].name) == Some(at[j])
  {
    hide AstAll, AstLayout, AstMembers, IsStruct, Aggregate, Aligned, Position, OffsetAt, AstNamed, AstOffsetOf, FieldNames, UpTo,
      AutoOrder, AstFields;
    Declared(ds, n);
    var d := ds[IndexOf(ds, n).value];
    ls := FieldLayouts(ds, n, d);
    UpToIsBelow(|ls|);
    order := if d.auto then AutoOrder(Aligns(ls)) else UpTo(|ls|);
    AutoOrderIsPermutation(Aligns(ls));
    FieldNamesAre(d.fields);
    at := Offsets(Emitted(ls, order));
    j := NameFound(FieldNames(d.fields), order, k);
    if d.isUnion {
      var i := NameFound(FieldNames(d.fields), UpTo(|ls|), k);
      UpToIs(|ls|, i);
      EmittedInPlace(FieldNames(d.fields));
    }
    OffsetIs(ds, n, d, ls, order, d.fields[k].name);
    EmittedSameMembers(ls, order);
    SameMembersPositive(ls, Emitted(ls, order));
    AggregateIsStruct(Emitted(ls, order));
    if !d.isUnion {
      EmittedLayout(ds, n, d, ls, order);
    }
  }

  lemma Declared(ds: seq<Decl>, n: Ident)
    requires AstNamed(ds, n, 32).Some?
    ensures IndexOf(ds, n).Some?
  {
  }

  lemma FieldNamesAre(fields: seq<Field>)
    ensures forall i :: 0 <= i < |fields| ==> FieldNames(fields)[i] == fields[i].name
  {
  }

  lemma FieldLayouts(ds: seq<Decl>, n: Ident, d: Decl) returns (ls: seq<Layout>)
    requires DistinctNames(ds) && AstNamed(ds, n, 32).Some? && d == ds[IndexOf(ds, n).value] && d.StructDecl?
    ensures AstAll(ds, FieldTypes(d.fields), 31) == Some(ls) && AstMembers(ds, FieldTypes(d.fields), 31, ls)
    ensures forall l :: l in ls ==> Aligned(l)
    ensures forall i :: 0 <= i < |d.fields| ==> !d.fields[i].bits
  {
    hide AstAll, AstLayout, AstMembers, Aligned, UnionLayout, Aggregate, Auto;
    ls := AstAll(ds, FieldTypes(d.fields), 31).value;
    AstMembersAre(ds, FieldTypes(d.fields), 31);
  }

  lemma EmittedLayout(ds: seq<Decl>, n: Ident, d: Decl, ls: seq<Layout>, order: seq<nat>)
    requires AstNamed(ds, n, 32).Some? && d == ds[IndexOf(ds, n).value] && d.StructDecl? && !d.isUnion
    requires AstAll(ds, FieldTypes(d.fields), 31) == Some(ls) && Below(order, |ls|)
    requires order == if d.auto then AutoOrder(Aligns(ls)) else UpTo(|ls|)
    ensures AstNamed(ds, n, 32) == Some(Aggregate(Emitted(ls, order)))
  {
    hide AstAll, AstLayout, Aggregate, AutoOrder, UpTo;
    if !d.auto {
      EmittedInPlace(ls);
    }
  }

  lemma OffsetIs(ds: seq<Decl>, n: Ident, d: Decl, ls: seq<Layout>, order: seq<nat>, f: Ident)
    requires IndexOf(ds, n).Some? && d == ds[IndexOf(ds, n).value] && d.StructDecl?
    requires AstAll(ds, FieldTypes(d.fields), 31) == Some(ls) && Below(order, |ls|)
    requires forall i :: 0 <= i < |d.fields| ==> !d.fields[i].bits
    requires order == if d.auto then AutoOrder(Aligns(ls)) else UpTo(|ls|)
    ensures AstOffsetOf(ds, n, f) ==
      if d.isUnion then (if Position(FieldNames(d.fields), f).Some? then Some(0) else None)
      else match Position(Emitted(FieldNames(d.fields), order), f)
        case None => None
        case Some(j) => Some(OffsetAt(Emitted(ls, order), j))
  {
    hide AstAll, AstLayout, AstFields, Auto, AutoOrder, UpTo, OffsetAt, Position, FieldNames;
    FieldsAre(ds, d, ls);
    if !d.auto {
      EmittedInPlace(ls);
      EmittedInPlace(FieldNames(d.fields));
    }
  }

  lemma FieldsAre(ds: seq<Decl>, d: Decl, ls: seq<Layout>)
    requires d.StructDecl? && AstAll(ds, FieldTypes(d.fields), 31) == Some(ls)
    requires forall i :: 0 <= i < |d.fields| ==> !d.fields[i].bits
    ensures AstFields(ds, d.fields, d.auto, d.isUnion, 32) == Some(
      if d.auto && !d.isUnion then Emitted(ls, AutoOrder(Aligns(ls))) else ls)
  {
    hide AstAll, AstLayout, AutoOrder;
  }

  /** In any order of distinct names each one is found where it went. */
  lemma NameFound(names: seq<Ident>, order: seq<nat>, k: nat) returns (j: nat)
    requires Below(order, |names|) && multiset(order) == multiset(UpTo(|names|)) && k < |names|
    requires forall i, k :: 0 <= i < k < |names| ==> names[i] != names[k]
    ensures j < |order| && order[j] == k && Position(Emitted(names, order), names[k]) == Some(j)
  {
    j := IndexIn(order, k, |names|);
    EmittedNames(names, order, j);
    PositionOnly(Emitted(names, order), j, names[k]);
  }

  lemma IndexIn(order: seq<nat>, k: nat, n: nat) returns (j: nat)
    requires multiset(order) == multiset(UpTo(n)) && k < n
    ensures j < |order| && order[j] == k
  {
    UpToIs(n, k);
    assert k in multiset(UpTo(n));
    assert k in order;
    j :| 0 <= j < |order| && order[j] == k;
  }

  lemma {:induction false} PositionOnly(xs: seq<Ident>, k: nat, x: Ident)
    requires k < |xs| && xs[k] == x && forall i :: 0 <= i < |xs| && i != k ==> xs[i] != x
    ensures Position(xs, x) == Some(k)
    decreases |xs|
  {
    if k > 0 {
      PositionOnly(xs[1..], k - 1, x);
    }
  }

  lemma EmittedNames(names: seq<Ident>, order: seq<nat>, j: nat)
    requires Below(order, |names|) && multiset(order) == multiset(UpTo(|names|)) && j < |order|
    requires forall i, k :: 0 <= i < k < |names| ==> names[i] != names[k]
    ensures forall i :: 0 <= i < |order| && i != j ==> Emitted(names, order)[i] != names[order[j]]
  {
    forall i | 0 <= i < |order| && i != j
      ensures order[i] != order[j]
    {
      NoRepeat(order, |names|, i, j);
    }
  }

  lemma NoRepeat(order: seq<nat>, n: nat, i: nat, j: nat)
    requires multiset(order) == multiset(UpTo(n)) && i < |order| && j < |order| && i != j
    ensures order[i] != order[j]
  {
    var a, b := if i < j then i else j, if i < j then j else i;
    if order[a] == order[b] {
      assert order == order[..a] + [order[a]] + order[a + 1..b] + [order[b]] + order[b + 1..];
      assert multiset(order)[order[a]] >= 2;
      UpToOnce(n, order[a]);
    }
  }

  lemma {:induction false} UpToOnce(n: nat, x: nat)
    ensures multiset(UpTo(n))[x] <= 1 && (x >= n ==> x !in multiset(UpTo(n)))
    decreases n
  {
    if n > 0 {
      UpToOnce(n - 1, x);
    }
  }
}
