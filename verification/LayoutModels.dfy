/** Two layout models of one program, on the syntax tree and on the checked type table:
    wherever the first gives an answer the second gives the same one. */
module LayoutModels {
  import opened Wrappers
  import opened Scattering
  import opened Layouts

  type Ident = string

  const PTR: nat := 8
  const AST_DEPTH: nat := 32

  function Scalar(n: nat): Layout { Layout(n, n) }

  function PrimLayout(n: Ident): Option<Layout> {
    if n in {"i8", "u8", "bool"} then Some(Scalar(1))
    else if n in {"i16", "u16"} then Some(Scalar(2))
    else if n in {"i32", "u32", "f32", "char"} then Some(Scalar(4))
    else if n in {"i64", "u64", "f64", "isize", "usize"} then Some(Scalar(8))
    else if n in {"str", "os_str"} then Some(Layout(2 * PTR, PTR))
    else if n in {"cstr", "cptr"} then Some(Scalar(PTR))
    else if n in {"String", "Cow", "Builder"} then Some(Layout(3 * PTR, PTR))
    else None
  }

  /** Overlapping members: the widest and the strictest. */
  function Overlap(ls: seq<Layout>): Layout {
    if ls == [] then Layout(0, 1)
    else
      var front, last := Overlap(ls[..|ls| - 1]), ls[|ls| - 1];
      Layout(Max(front.size, last.size), Max(front.align, last.align))
  }

  function UnionLayout(ls: seq<Layout>): Layout {
    var o := Overlap(ls);
    Layout(AlignTo(o.size, o.align), o.align)
  }

  /** A tag, then the variants' payloads overlapping. */
  function TaggedLayout(payloads: seq<Layout>): Layout {
    Aggregate([Scalar(4), Overlap(payloads)])
  }

  // ----- the syntax tree -----

  datatype TypeExpr =
    | TName(n: Ident)
    | TPointer
    | TFn
    | TFat
    | TArray(len: Option<nat>, elem: TypeExpr)
    | TUnknowable

  datatype Field = Field(name: Ident, ty: TypeExpr, bits: bool)

  datatype Decl =
    | StructDecl(name: Ident, fields: seq<Field>, auto: bool, isUnion: bool)
    | EnumDecl(name: Ident, generic: bool, variants: seq<seq<TypeExpr>>)
    | DistinctDecl(name: Ident, base: TypeExpr)

  predicate DistinctNames(ds: seq<Decl>) {
    forall i, j :: 0 <= i < j < |ds| ==> ds[i].name != ds[j].name
  }

  function IndexOf(ds: seq<Decl>, n: Ident): (i: Option<nat>)
    ensures i.Some? ==> i.value < |ds| && ds[i.value].name == n
    ensures i.None? ==> forall k :: 0 <= k < |ds| ==> ds[k].name != n
  {
    if ds == [] then None
    else
      match IndexOf(ds[..|ds| - 1], n)
      case Some(i) => Some(i)
      case None => if ds[|ds| - 1].name == n then Some(|ds| - 1) else None
  }

  /** Two variants, one empty and one a single thin pointer: no tag at all. */
  predicate NicheSyntax(variants: seq<seq<TypeExpr>>) {
    && |variants| == 2
    && (variants[0] == [] || variants[1] == [])
    && (variants[0] == [TPointer] || variants[1] == [TPointer])
  }

  function AstLayout(ds: seq<Decl>, t: TypeExpr, depth: nat): Option<Layout>
    decreases depth, 0, 0
  {
    if depth == 0 then None
    else
      match t
      case TName(n) => if PrimLayout(n).Some? then PrimLayout(n) else AstNamed(ds, n, depth - 1)
      case TPointer => Some(Scalar(PTR))
      case TFn => Some(Scalar(PTR))
      case TFat => Some(Layout(2 * PTR, PTR))
      case TArray(len, elem) =>
        var e := AstLayout(ds, elem, depth - 1);
        if e.Some? && len.Some? then Some(Layout(e.value.size * len.value, e.value.align)) else None
      case TUnknowable => None
  }

  function AstNamed(ds: seq<Decl>, n: Ident, depth: nat): Option<Layout>
    decreases depth, 2, 0
  {
    var i := IndexOf(ds, n);
    if depth == 0 || i.None? then None
    else
      match ds[i.value]
      case StructDecl(_, fields, auto, isUnion) =>
        var ls := AstFields(ds, fields, auto, isUnion, depth);
        if ls.None? then None
        else Some(if isUnion then UnionLayout(ls.value) else Aggregate(ls.value))
      case EnumDecl(_, generic, variants) =>
        if generic then None
        else if NicheSyntax(variants) then Some(Scalar(PTR))
        else
          var ps := AstPayloads(ds, variants, depth - 1);
          if ps.Some? then Some(TaggedLayout(ps.value)) else None
      case DistinctDecl(_, base) => AstLayout(ds, base, depth - 1)
  }

  function FieldTypes(fields: seq<Field>): (ts: seq<TypeExpr>)
    ensures |ts| == |fields|
  {
    seq(|fields|, i requires 0 <= i < |fields| => fields[i].ty)
  }

  /** The fields' layouts in emission order; bit-fields are not knowable. */
  function AstFields(ds: seq<Decl>, fields: seq<Field>, auto: bool, isUnion: bool, depth: nat): (ls: Option<seq<Layout>>)
    requires depth > 0
    ensures ls.Some? ==> |ls.value| == |fields|
    decreases depth, 1, 0
  {
    if exists i :: 0 <= i < |fields| && fields[i].bits then None
    else
      var ls := AstAll(ds, FieldTypes(fields), depth - 1);
      if ls.None? then None
      else Some(if !isUnion && auto then Auto(ls.value) else ls.value)
  }

  function AstAll(ds: seq<Decl>, ts: seq<TypeExpr>, depth: nat): (ls: Option<seq<Layout>>)
    ensures ls.Some? ==> |ls.value| == |ts|
    decreases depth, 1, |ts|
  {
    if ts == [] then Some([])
    else
      var front := AstAll(ds, ts[..|ts| - 1], depth);
      var last := AstLayout(ds, ts[|ts| - 1], depth);
      if front.Some? && last.Some? then Some(front.value + [last.value]) else None
  }

  function AstPayloads(ds: seq<Decl>, variants: seq<seq<TypeExpr>>, depth: nat): (ls: Option<seq<Layout>>)
    ensures ls.Some? ==> |ls.value| == |variants|
    decreases depth, 2, |variants|
  {
    if variants == [] then Some([])
    else
      var front := AstPayloads(ds, variants[..|variants| - 1], depth);
      var last := AstAll(ds, variants[|variants| - 1], depth);
      if front.Some? && last.Some? then Some(front.value + [Aggregate(last.value)]) else None
  }

  // ----- the checked table -----

  datatype Ty = Unit | Prim(n: Ident) | Pointer | FnPtr | Fat | Array(len: nat, elem: Ty) | Named(i: nat) | Result(ok: Ty) | Unknown

  datatype Kind = Struct(fields: seq<Ty>) | Enum(variants: seq<seq<Ty>>) | Distinct(base: Ty)
  datatype Row = Row(name: Ident, kind: Kind)

  /** Facts of the declarations that the table does not carry. */
  datatype Model = Model(auto: set<Ident>, unions: set<Ident>)

  const EMPTY: Model := Model({}, {})

  predicate NicheTypes(variants: seq<seq<Ty>>) {
    && |variants| == 2
    && (variants[0] == [] || variants[1] == [])
    && (variants[0] == [Pointer] || variants[1] == [Pointer])
  }

  /** `fuel` bounds the nesting that is followed; more never changes an answer. */
  function LayoutOf(table: seq<Row>, m: Model, ty: Ty, fuel: nat): Option<Layout>
    decreases fuel, 0, 0
  {
    if fuel == 0 then None
    else
      match ty
      case Unit => Some(Layout(0, 1))
      case Prim(n) => PrimLayout(n)
      case Pointer => Some(Scalar(PTR))
      case FnPtr => Some(Scalar(PTR))
      case Fat => Some(Layout(2 * PTR, PTR))
      case Array(len, elem) =>
        var e := LayoutOf(table, m, elem, fuel - 1);
        if e.Some? then Some(Layout(e.value.size * len, e.value.align)) else None
      case Named(i) => NamedLayout(table, m, i, fuel - 1)
      case Result(ok) =>
        var l := LayoutOf(table, m, ok, fuel - 1);
        if l.Some? then Some(Aggregate([Scalar(1), l.value, Scalar(4)])) else None
      case Unknown => None
  }

  function NamedLayout(table: seq<Row>, m: Model, i: nat, fuel: nat): Option<Layout>
    decreases fuel, 3, 0
  {
    if fuel == 0 || i >= |table| then None
    else
      match table[i].kind
      case Struct(fields) =>
        var ls := LayoutsOf(table, m, fields, fuel - 1);
        if ls.None? then None
        else if table[i].name in m.unions then Some(UnionLayout(ls.value))
        else Some(Aggregate(if table[i].name in m.auto then Auto(ls.value) else ls.value))
      case Enum(variants) =>
        if NicheTypes(variants) then Some(Scalar(PTR))
        else
          var ps := Payloads(table, m, variants, fuel - 1);
          if ps.Some? then Some(TaggedLayout(ps.value)) else None
      case Distinct(base) => LayoutOf(table, m, base, fuel - 1)
  }

  function LayoutsOf(table: seq<Row>, m: Model, ts: seq<Ty>, fuel: nat): (ls: Option<seq<Layout>>)
    ensures ls.Some? ==> |ls.value| == |ts|
    decreases fuel, 1, |ts|
  {
    if ts == [] then Some([])
    else
      var front := LayoutsOf(table, m, ts[..|ts| - 1], fuel);
      var last := LayoutOf(table, m, ts[|ts| - 1], fuel);
      if front.Some? && last.Some? then Some(front.value + [last.value]) else None
  }

  function Payloads(table: seq<Row>, m: Model, variants: seq<seq<Ty>>, fuel: nat): (ls: Option<seq<Layout>>)
    ensures ls.Some? ==> |ls.value| == |variants|
    decreases fuel, 2, |variants|
  {
    if variants == [] then Some([])
    else
      var front := Payloads(table, m, variants[..|variants| - 1], fuel);
      var last := LayoutsOf(table, m, variants[|variants| - 1], fuel);
      if front.Some? && last.Some? then Some(front.value + [Aggregate(last.value)]) else None
  }

  // ----- from the tree to the table -----

  function Resolved(ds: seq<Decl>, t: TypeExpr): Ty {
    match t
    case TName(n) =>
      if PrimLayout(n).Some? then Prim(n)
      else
        (match IndexOf(ds, n)
         case Some(i) => if ds[i].EnumDecl? && ds[i].generic then Unknown else Named(i)
         case None => Unknown)
    case TPointer => Pointer
    case TFn => FnPtr
    case TFat => Fat
    case TArray(len, elem) => if len.Some? then Array(len.value, Resolved(ds, elem)) else Unknown
    case TUnknowable => Unknown
  }

  function ResolvedAll(ds: seq<Decl>, ts: seq<TypeExpr>): (r: seq<Ty>)
    ensures |r| == |ts| && forall i :: 0 <= i < |ts| ==> r[i] == Resolved(ds, ts[i])
  {
    seq(|ts|, i requires 0 <= i < |ts| => Resolved(ds, ts[i]))
  }

  function ResolvedVariants(ds: seq<Decl>, vs: seq<seq<TypeExpr>>): (r: seq<seq<Ty>>)
    ensures |r| == |vs| && forall i :: 0 <= i < |vs| ==> r[i] == ResolvedAll(ds, vs[i])
  {
    seq(|vs|, i requires 0 <= i < |vs| => ResolvedAll(ds, vs[i]))
  }

  function RowOf(ds: seq<Decl>, d: Decl): Row {
    Row(d.name, match d
      case StructDecl(_, fields, _, _) => Struct(ResolvedAll(ds, FieldTypes(fields)))
      case EnumDecl(_, _, variants) => Enum(ResolvedVariants(ds, variants))
      case DistinctDecl(_, base) => Distinct(Resolved(ds, base)))
  }

  function TableOf(ds: seq<Decl>): (t: seq<Row>)
    ensures |t| == |ds| && forall i :: 0 <= i < |ds| ==> t[i] == RowOf(ds, ds[i])
  {
    seq(|ds|, i requires 0 <= i < |ds| => RowOf(ds, ds[i]))
  }

  /** Reordering is granted when it is asked for and every field is knowable; that is
      decided under the empty model. */
  predicate Grants(ds: seq<Decl>, d: Decl, fuel: nat) {
    d.StructDecl? && d.auto && LayoutsOf(TableOf(ds), EMPTY, ResolvedAll(ds, FieldTypes(d.fields)), fuel).Some?
  }

  function ModelOf(ds: seq<Decl>, fuel: nat): Model {
    Model(set i | 0 <= i < |ds| && Grants(ds, ds[i], fuel) :: ds[i].name,
      set i | 0 <= i < |ds| && ds[i].StructDecl? && ds[i].isUnion :: ds[i].name)
  }

  // ----- alignment does not depend on the order -----

  lemma {:induction false} OverlapAlign(ls: seq<Layout>)
    ensures Overlap(ls).align == MaxAlign(ls)
  {
    if ls != [] {
      OverlapAlign(ls[..|ls| - 1]);
    }
  }

  lemma {:induction false} SameAligns(a: seq<Layout>, b: seq<Layout>)
    requires |a| == |b| && forall i :: 0 <= i < |a| ==> a[i].align == b[i].align
    ensures MaxAlign(a) == MaxAlign(b) && Aligns(a) == Aligns(b)
    decreases |a|
  {
    if a != [] {
      SameAligns(a[..|a| - 1], b[..|b| - 1]);
    }
  }

  /** The same types are knowable under any model, with the same alignment. */
  lemma {:induction false} AlignInvariant(table: seq<Row>, m: Model, w: Model, ty: Ty, fuel: nat)
    ensures LayoutOf(table, m, ty, fuel).Some? == LayoutOf(table, w, ty, fuel).Some?
    ensures LayoutOf(table, m, ty, fuel).Some? ==>
      LayoutOf(table, m, ty, fuel).value.align == LayoutOf(table, w, ty, fuel).value.align
    decreases fuel, 0, 0
  {
    hide Aggregate;
    if fuel > 0 {
      match ty
      case Array(_, elem) => AlignInvariant(table, m, w, elem, fuel - 1);
      case Named(i) => NamedInvariant(table, m, w, i, fuel - 1);
      case Result(ok) =>
        AlignInvariant(table, m, w, ok, fuel - 1);
        var a, b := LayoutOf(table, m, ok, fuel - 1), LayoutOf(table, w, ok, fuel - 1);
        if a.Some? {
          SameAligns([Scalar(1), a.value, Scalar(4)], [Scalar(1), b.value, Scalar(4)]);
          AggregateAlign([Scalar(1), a.value, Scalar(4)]);
          AggregateAlign([Scalar(1), b.value, Scalar(4)]);
        }
      case _ =>
    }
  }

  lemma AggregateAlign(ls: seq<Layout>)
    ensures Aggregate(ls).align == MaxAlign(ls)
  {
  }

  lemma {:induction false} NamedInvariant(table: seq<Row>, m: Model, w: Model, i: nat, fuel: nat)
    ensures NamedLayout(table, m, i, fuel).Some? == NamedLayout(table, w, i, fuel).Some?
    ensures NamedLayout(table, m, i, fuel).Some? ==>
      NamedLayout(table, m, i, fuel).value.align == NamedLayout(table, w, i, fuel).value.align
    decreases fuel, 3, 0
  {
    hide Auto, LayoutsOf, MaxAlign, UnionLayout, Aggregate, TaggedLayout, Payloads, NicheTypes;
    if fuel > 0 && i < |table| {
      match table[i].kind
      case Struct(fields) =>
        AllInvariant(table, m, w, fields, fuel - 1);
        var a, b := LayoutsOf(table, m, fields, fuel - 1), LayoutsOf(table, w, fields, fuel - 1);
        if a.Some? {
          StructAlign(a.value);
          StructAlign(b.value);
          SameAligns(a.value, b.value);
        }
      case Enum(variants) =>
        PayloadsInvariant(table, m, w, variants, fuel - 1);
        var a, b := Payloads(table, m, variants, fuel - 1), Payloads(table, w, variants, fuel - 1);
        if a.Some? {
          SameAligns(a.value, b.value);
          TaggedAlign(a.value);
          TaggedAlign(b.value);
        }
      case Distinct(base) => AlignInvariant(table, m, w, base, fuel - 1);
    }
  }

  /** However its members are placed, a struct is aligned as its strictest member. */
  lemma StructAlign(ls: seq<Layout>)
    ensures UnionLayout(ls).align == MaxAlign(ls) && Aggregate(ls).align == MaxAlign(ls)
    ensures Aggregate(Auto(ls)).align == MaxAlign(ls)
  {
    OverlapAlign(ls);
    AutoKeepsFields(ls);
  }

  lemma TaggedAlign(ps: seq<Layout>)
    ensures TaggedLayout(ps).align == Max(4, MaxAlign(ps))
  {
    OverlapAlign(ps);
    var two := [Scalar(4), Overlap(ps)];
    assert two[..1] == [Scalar(4)];
    assert [Scalar(4)][..0] == [];
    assert MaxAlign([Scalar(4)]) == 4;
  }

  lemma {:induction false} AllInvariant(table: seq<Row>, m: Model, w: Model, ts: seq<Ty>, fuel: nat)
    ensures LayoutsOf(table, m, ts, fuel).Some? == LayoutsOf(table, w, ts, fuel).Some?
    ensures LayoutsOf(table, m, ts, fuel).Some? ==> forall i :: 0 <= i < |ts| ==>
      LayoutsOf(table, m, ts, fuel).value[i].align == LayoutsOf(table, w, ts, fuel).value[i].align
    decreases fuel, 1, |ts|
  {
    if ts != [] {
      AllInvariant(table, m, w, ts[..|ts| - 1], fuel);
      AlignInvariant(table, m, w, ts[|ts| - 1], fuel);
    }
  }

  lemma {:induction false} PayloadsInvariant(table: seq<Row>, m: Model, w: Model, vs: seq<seq<Ty>>, fuel: nat)
    ensures Payloads(table, m, vs, fuel).Some? == Payloads(table, w, vs, fuel).Some?
    ensures Payloads(table, m, vs, fuel).Some? ==> forall i :: 0 <= i < |vs| ==>
      Payloads(table, m, vs, fuel).value[i].align == Payloads(table, w, vs, fuel).value[i].align
    decreases fuel, 2, |vs|
  {
    if vs != [] {
      PayloadsInvariant(table, m, w, vs[..|vs| - 1], fuel);
      var last := vs[|vs| - 1];
      AllInvariant(table, m, w, last, fuel);
      if LayoutsOf(table, m, last, fuel).Some? {
        SameAligns(LayoutsOf(table, m, last, fuel).value, LayoutsOf(table, w, last, fuel).value);
        AggregateAlign(LayoutsOf(table, m, last, fuel).value);
        AggregateAlign(LayoutsOf(table, w, last, fuel).value);
        hide Aggregate;
      }
    }
  }

  // ----- more fuel changes nothing -----

  lemma {:induction false} MoreFuel(table: seq<Row>, m: Model, ty: Ty, fuel: nat, more: nat)
    requires fuel <= more && LayoutOf(table, m, ty, fuel).Some?
    ensures LayoutOf(table, m, ty, more) == LayoutOf(table, m, ty, fuel)
    decreases fuel, 0, 0
  {
    hide Aggregate;
    match ty
    case Array(_, elem) => MoreFuel(table, m, elem, fuel - 1, more - 1);
    case Named(i) => MoreFuelNamed(table, m, i, fuel - 1, more - 1);
    case Result(ok) => MoreFuel(table, m, ok, fuel - 1, more - 1);
    case _ =>
  }

  lemma {:induction false} MoreFuelNamed(table: seq<Row>, m: Model, i: nat, fuel: nat, more: nat)
    requires fuel <= more && NamedLayout(table, m, i, fuel).Some?
    ensures NamedLayout(table, m, i, more) == NamedLayout(table, m, i, fuel)
    decreases fuel, 3, 0
  {
    hide Aggregate, Auto, UnionLayout, TaggedLayout;
    match table[i].kind
    case Struct(fields) => MoreFuelAll(table, m, fields, fuel - 1, more - 1);
    case Enum(variants) => if !NicheTypes(variants) { MoreFuelPayloads(table, m, variants, fuel - 1, more - 1); }
    case Distinct(base) => MoreFuel(table, m, base, fuel - 1, more - 1);
  }

  lemma {:induction false} MoreFuelAll(table: seq<Row>, m: Model, ts: seq<Ty>, fuel: nat, more: nat)
    requires fuel <= more && LayoutsOf(table, m, ts, fuel).Some?
    ensures LayoutsOf(table, m, ts, more) == LayoutsOf(table, m, ts, fuel)
    decreases fuel, 1, |ts|
  {
    if ts != [] {
      MoreFuelAll(table, m, ts[..|ts| - 1], fuel, more);
      MoreFuel(table, m, ts[|ts| - 1], fuel, more);
    }
  }

  lemma {:induction false} MoreFuelPayloads(table: seq<Row>, m: Model, vs: seq<seq<Ty>>, fuel: nat, more: nat)
    requires fuel <= more && Payloads(table, m, vs, fuel).Some?
    ensures Payloads(table, m, vs, more) == Payloads(table, m, vs, fuel)
    decreases fuel, 2, |vs|
  {
    if vs != [] {
      MoreFuelPayloads(table, m, vs[..|vs| - 1], fuel, more);
      MoreFuelAll(table, m, vs[|vs| - 1], fuel, more);
    }
  }

  // ----- the two models agree -----

  lemma {:induction false} ModelsAgree(ds: seq<Decl>, t: TypeExpr, depth: nat, fuel: nat, budget: nat)
    requires DistinctNames(ds) && depth <= fuel <= budget && AstLayout(ds, t, depth).Some?
    ensures LayoutOf(TableOf(ds), ModelOf(ds, budget), Resolved(ds, t), fuel) == AstLayout(ds, t, depth)
    decreases depth, 0, 0
  {
    hide ModelOf, TableOf, NamedLayout, DistinctNames, AstFields, AstPayloads, NicheSyntax;
    match t
    case TName(n) => if PrimLayout(n).None? { NamedAgree(ds, n, depth - 1, fuel - 1, budget); }
    case TArray(len, elem) => ModelsAgree(ds, elem, depth - 1, fuel - 1, budget);
    case _ =>
  }

  lemma {:induction false} NamedAgree(ds: seq<Decl>, n: Ident, depth: nat, fuel: nat, budget: nat)
    requires DistinctNames(ds) && depth <= fuel <= budget && AstNamed(ds, n, depth).Some?
    ensures var i := IndexOf(ds, n).value;
      && !(ds[i].EnumDecl? && ds[i].generic)
      && NamedLayout(TableOf(ds), ModelOf(ds, budget), i, fuel) == AstNamed(ds, n, depth)
    decreases depth, 2, 0
  {
    hide ModelOf, Aggregate, Auto, UnionLayout, TaggedLayout;
    hide LayoutOf, AstLayout, LayoutsOf, AstAll, Payloads, AstPayloads;
    var i := IndexOf(ds, n).value;
    assert TableOf(ds)[i] == RowOf(ds, ds[i]);
    match ds[i]
    case StructDecl(_, fields, _, _) =>
      AllAgree(ds, FieldTypes(fields), depth - 1, fuel - 1, budget);
      StructAgrees(ds, n, depth, fuel, budget);
    case EnumDecl(_, _, variants) =>
      NicheAgrees(ds, variants);
      if !NicheSyntax(variants) { PayloadsAgree(ds, variants, depth - 1, fuel - 1, budget); }
    case DistinctDecl(_, base) => ModelsAgree(ds, base, depth - 1, fuel - 1, budget);
  }

  lemma StructAgrees(ds: seq<Decl>, n: Ident, depth: nat, fuel: nat, budget: nat)
    requires DistinctNames(ds) && depth <= fuel <= budget && AstNamed(ds, n, depth).Some?
    requires var d := ds[IndexOf(ds, n).value];
      d.StructDecl? && LayoutsOf(TableOf(ds), ModelOf(ds, budget), ResolvedAll(ds, FieldTypes(d.fields)), fuel - 1)
        == AstAll(ds, FieldTypes(d.fields), depth - 1)
    ensures NamedLayout(TableOf(ds), ModelOf(ds, budget), IndexOf(ds, n).value, fuel) == AstNamed(ds, n, depth)
  {
    var i := IndexOf(ds, n).value;
    GrantedWhenAsked(ds, i, fuel - 1, budget);
    hide ModelOf, Aggregate, Auto, UnionLayout, TaggedLayout, LayoutsOf, AstAll, LayoutOf, AstLayout;
    assert TableOf(ds)[i] == RowOf(ds, ds[i]);
  }

  /** Where every field is knowable, what was asked for is what the model records. */
  lemma GrantedWhenAsked(ds: seq<Decl>, i: nat, fuel: nat, budget: nat)
    requires DistinctNames(ds) && i < |ds| && ds[i].StructDecl? && fuel <= budget
    requires LayoutsOf(TableOf(ds), ModelOf(ds, budget), ResolvedAll(ds, FieldTypes(ds[i].fields)), fuel).Some?
    ensures ds[i].name in ModelOf(ds, budget).auto <==> ds[i].auto
    ensures ds[i].name in ModelOf(ds, budget).unions <==> ds[i].isUnion
  {
    ModelKnows(ds, i, budget);
    hide ModelOf, TableOf, LayoutsOf;
    var ts := ResolvedAll(ds, FieldTypes(ds[i].fields));
    AllInvariant(TableOf(ds), ModelOf(ds, budget), EMPTY, ts, fuel);
    MoreFuelAll(TableOf(ds), EMPTY, ts, fuel, budget);
  }

  lemma ModelKnows(ds: seq<Decl>, i: nat, fuel: nat)
    requires DistinctNames(ds) && i < |ds|
    ensures ds[i].name in ModelOf(ds, fuel).auto <==> Grants(ds, ds[i], fuel)
    ensures ds[i].name in ModelOf(ds, fuel).unions <==> ds[i].StructDecl? && ds[i].isUnion
  {
    hide Grants;
    if ds[i].name in ModelOf(ds, fuel).auto {
      var j :| 0 <= j < |ds| && Grants(ds, ds[j], fuel) && ds[j].name == ds[i].name;
    }
    if ds[i].name in ModelOf(ds, fuel).unions {
      var j :| 0 <= j < |ds| && ds[j].StructDecl? && ds[j].isUnion && ds[j].name == ds[i].name;
    }
  }

  lemma NicheAgrees(ds: seq<Decl>, variants: seq<seq<TypeExpr>>)
    ensures NicheTypes(ResolvedVariants(ds, variants)) <==> NicheSyntax(variants)
  {
    forall i | 0 <= i < |variants|
      ensures ResolvedAll(ds, variants[i]) == [] <==> variants[i] == []
      ensures ResolvedAll(ds, variants[i]) == [Pointer] <==> variants[i] == [TPointer]
    {
      if |variants[i]| == 1 {
        assert variants[i] == [variants[i][0]];
        assert ResolvedAll(ds, variants[i]) == [Resolved(ds, variants[i][0])];
        ResolvesToPointer(ds, variants[i][0]);
      }
    }
  }

  lemma ResolvesToPointer(ds: seq<Decl>, t: TypeExpr)
    ensures Resolved(ds, t) == Pointer <==> t == TPointer
  {
  }

  lemma {:induction false} AllAgree(ds: seq<Decl>, ts: seq<TypeExpr>, depth: nat, fuel: nat, budget: nat)
    requires DistinctNames(ds) && depth <= fuel <= budget && AstAll(ds, ts, depth).Some?
    ensures LayoutsOf(TableOf(ds), ModelOf(ds, budget), ResolvedAll(ds, ts), fuel) == AstAll(ds, ts, depth)
    decreases depth, 1, |ts|
  {
    hide ModelOf, TableOf, LayoutOf, AstLayout;
    if ts != [] {
      AllAgree(ds, ts[..|ts| - 1], depth, fuel, budget);
      ModelsAgree(ds, ts[|ts| - 1], depth, fuel, budget);
      assert ResolvedAll(ds, ts)[..|ts| - 1] == ResolvedAll(ds, ts[..|ts| - 1]);
    }
  }

  lemma {:induction false} PayloadsAgree(ds: seq<Decl>, vs: seq<seq<TypeExpr>>, depth: nat, fuel: nat, budget: nat)
    requires DistinctNames(ds) && depth <= fuel <= budget && AstPayloads(ds, vs, depth).Some?
    ensures Payloads(TableOf(ds), ModelOf(ds, budget), ResolvedVariants(ds, vs), fuel) == AstPayloads(ds, vs, depth)
    decreases depth, 2, |vs|
  {
    hide ModelOf, TableOf, LayoutOf, AstLayout, Aggregate;
    if vs != [] {
      PayloadsAgree(ds, vs[..|vs| - 1], depth, fuel, budget);
      AllAgree(ds, vs[|vs| - 1], depth, fuel, budget);
      assert ResolvedVariants(ds, vs)[..|vs| - 1] == ResolvedVariants(ds, vs[..|vs| - 1]);
    }
  }

  // ----- offsets -----

  function Position(fields: seq<Ident>, field: Ident): (k: Option<nat>)
    ensures k.Some? ==> k.value < |fields| && fields[k.value] == field
  {
    if fields == [] then None
    else if fields[0] == field then Some(0)
    else
      match Position(fields[1..], field)
      case Some(k) => Some(k + 1)
      case None => None
  }

  function FieldNames(fields: seq<Field>): (ns: seq<Ident>)
    ensures |ns| == |fields|
  {
    seq(|fields|, i requires 0 <= i < |fields| => fields[i].name)
  }

  function AstOffsetOf(ds: seq<Decl>, n: Ident, field: Ident): Option<nat> {
    var i := IndexOf(ds, n);
    if i.None? || !ds[i.value].StructDecl? then None
    else
      var d := ds[i.value];
      var ls := AstFields(ds, d.fields, d.auto, d.isUnion, AST_DEPTH);
      if ls.None? then None
      else
        var plain := AstAll(ds, FieldTypes(d.fields), AST_DEPTH - 1);
        var names :=
          if !d.isUnion && d.auto && plain.Some? then Emitted(FieldNames(d.fields), AutoOrder(Aligns(plain.value)))
          else FieldNames(d.fields);
        match Position(names, field)
        case None => None
        case Some(k) => Some(if d.isUnion then 0 else OffsetAt(ls.value, k))
  }

  /** The offset in the report that is computed from the table. */
  function ReportedOffset(table: seq<Row>, m: Model, i: nat, names: seq<Ident>, field: Ident, fuel: nat): Option<nat>
    requires i < |table| && table[i].kind.Struct? && |names| == |table[i].kind.fields|
  {
    var ls := LayoutsOf(table, m, table[i].kind.fields, fuel);
    if ls.None? then None
    else
      var order := if table[i].name in m.auto then AutoOrder(Aligns(ls.value)) else UpTo(|names|);
      UpToIsBelow(|names|);
      match Position(Emitted(names, order), field)
      case None => None
      case Some(k) => Some(if table[i].name in m.unions then 0 else OffsetAt(Emitted(ls.value, order), k))
  }

  lemma {:induction false} UpToIs(n: nat, i: nat)
    requires i < n
    ensures UpTo(n)[i] == i
    decreases n
  {
    if i < n - 1 {
      UpToIs(n - 1, i);
    }
  }

  lemma EmittedInPlace<T>(xs: seq<T>)
    requires Below(UpTo(|xs|), |xs|)
    ensures Emitted(xs, UpTo(|xs|)) == xs
  {
    forall i | 0 <= i < |xs| ensures Emitted(xs, UpTo(|xs|))[i] == xs[i] {
      UpToIs(|xs|, i);
    }
  }

  lemma {:induction false} PositionExists(xs: seq<Ident>, x: Ident)
    ensures Position(xs, x).Some? <==> x in xs
  {
    if xs != [] && xs[0] != x {
      PositionExists(xs[1..], x);
    }
  }

  /** The value of an offset query is the offset the report gives. */
  lemma OffsetsAgree(ds: seq<Decl>, n: Ident, field: Ident, fuel: nat)
    requires DistinctNames(ds) && fuel >= AST_DEPTH && AstOffsetOf(ds, n, field).Some?
    ensures var i := IndexOf(ds, n).value;
      ReportedOffset(TableOf(ds), ModelOf(ds, fuel), i, FieldNames(ds[i].fields), field, fuel) == AstOffsetOf(ds, n, field)
  {
    var i := IndexOf(ds, n).value;
    var d := ds[i];
    var table, m := TableOf(ds), ModelOf(ds, fuel);
    var ts := ResolvedAll(ds, FieldTypes(d.fields));
    var names := FieldNames(d.fields);
    AllAgree(ds, FieldTypes(d.fields), AST_DEPTH - 1, fuel, fuel);
    AllInvariant(table, m, EMPTY, ts, fuel);
    ModelKnows(ds, i, fuel);
    var ls := LayoutsOf(table, m, ts, fuel).value;
    UpToIsBelow(|names|);
    EmittedInPlace(names);
    EmittedInPlace(ls);
    var order := AutoOrder(Aligns(ls));
    AutoOrderIsPermutation(Aligns(ls));
    EmittedSameMembers(names, order);
    assert field in multiset(names) <==> field in multiset(Emitted(names, order));
    PositionExists(names, field);
    PositionExists(Emitted(names, order), field);
  }

  // ----- every layout is aligned, so reordering is optimal at every depth -----

  lemma PowersAligned()
    ensures PowerOfTwo(1) && PowerOfTwo(2) && PowerOfTwo(4) && PowerOfTwo(8)
  {
    assert Pow2(0) == 1 && Pow2(1) == 2 && Pow2(2) == 4 && Pow2(3) == 8;
  }

  lemma PrimAligned(n: Ident)
    requires PrimLayout(n).Some?
    ensures Aligned(PrimLayout(n).value)
  {
    PowersAligned();
    var l := PrimLayout(n).value;
    assert l.size == 1 * l.align || l.size == 2 * l.align || l.size == 3 * l.align;
  }

  lemma ScalarAligned(n: nat)
    requires PowerOfTwo(n)
    ensures Aligned(Scalar(n))
  {
    assert n == 1 * n;
  }

  lemma {:induction false} OverlapPower(ls: seq<Layout>)
    requires forall i :: 0 <= i < |ls| ==> Aligned(ls[i])
    ensures PowerOfTwo(Overlap(ls).align)
  {
    PowersAligned();
    if ls != [] {
      OverlapPower(ls[..|ls| - 1]);
    }
  }

  lemma UnionAligned(ls: seq<Layout>)
    requires forall i :: 0 <= i < |ls| ==> Aligned(ls[i])
    ensures Aligned(UnionLayout(ls))
  {
    OverlapPower(ls);
    AlignToBounds(Overlap(ls).size, Overlap(ls).align);
  }

  /** The widest member is a multiple of the strictest alignment only when padded, but the
      tag's struct pads it all the same. */
  lemma TaggedAligned(ps: seq<Layout>)
    requires forall i :: 0 <= i < |ps| ==> Aligned(ps[i])
    ensures Aligned(TaggedLayout(ps))
  {
    OverlapPower(ps);
    PowersAligned();
    TaggedAlign(ps);
    OverlapAlign(ps);
    var two := [Scalar(4), Overlap(ps)];
    AlignToBounds(End(two), MaxAlign(two));
  }

  lemma ArrayAligned(l: Layout, len: nat)
    requires Aligned(l)
    ensures Aligned(Layout(l.size * len, l.align))
  {
    var q: nat :| l.size == q * l.align;
    assert l.size * len == (q * len) * l.align by {
      Regroup(q, len, l.align);
      Regroup(q, l.align, len);
      assert l.align * len == len * l.align;
    }
  }

  lemma {:induction false} LayoutAligned(table: seq<Row>, m: Model, ty: Ty, fuel: nat)
    requires LayoutOf(table, m, ty, fuel).Some?
    ensures Aligned(LayoutOf(table, m, ty, fuel).value)
    decreases fuel, 0, 0
  {
    PowersAligned();
    match ty
    case Unit => assert 0 == 0 * 1;
    case Prim(n) => PrimAligned(n);
    case Pointer => ScalarAligned(8);
    case FnPtr => ScalarAligned(8);
    case Fat => assert 2 * PTR == 2 * 8;
    case Array(len, elem) =>
      LayoutAligned(table, m, elem, fuel - 1);
      ArrayAligned(LayoutOf(table, m, elem, fuel - 1).value, len);
    case Named(i) => NamedAligned(table, m, i, fuel - 1);
    case Result(ok) =>
      LayoutAligned(table, m, ok, fuel - 1);
      ScalarAligned(1);
      ScalarAligned(4);
      var ls := [Scalar(1), LayoutOf(table, m, ok, fuel - 1).value, Scalar(4)];
      hide Aggregate, Aligned;
      AggregateAligned(ls);
  }

  lemma {:induction false} NamedAligned(table: seq<Row>, m: Model, i: nat, fuel: nat)
    requires NamedLayout(table, m, i, fuel).Some?
    ensures Aligned(NamedLayout(table, m, i, fuel).value)
    decreases fuel, 3, 0
  {
    hide Aggregate, Aligned, Auto, UnionLayout, TaggedLayout;
    match table[i].kind
    case Struct(fields) =>
      AllAligned(table, m, fields, fuel - 1);
      var ls := LayoutsOf(table, m, fields, fuel - 1).value;
      UnionAligned(ls);
      AggregateAligned(ls);
      AutoAligned(ls);
    case Enum(variants) =>
      PowersAligned();
      ScalarAligned(8);
      if !NicheTypes(variants) {
        PayloadsAligned(table, m, variants, fuel - 1);
        TaggedAligned(Payloads(table, m, variants, fuel - 1).value);
      }
    case Distinct(base) => LayoutAligned(table, m, base, fuel - 1);
  }

  lemma AutoAligned(ls: seq<Layout>)
    requires forall l :: l in ls ==> Aligned(l)
    ensures Aligned(Aggregate(Auto(ls)))
  {
    AutoKeepsFields(ls);
    hide Auto, Aligned, Aggregate;
    forall l | l in Auto(ls) ensures Aligned(l) {
      assert l in multiset(Auto(ls));
      assert l in ls;
    }
    AggregateAligned(Auto(ls));
  }

  lemma {:induction false} AllAligned(table: seq<Row>, m: Model, ts: seq<Ty>, fuel: nat)
    requires LayoutsOf(table, m, ts, fuel).Some?
    ensures forall i :: 0 <= i < |ts| ==> Aligned(LayoutsOf(table, m, ts, fuel).value[i])
    decreases fuel, 1, |ts|
  {
    hide Aligned;
    if ts != [] {
      AllAligned(table, m, ts[..|ts| - 1], fuel);
      LayoutAligned(table, m, ts[|ts| - 1], fuel);
    }
  }

  lemma {:induction false} PayloadsAligned(table: seq<Row>, m: Model, vs: seq<seq<Ty>>, fuel: nat)
    requires Payloads(table, m, vs, fuel).Some?
    ensures forall i :: 0 <= i < |vs| ==> Aligned(Payloads(table, m, vs, fuel).value[i])
    decreases fuel, 2, |vs|
  {
    hide Aligned, Aggregate;
    if vs != [] {
      PayloadsAligned(table, m, vs[..|vs| - 1], fuel);
      AllAligned(table, m, vs[|vs| - 1], fuel);
      AggregateAligned(LayoutsOf(table, m, vs[|vs| - 1], fuel).value);
    }
  }

  /** A struct that asks for reordering gets the smallest size any order of its fields has. */
  lemma ReorderedStructIsSmallest(table: seq<Row>, m: Model, i: nat, fuel: nat, other: seq<Layout>)
    requires i < |table| && table[i].kind.Struct? && table[i].name in m.auto && table[i].name !in m.unions
    requires fuel > 0 && LayoutsOf(table, m, table[i].kind.fields, fuel - 1).Some?
    requires multiset(other) == multiset(LayoutsOf(table, m, table[i].kind.fields, fuel - 1).value)
    ensures NamedLayout(table, m, i, fuel).Some?
    ensures NamedLayout(table, m, i, fuel).value.size <= Aggregate(other).size
  {
    hide Aligned;
    var fields := table[i].kind.fields;
    AllAligned(table, m, fields, fuel - 1);
    AutoIsBest(LayoutsOf(table, m, fields, fuel - 1).value, other);
  }
}
