/** The consuming rule of the escape checker: which bindings own their value, when a
    `take` argument or a rebinding moves it away, and what the checker reports. Beside the
    checker's marks the walk keeps what the checker does not know: moves in forms it does
    not look at, and the shapes in which a run may then go bad. */
module Moves {
  import opened Wrappers

  type Ident = string

  /** The forms of expressions. Type facts are inputs: `owns` says that the place holds a
      resource. A `Part` is a field or an element of its base. */
  datatype Expr =
    | Leaf
    | Jump
    | Name(x: Ident, owns: bool)
    | Receiver(owns: bool)
    | Part(base: Expr, index: seq<Expr>, owns: bool)
    | Many(operands: seq<Expr>)
    | Perhaps(first: Expr, second: Expr)
    | Try(base: Expr)
    | Call(args: seq<Arg>)
    | Assign(target: Expr, value: Expr)
    | If(cond: Expr, thn: seq<Stmt>, els: Option<Expr>)
    | Match(scrut: Expr, arms: seq<Arm>)
    | Block(stmts: seq<Stmt>)
    | Loop(head: Head, body: seq<Stmt>, after: seq<Stmt>)

  datatype Arg = Arg(e: Expr, mode: Mode)

  /** What becomes of an argument. `Takes` is a `take` parameter of a callee the checker
      resolves; `Keeps` one it does not look at, or a field of a literal. */
  datatype Mode = Lends | Takes | Keeps

  /** A pattern's bindings, each with whether it holds a resource. */
  datatype Arm = Arm(binds: seq<(Ident, bool)>, guard: Option<Expr>, body: Expr)
  datatype Head =
    | Infinite
    | While(cond: Expr)
    | Iter(binds: seq<(Ident, bool)>, sources: seq<Expr>, stride: Option<Expr>)
  datatype Stmt = Let(x: Ident, init: Option<Expr>) | Return(value: Option<Expr>) | Do(e: Expr)

  // ----- scopes -----

  /** The innermost scope that binds `x`; `|scopes|` when none does. */
  function Depth<T>(scopes: seq<map<Ident, T>>, x: Ident): (d: nat)
    ensures d <= |scopes|
    ensures d < |scopes| ==> x in scopes[d]
    ensures forall i :: d < i < |scopes| ==> x !in scopes[i]
    ensures d == |scopes| ==> forall i :: 0 <= i < |scopes| ==> x !in scopes[i]
  {
    if scopes == [] then 0
    else if x in scopes[|scopes| - 1] then |scopes| - 1
    else
      var d := Depth(scopes[..|scopes| - 1], x);
      if d == |scopes| - 1 then |scopes| else d
  }

  /** The root of a place, when the expression is one. */
  function Root(e: Expr): Option<Ident> {
    match e
    case Name(x, _) => Some(x)
    case Receiver(_) => Some("self")
    case Part(base, _, _) => Root(base)
    case _ => None
  }

  /** The places that the checker looks at when their value moves. */
  predicate Looked(e: Expr) {
    Root(e).Some? && !e.Receiver?
  }

  /** Does a callee that borrows the argument hold a resource while it runs? */
  predicate LendsOwner(arg: Arg) {
    arg.mode == Lends && Root(arg.e).Some? &&
    match arg.e
    case Name(_, owns) => owns
    case Receiver(owns) => owns
    case Part(_, _, owns) => owns
    case _ => false
  }

  // ----- the checker's state -----

  /** Why a binding is marked. `Unseen` marks are those the checker does not make. */
  datatype Cause = TakeArg | Rebind | Unseen

  datatype Diag = UsedAfterMove(x: Ident, why: Cause) | GivenInLoop(x: Ident) | PartGiven(root: Ident)

  /** Shapes the checker accepts although a run may misuse a moved binding. */
  datatype Hazard =
    | UsedUnseen(x: Ident)
    | ReachesMoved(x: Ident)
    | MovedInLoop
    | GuardMoves
    | GivesPart
    | PartOutlives
    | ReturnsPart
    | StrideMoves
    | ClauseMoves

  /** Where a binding has its value from: it is the only one to hold it, or it names a part
      of what another binding owns; `Orphaned` if that one has been shadowed since. */
  datatype Source = Whole | Of(scope: nat, owner: Ident) | Orphaned

  /** Rebinding `x` in scope `top`. */
  function Rebound(sources: map<Ident, Source>, top: nat, x: Ident, source: Source): map<Ident, Source> {
    map y | y in sources.Keys + {x} :: Unnamed(if y == x then source else sources[y], top, x)
  }

  function Unnamed(source: Source, top: nat, x: Ident): Source {
    if source == Of(top, x) then Orphaned else source
  }

  /** The checker does not know about `sources`, `hazards` and the `Unseen` marks. */
  datatype Ctx = Ctx(
    scopes: seq<map<Ident, bool>>,
    sources: seq<map<Ident, Source>>,
    consumed: seq<map<Ident, Cause>>,
    floors: seq<nat>,
    diags: seq<Diag>,
    hazards: seq<Hazard>)
  {
    ghost predicate Ok() {
      |scopes| == |consumed| == |sources| && Bound()
    }

    /** Only what is bound has a mark or a source. */
    ghost predicate Bound()
      requires |scopes| == |consumed| == |sources|
    {
      forall i :: 0 <= i < |scopes| ==> consumed[i].Keys <= scopes[i].Keys && sources[i].Keys == scopes[i].Keys
    }

    /** The source of the binding that `x` names. */
    function SourceAt(x: Ident): Source
      requires Ok()
    {
      var d := Depth(scopes, x);
      if d < |scopes| then sources[d][x] else Whole
    }

    /** The source of a binding to a part of what `x` names. */
    function PartOf(x: Ident): Source
      requires Ok()
    {
      if SourceAt(x) == Whole then Of(Depth(scopes, x), x) else SourceAt(x)
    }

    /** Does some binding name a part of what `x` of scope `d` owns? */
    predicate HasParts(d: nat, x: Ident) {
      exists i, y :: 0 <= i < |sources| && y in sources[i] && sources[i][y] == Of(d, x)
    }

    function Lookup(x: Ident): Option<bool> {
      var d := Depth(scopes, x);
      if d < |scopes| then Some(scopes[d][x]) else None
    }

    function CauseOf(x: Ident): Option<Cause>
      requires |scopes| == |consumed|
    {
      var d := Depth(scopes, x);
      if d < |scopes| && x in consumed[d] then Some(consumed[d][x]) else None
    }

    function Push(): Ctx {
      this.(scopes := scopes + [map[]], sources := sources + [map[]], consumed := consumed + [map[]])
    }

    function Pop(): Ctx
      requires |scopes| == |consumed| == |sources| > 0
    {
      this.(scopes := scopes[..|scopes| - 1], sources := sources[..|sources| - 1], consumed := consumed[..|consumed| - 1])
    }

    function Bind(x: Ident, borrow: bool, source: Source): Ctx
      requires |scopes| == |consumed| == |sources| > 0
    {
      var top := |scopes| - 1;
      this.(scopes := scopes[top := scopes[top][x := borrow]],
            sources := sources[top := Rebound(sources[top], top, x, source)],
            consumed := consumed[top := consumed[top] - {x}])
    }

    function Mark(x: Ident, why: Cause): Ctx
      requires |scopes| == |consumed|
    {
      var d := Depth(scopes, x);
      if d < |scopes| then this.(consumed := consumed[d := consumed[d][x := why]]) else this
    }

    /** Marks what the checker does not, and leaves its own marks alone. */
    function MarkUnseen(holders: set<(nat, Ident)>): Ctx
      requires |scopes| == |consumed|
    {
      this.(consumed := seq(|scopes|, i requires 0 <= i < |scopes| => consumed[i] + UnseenIn(scopes[i], consumed[i], i, holders)))
    }

    function Report(d: Diag): Ctx { this.(diags := diags + [d]) }
    function Suspect(h: Hazard): Ctx { this.(hazards := hazards + [h]) }

    /** Is `x` bound outside the innermost loop? */
    predicate Outside(x: Ident) {
      Depth(scopes, x) < |scopes| && BelowFloor(Depth(scopes, x))
    }

    predicate BelowFloor(d: nat) {
      floors != [] && d < floors[|floors| - 1]
    }
  }

  /** Before anything is bound. */
  const NOTHING := Ctx([], [], [], [], [], [])

  function UnseenIn(scope: map<Ident, bool>, marks: map<Ident, Cause>, i: nat, holders: set<(nat, Ident)>): map<Ident, Cause> {
    map x | x in scope && x !in marks && (i, x) in holders :: Unseen
  }

  function Merge(into: seq<map<Ident, Cause>>, from: seq<map<Ident, Cause>>): (m: seq<map<Ident, Cause>>)
    requires |into| == |from|
    ensures |m| == |into|
    ensures forall i :: 0 <= i < |m| ==> m[i].Keys == into[i].Keys + from[i].Keys
  {
    seq(|into|, i requires 0 <= i < |into| => Both(into[i], from[i]))
  }

  /** The later mark wins, unless the checker does not make it. */
  function Both(into: map<Ident, Cause>, from: map<Ident, Cause>): map<Ident, Cause> {
    map x | x in into.Keys + from.Keys :: if x !in into || (x in from && from[x] != Unseen) then from[x] else into[x]
  }

  predicate IsBorrow(c: Ctx, e: Expr) {
    Root(e).Some? && c.Lookup(Root(e).value) == Some(true)
  }

  // ----- where values come from -----

  /** The bindings a value may come out of, and whether it may be a part of what one owns. */
  datatype Yield = Yield(holders: set<(nat, Ident)>, part: bool) {
    predicate Fresh() { holders == {} && !part }

    function Or(other: Yield): Yield { Yield(holders + other.holders, part || other.part) }

    /** What was bound above scope `n` is gone, and its value is nobody else's. */
    function Below(n: nat): Yield { Yield((set h | h in holders && h.0 < n), part) }
  }

  const NOBODY := Yield({}, false)

  function Held(c: Ctx, x: Ident): Yield
    requires c.Ok()
  {
    if c.Lookup(x) == Some(false) then Yield({(Depth(c.scopes, x), x)}, c.SourceAt(x) != Whole) else NOBODY
  }

  /** The result of a block, an `if`, a `match`, a `catch` or a `?` is that of its tails. */
  function Yields(c: Ctx, e: Expr): Yield
    requires c.Ok()
    decreases e, 1
  {
    match e
    case Name(x, owns) => if owns then Held(c, x) else NOBODY
    case Receiver(owns) => if owns then Held(c, "self") else NOBODY
    case Part(base, _, owns) =>
      if owns && (if Root(e).Some? then c.Lookup(Root(e).value) == Some(false) else !Yields(c, base).Fresh())
      then Yield({}, true) else NOBODY
    case Perhaps(first, second) => Yields(c, first).Or(Yields(c, second))
    case Try(base) => Yields(c, base)
    case If(_, thn, els) => if els.None? then NOBODY else YieldsBlock(c, thn).Or(Yields(c, els.value))
    case Match(scrut, arms) =>
      YieldsArms(c, arms, IsBorrow(c, scrut), if Root(scrut).None? then Settled(c, scrut) else MatchSource(c, scrut))
    case Block(stmts) => YieldsBlock(c, stmts)
    case _ => NOBODY
  }

  function YieldsBlock(c: Ctx, stmts: seq<Stmt>): Yield
    requires c.Ok()
    decreases stmts, 1
  {
    YieldsStmts(c.Push(), stmts).Below(|c.scopes|)
  }

  function YieldsStmts(c: Ctx, stmts: seq<Stmt>): Yield
    requires c.Ok() && |c.scopes| > 0
    decreases stmts, 0
  {
    if stmts == [] then NOBODY
    else if |stmts| == 1 then YieldsLast(c, stmts[0])
    else YieldsStmts(Declare(c, stmts[0]), stmts[1..])
  }

  function YieldsLast(c: Ctx, s: Stmt): Yield
    requires c.Ok()
    decreases s
  {
    if s.Do? then Yields(c, s.e) else NOBODY
  }

  function YieldsArms(c: Ctx, arms: seq<Arm>, borrow: bool, source: Source): Yield
    requires c.Ok()
    decreases arms, 0
  {
    if arms == [] then NOBODY
    else
      Yields(BindAll(c.Push(), arms[0].binds, borrow, source), arms[0].body).Below(|c.scopes|)
        .Or(YieldsArms(c, arms[1..], borrow, source))
  }

  /** What a statement binds. */
  function Declare(c: Ctx, s: Stmt): (c': Ctx)
    requires c.Ok() && |c.scopes| > 0
    ensures c'.Ok() && |c'.scopes| == |c.scopes|
    decreases s
  {
    match s
    case Let(x, None) =>
      BindInner(c, x, false, Whole);
      c.Bind(x, false, Whole)
    case Let(x, Some(init)) =>
      BindInner(c, x, IsBorrow(c, init), SourceOf(c, init));
      c.Bind(x, IsBorrow(c, init), SourceOf(c, init))
    case _ => c
  }

  /** What a binding gets from the expression it is bound to. */
  function SourceOf(c: Ctx, e: Expr): Source
    requires c.Ok()
    decreases e, 3
  {
    if e.Name? && e.owns && c.Lookup(e.x) == Some(false) then c.SourceAt(e.x)
    else if e.Part? && e.owns && Root(e).Some? && c.Lookup(Root(e).value) == Some(false) then c.PartOf(Root(e).value)
    else if Looked(e) then Whole
    else Settled(c, e)
  }

  /** What the bindings of a pattern get from the place that is matched. */
  function MatchSource(c: Ctx, e: Expr): Source
    requires c.Ok()
  {
    if Root(e).Some? && c.Lookup(Root(e).value) == Some(false) then c.PartOf(Root(e).value) else Whole
  }

  /** Behind a form the checker does not look at, whose part it may be is not known. */
  function Settled(c: Ctx, e: Expr): Source
    requires c.Ok()
    decreases e, 2
  {
    if Yields(c, e).part then Orphaned else Whole
  }

  // ----- moves and uses -----

  /** The value of `x` moves away. A binding to a part of it would be left behind. */
  function MoveOut(c: Ctx, x: Ident, why: Cause): Ctx
    requires |c.scopes| == |c.consumed|
  {
    var c1 := c.Mark(x, why);
    if c.HasParts(Depth(c.scopes, x), x) then c1.Suspect(PartOutlives) else c1
  }

  /** The marking half: `e` is being given to a `take` parameter. */
  function Consume(c: Ctx, e: Expr): Ctx
    requires c.Ok()
  {
    match e
    case Name(x, owns) =>
      if c.Lookup(x) != Some(false) || !owns then c
      else if c.Outside(x) then c.Report(GivenInLoop(x))
      else if c.SourceAt(x) != Whole then MoveOut(c, x, TakeArg).Suspect(GivesPart)
      else MoveOut(c, x, TakeArg)
    case Part(_, _, owns) =>
      if Root(e).None? || c.Lookup(Root(e).value) != Some(false) || !owns then c else c.Report(PartGiven(Root(e).value))
    case _ => c
  }

  /** The value of `e` moves and the checker does not look: nothing is reported, and only
      a mark that it does not make remembers the move. */
  function Slip(c: Ctx, e: Expr): Ctx
    requires c.Ok()
  {
    var y := Yields(c, e);
    c.MarkUnseen(y.holders).(hazards := c.hazards + Doubts(c, y))
  }

  function Doubts(c: Ctx, y: Yield): seq<Hazard> {
    (if y.part then [GivesPart] else [])
    + (if exists h :: h in y.holders && c.HasParts(h.0, h.1) then [PartOutlives] else [])
    + (if exists h :: h in y.holders && c.BelowFloor(h.0) then [MovedInLoop] else [])
  }

  /** The use half: naming a binding that was moved is reported, if the checker knows. */
  function Use(c: Ctx, x: Ident): Ctx
    requires |c.scopes| == |c.consumed|
  {
    match c.CauseOf(x)
    case Some(Unseen) => c.Suspect(UsedUnseen(x))
    case Some(why) => c.Report(UsedAfterMove(x, why))
    case None => c
  }

  /** Naming the receiver is never reported. */
  function UseReceiver(c: Ctx): Ctx
    requires |c.scopes| == |c.consumed|
  {
    if c.CauseOf("self").Some? then c.Suspect(UsedUnseen("self")) else c
  }

  /** A place that was looked at some time ago is read or written now. */
  function Reach(c: Ctx, e: Expr): Ctx
    requires |c.scopes| == |c.consumed|
  {
    if Root(e).Some? && c.CauseOf(Root(e).value).Some? then c.Suspect(ReachesMoved(Root(e).value)) else c
  }

  // ----- the walk -----

  predicate Clean(c: Ctx, c': Ctx) {
    c'.diags == c.diags && c'.hazards == c.hazards
  }

  /** What every part of the walk keeps: the outer `n` scopes, every report made and
      every mark, and, when nothing is reported, the marks of all bindings below the
      innermost loop floor. */
  ghost predicate Kept(c: Ctx, c': Ctx, n: nat) {
    && c'.Ok() && n <= |c.scopes| == |c'.scopes| == |c.consumed|
    && |c.sources| == |c.scopes|
    && c'.scopes[..n] == c.scopes[..n] && c'.sources[..n] == c.sources[..n]
    && c'.floors == c.floors
    && c.diags <= c'.diags && c.hazards <= c'.hazards
    && (forall i :: 0 <= i < n ==> c.consumed[i].Keys <= c'.consumed[i].Keys)
    && (Clean(c, c') && c.floors != [] ==>
          forall i :: 0 <= i < n && i < c.floors[|c.floors| - 1] ==> c'.consumed[i].Keys == c.consumed[i].Keys)
  }

  ghost predicate SameShape(c: Ctx, c': Ctx) {
    Kept(c, c', |c.scopes|)
  }

  ghost predicate Inner(c: Ctx, c': Ctx) {
    |c.scopes| > 0 && Kept(c, c', |c.scopes| - 1)
  }

  lemma KeptTransitive(c: Ctx, c1: Ctx, c2: Ctx, n: nat)
    requires Kept(c, c1, n) && Kept(c1, c2, n)
    ensures Kept(c, c2, n)
  {
  }

  lemma KeptSame(c: Ctx)
    requires c.Ok()
    ensures SameShape(c, c)
  {
  }

  lemma UseKept(c: Ctx, x: Ident)
    requires c.Ok()
    ensures SameShape(c, Use(c, x)) && SameScopes(c, Use(c, x))
    ensures SameShape(c, UseReceiver(c)) && SameScopes(c, UseReceiver(c))
  {
    hide Kept, Depth;
    SuspectKept(c, UsedUnseen(x));
    SuspectKept(c, UsedUnseen("self"));
    if c.CauseOf(x).Some? {
      ReportKept(c, UsedAfterMove(x, c.CauseOf(x).value));
    }
  }

  lemma SuspectKept(c: Ctx, h: Hazard)
    requires c.Ok()
    ensures SameShape(c, c.Suspect(h)) && SameScopes(c, c.Suspect(h))
    ensures SameShape(c, c) && SameScopes(c, c)
  {
  }

  lemma ReachKept(c: Ctx, e: Expr)
    requires c.Ok()
    ensures SameShape(c, Reach(c, e)) && SameScopes(c, Reach(c, e))
  {
    hide Kept, Depth, SameScopes;
    SuspectKept(c, ReachesMoved(if Root(e).Some? then Root(e).value else ""));
  }

  lemma SlipKept(c: Ctx, e: Expr)
    requires c.Ok()
    ensures SameShape(c, Slip(c, e)) && SameScopes(c, Slip(c, e))
  {
    hide Yields, Ctx.HasParts, Depth;
    var y, c' := Yields(c, e), Slip(c, e);
    if Clean(c, c') && c.floors != [] {
      NoDoubts(c, y);
      assert forall i: nat, x :: i < c.floors[|c.floors| - 1] ==> (i, x) !in y.holders;
    }
  }

  lemma NoDoubts(c: Ctx, y: Yield)
    requires c.hazards + Doubts(c, y) == c.hazards
    ensures !y.part && forall i: nat, x :: (i, x) in y.holders ==> !c.HasParts(i, x) && !c.BelowFloor(i)
  {
    hide Ctx.HasParts, Ctx.BelowFloor;
    assert |Doubts(c, y)| == 0;
    forall i: nat, x | (i, x) in y.holders
      ensures !c.HasParts(i, x) && !c.BelowFloor(i)
    {
      assert (i, x).0 == i && (i, x).1 == x;
    }
  }

  /** Marking or reporting changes no scope. */
  lemma MoveOutKept(c: Ctx, x: Ident, why: Cause)
    requires c.Ok() && !c.Outside(x)
    ensures SameShape(c, MoveOut(c, x, why)) && SameScopes(c, MoveOut(c, x, why))
  {
    hide Ctx.HasParts;
  }

  /** Where a loop may come back, a suspicion excuses the mark. */
  lemma MoveOutExcused(c: Ctx, x: Ident, why: Cause, h: Hazard)
    requires c.Ok()
    ensures SameShape(c, MoveOut(c, x, why).Suspect(h)) && SameScopes(c, MoveOut(c, x, why).Suspect(h))
  {
    hide Ctx.HasParts, Ctx.Outside;
  }

  ghost predicate SameScopes(c: Ctx, c': Ctx) {
    c'.Ok() && c'.scopes == c.scopes && c'.sources == c.sources && c'.floors == c.floors
  }

  lemma AlsoSuspect(c: Ctx, c': Ctx, h: Hazard)
    requires SameShape(c, c') && SameScopes(c, c')
    ensures SameShape(c, c'.Suspect(h)) && SameScopes(c, c'.Suspect(h))
  {
  }

  lemma ReportKept(c: Ctx, d: Diag)
    requires c.Ok()
    ensures SameShape(c, c.Report(d)) && SameScopes(c, c.Report(d))
    ensures SameShape(c, c) && SameScopes(c, c)
  {
  }

  /** An evaluated argument is handed to its parameter. */
  function Give(c: Ctx, arg: Arg): Ctx
    requires c.Ok()
  {
    match arg.mode
    case Lends => c
    case Takes => if Looked(arg.e) then Consume(c, arg.e) else Slip(c, arg.e)
    case Keeps => Slip(c, arg.e)
  }

  lemma GiveKept(c: Ctx, arg: Arg)
    requires c.Ok()
    ensures SameShape(c, Give(c, arg)) && SameScopes(c, Give(c, arg))
  {
    hide Kept, SameScopes, Consume, Slip;
    SuspectKept(c, GivesPart);
    ConsumeKept(c, arg.e);
    SlipKept(c, arg.e);
  }

  lemma ConsumeKept(c: Ctx, e: Expr)
    requires c.Ok()
    ensures SameShape(c, Consume(c, e)) && SameScopes(c, Consume(c, e))
  {
    hide Kept, SameScopes, Depth, MoveOut, Ctx.Outside;
    match e
    case Name(x, owns) =>
      ReportKept(c, GivenInLoop(x));
      if !c.Outside(x) {
        MoveOutKept(c, x, TakeArg);
        AlsoSuspect(c, MoveOut(c, x, TakeArg), GivesPart);
      }
    case Part(_, _, _) => ReportKept(c, PartGiven(if Root(e).Some? then Root(e).value else ""));
    case _ => ReportKept(c, GivenInLoop(""));
  }

  function Walk(c: Ctx, e: Expr): (c': Ctx)
    requires c.Ok()
    ensures SameShape(c, c') && c'.Ok() && c'.scopes == c.scopes && c'.sources == c.sources && c'.floors == c.floors
    decreases e, 1
  {
    hide Kept, Ctx.Bound, Use, UseReceiver, Reach;
    KeptSame(c);
    match e
    case Leaf => c
    case Jump => c
    case Name(x, _) =>
      UseKept(c, x);
      Use(c, x)
    case Receiver(_) =>
      UseKept(c, "self");
      UseReceiver(c)
    case Part(_, _, _) => WalkPart(c, e)
    case Many(operands) => WalkAll(c, operands)
    case Perhaps(first, second) => WalkBoth(c, e, first, second)
    case Try(base) => Walk(c, base)
    case Call(args) =>
      var c1 := WalkArgs(c, args);
      KeptTransitive(c, c1, Lent(c1, args), |c.scopes|);
      Lent(c1, args)
    case Assign(target, value) =>
      var c1 := WalkBoth(c, e, target, value);
      KeptTransitive(c, c1, Overwrite(c1, target, value), |c.scopes|);
      Overwrite(c1, target, value)
    case If(cond, _, _) => WalkBranches(c, e)
    case Match(scrut, arms) => WalkMatch(c, e)
    case Block(stmts) => WalkBlock(c, stmts)
    case Loop(_, _, after) =>
      var c1 := WalkLoop(c, e);
      KeptTransitive(c, c1, WalkBlock(c1, after), |c.scopes|);
      WalkBlock(c1, after)
  }

  function WalkBoth(c: Ctx, e: Expr, first: Expr, second: Expr): (c': Ctx)
    requires c.Ok() && (e == Perhaps(first, second) || e == Assign(first, second))
    ensures SameShape(c, c') && c'.Ok() && c'.scopes == c.scopes && c'.sources == c.sources && c'.floors == c.floors
    decreases e, 0
  {
    var c1 := Walk(c, first);
    var c2 := Walk(c1, second);
    KeptTransitive(c, c1, c2, |c.scopes|);
    c2
  }

  /** The target takes the value over; it was looked at before the value was. */
  function Overwrite(c: Ctx, target: Expr, value: Expr): (c': Ctx)
    requires c.Ok()
    ensures SameShape(c, c') && c'.Ok() && c'.scopes == c.scopes && c'.sources == c.sources && c'.floors == c.floors
  {
    hide Kept, Slip, Reach;
    SlipKept(c, value);
    ReachKept(Slip(c, value), target);
    KeptTransitive(c, Slip(c, value), Reach(Slip(c, value), target), |c.scopes|);
    Reach(Slip(c, value), target)
  }

  /** The base is looked at first, and read when its index is known. */
  function WalkPart(c: Ctx, e: Expr): (c': Ctx)
    requires c.Ok() && e.Part?
    ensures SameShape(c, c') && c'.Ok() && c'.scopes == c.scopes && c'.sources == c.sources && c'.floors == c.floors
    decreases e, 0
  {
    hide Kept, Reach;
    var c1 := Walk(c, e.base);
    var c2 := WalkAll(c1, e.index);
    KeptTransitive(c, c1, c2, |c.scopes|);
    ReachKept(c2, e);
    KeptTransitive(c, c2, Reach(c2, e), |c.scopes|);
    Reach(c2, e)
  }

  /** What is lent is read by the callee, when all arguments have been evaluated. */
  function Lent(c: Ctx, args: seq<Arg>): (c': Ctx)
    requires c.Ok()
    ensures SameShape(c, c') && c'.Ok() && c'.scopes == c.scopes && c'.sources == c.sources && c'.floors == c.floors
    decreases args
  {
    hide Kept, Reach;
    KeptSame(c);
    if args == [] then c
    else
      ReachKept(c, args[0].e);
      var c1 := if LendsOwner(args[0]) then Reach(c, args[0].e) else c;
      KeptTransitive(c, c1, Lent(c1, args[1..]), |c.scopes|);
      Lent(c1, args[1..])
  }

  function WalkMatch(c: Ctx, e: Expr): (c': Ctx)
    requires c.Ok() && e.Match?
    ensures SameShape(c, c') && c'.Ok() && c'.scopes == c.scopes && c'.sources == c.sources && c'.floors == c.floors
    decreases e, 0
  {
    hide Kept, MatchSource, Slip;
    var c0 := Walk(c, e.scrut);
    SlipKept(c0, e.scrut);
    KeptSame(c0);
    var c1 := if Root(e.scrut).None? then Slip(c0, e.scrut) else c0;
    var c2 := WalkArms(c1, e.arms, IsBorrow(c, e.scrut), MatchSource(c, e.scrut), c1.consumed);
    KeptTransitive(c, c0, c1, |c.scopes|);
    KeptTransitive(c, c1, c2, |c.scopes|);
    c2
  }

  /** Both branches start from the marks after the condition; their marks are united.
      Without an `else` the marks of the branch stay. */
  function WalkBranches(c: Ctx, e: Expr): (c': Ctx)
    requires c.Ok() && e.If?
    ensures SameShape(c, c') && c'.Ok() && c'.scopes == c.scopes && c'.sources == c.sources && c'.floors == c.floors
    decreases e, 0
  {
    var c0 := Walk(c, e.cond);
    var c1 := WalkBlock(c0, e.thn);
    KeptTransitive(c, c0, c1, |c.scopes|);
    match e.els
    case None => c1
    case Some(els) =>
      var c2 := Walk(c1.(consumed := c0.consumed), els);
      var c3 := c2.(consumed := Merge(c2.consumed, c1.consumed));
      Union(c0, c1, c2);
      KeptTransitive(c, c0, c3, |c.scopes|);
      c3
  }

  /** Uniting two walks that started from the same marks. */
  lemma Union(c0: Ctx, c1: Ctx, c2: Ctx)
    requires SameShape(c0, c1) && SameShape(c1.(consumed := c0.consumed), c2)
    ensures SameShape(c0, c2.(consumed := Merge(c2.consumed, c1.consumed)))
  {
  }

  /** The loop's own scope lies above its floor, its body above that. */
  function WalkLoop(c: Ctx, e: Expr): (c': Ctx)
    requires c.Ok() && e.Loop?
    ensures SameShape(c, c') && c'.Ok() && c'.scopes == c.scopes && c'.sources == c.sources && c'.floors == c.floors
    decreases e, 0
  {
    var c1 := c.(floors := c.floors + [|c.scopes|]).Push();
    var c2 := WalkHead(c1, e.head);
    var c3 := WalkBlock(c2, e.body);
    var c4 := Striding(c3, e.head);
    KeptFewer(c2, c3, |c.scopes|);
    KeptTransitive(c1, c2, c3, |c.scopes|);
    KeptFewer(c3, c4, |c.scopes|);
    KeptTransitive(c1, c3, c4, |c.scopes|);
    LeftLoop(c, c4);
    c4.Pop().(floors := c.floors)
  }

  /** The stride is not walked. It runs behind the body, in each round. */
  function Striding(c: Ctx, head: Head): (c': Ctx)
    requires c.Ok()
    ensures SameShape(c, c') && c'.Ok() && c'.scopes == c.scopes && c'.sources == c.sources && c'.floors == c.floors
    decreases head, 0
  {
    hide Kept;
    SuspectKept(c, StrideMoves);
    if head.Iter? && head.stride.Some? && !Clean(c, Walk(c, head.stride.value)) then c.Suspect(StrideMoves) else c
  }

  lemma LeftLoop(c: Ctx, c': Ctx)
    requires c.Ok() && Kept(c.(floors := c.floors + [|c.scopes|]).Push(), c', |c.scopes|)
    ensures SameShape(c, c'.Pop().(floors := c.floors))
  {
  }

  function WalkAll(c: Ctx, es: seq<Expr>): (c': Ctx)
    requires c.Ok()
    ensures SameShape(c, c') && c'.Ok() && c'.scopes == c.scopes && c'.sources == c.sources && c'.floors == c.floors
    decreases es, 0
  {
    if es == [] then c else WalkAll(Walk(c, es[0]), es[1..])
  }

  function WalkArgs(c: Ctx, args: seq<Arg>): (c': Ctx)
    requires c.Ok()
    ensures SameShape(c, c') && c'.Ok() && c'.scopes == c.scopes && c'.sources == c.sources && c'.floors == c.floors
    decreases args, 0
  {
    if args == [] then c else WalkArgs(WalkArg(c, args[0]), args[1..])
  }

  function WalkArg(c: Ctx, arg: Arg): (c': Ctx)
    requires c.Ok()
    ensures SameShape(c, c') && c'.Ok() && c'.scopes == c.scopes && c'.sources == c.sources && c'.floors == c.floors
    decreases arg, 0
  {
    hide Kept, Give;
    var c1 := Walk(c, arg.e);
    GiveKept(c1, arg);
    KeptTransitive(c, c1, Give(c1, arg), |c.scopes|);
    Give(c1, arg)
  }

  function BindAll(c: Ctx, xs: seq<(Ident, bool)>, borrow: bool, source: Source): (c': Ctx)
    requires c.Ok() && |c.scopes| > 0
    ensures Inner(c, c') && c'.Ok() && |c'.scopes| == |c.scopes| && c'.floors == c.floors
    decreases xs
  {
    if xs == [] then c
    else
      hide Kept, Depth, Ctx.Bind, Ctx.Bound;
      var (x, part) := (xs[0].0, if xs[0].1 then source else Whole);
      BindInner(c, x, borrow, part);
      var c' := BindAll(c.Bind(x, borrow, part), xs[1..], borrow, source);
      KeptTransitive(c, c.Bind(x, borrow, part), c', |c.scopes| - 1);
      c'
  }

  lemma BindInner(c: Ctx, x: Ident, borrow: bool, source: Source)
    requires c.Ok() && |c.scopes| > 0
    ensures c.Bind(x, borrow, source).Ok() && Inner(c, c.Bind(x, borrow, source))
    ensures |c.Bind(x, borrow, source).scopes| == |c.scopes| && c.Bind(x, borrow, source).floors == c.floors
  {
  }

  /** Arms start from `saved` and their marks are united into `c.consumed`. */
  function WalkArms(c: Ctx, arms: seq<Arm>, borrow: bool, source: Source, saved: seq<map<Ident, Cause>>): (c': Ctx)
    requires c.Ok() && Within(saved, c.consumed)
    ensures SameShape(c, c') && c'.Ok() && c'.scopes == c.scopes && c'.sources == c.sources && c'.floors == c.floors
    decreases arms, 0
  {
    if arms == [] then c
    else
      var c1 := WalkArm(c.(consumed := saved), arms[0], borrow, source, |arms| == 1);
      var c2 := c1.(consumed := Merge(c.consumed, c1.consumed));
      ArmUnion(c, saved, c1);
      var c3 := WalkArms(c2, arms[1..], borrow, source, saved);
      KeptTransitive(c, c2, c3, |c.scopes|);
      c3
  }

  ghost predicate Within(a: seq<map<Ident, Cause>>, b: seq<map<Ident, Cause>>) {
    |a| == |b| && forall i :: 0 <= i < |a| ==> a[i].Keys <= b[i].Keys
  }

  lemma ArmUnion(c: Ctx, saved: seq<map<Ident, Cause>>, c1: Ctx)
    requires c.Ok() && Within(saved, c.consumed) && SameShape(c.(consumed := saved), c1)
    ensures |c1.scopes| == |c1.consumed| == |c.consumed| && c1.(consumed := Merge(c.consumed, c1.consumed)).Ok()
    ensures SameShape(c, c1.(consumed := Merge(c.consumed, c1.consumed)))
    ensures Within(saved, Merge(c.consumed, c1.consumed))
  {
  }

  function WalkArm(c: Ctx, arm: Arm, borrow: bool, source: Source, last: bool): (c': Ctx)
    requires c.Ok()
    ensures SameShape(c, c') && c'.Ok() && c'.scopes == c.scopes && c'.sources == c.sources && c'.floors == c.floors
    decreases arm, 0
  {
    var c1 := BindAll(c.Push(), arm.binds, borrow, source);
    var c2 := if arm.guard.None? then c1 else WalkGuard(c1, arm.guard.value, c.consumed, last);
    var c3 := Walk(c2, arm.body);
    KeptFewer(c1, c2, |c.scopes|);
    KeptFewer(c2, c3, |c.scopes|);
    KeptTransitive(c.Push(), c1, c2, |c.scopes|);
    KeptTransitive(c.Push(), c2, c3, |c.scopes|);
    Popped(c, c3);
    c3.Pop()
  }

  lemma KeptFewer(c: Ctx, c': Ctx, n: nat)
    requires SameShape(c, c') && n <= |c.scopes|
    ensures Kept(c, c', n)
  {
  }

  lemma PushOk(c: Ctx)
    requires c.Ok()
    ensures c.Push().Ok() && |c.Push().scopes| == |c.scopes| + 1
  {
  }

  lemma Popped(c: Ctx, c': Ctx)
    requires c.Ok() && Kept(c.Push(), c', |c.scopes|)
    ensures SameShape(c, c'.Pop()) && SameScopes(c, c'.Pop())
  {
  }

  function WalkGuard(c: Ctx, g: Expr, saved: seq<map<Ident, Cause>>, last: bool): (c': Ctx)
    requires c.Ok() && |c.scopes| == |saved| + 1
    ensures SameShape(c, c') && c'.Ok() && c'.scopes == c.scopes && c'.sources == c.sources && c'.floors == c.floors
    decreases g, 2
  {
    var c1 := Walk(c, g);
    if !last && exists i :: 0 <= i < |saved| && c1.consumed[i].Keys != saved[i].Keys then c1.Suspect(GuardMoves) else c1
  }

  function WalkHead(c: Ctx, head: Head): (c': Ctx)
    requires c.Ok() && |c.scopes| > 0
    ensures Inner(c, c') && c'.Ok() && |c'.scopes| == |c.scopes| && c'.floors == c.floors
    decreases head, 1
  {
    match head
    case Infinite => c
    case While(cond) =>
      var c1 := Walk(c, cond);
      KeptFewer(c, c1, |c.scopes| - 1);
      c1
    case Iter(binds, sources, _) =>
      var c1 := WalkAll(c, sources);
      var c2 := BindEach(c1, binds);
      KeptFewer(c, c1, |c.scopes| - 1);
      KeptTransitive(c, c1, c2, |c.scopes| - 1);
      c2
  }

  function BindEach(c: Ctx, binds: seq<(Ident, bool)>): (c': Ctx)
    requires c.Ok() && |c.scopes| > 0
    ensures Inner(c, c') && c'.Ok() && |c'.scopes| == |c.scopes| && c'.floors == c.floors
    decreases binds
  {
    if binds == [] then c
    else
      hide Kept, Depth, Ctx.Bind, Ctx.Bound;
      BindInner(c, binds[0].0, binds[0].1, Whole);
      var c1 := c.Bind(binds[0].0, binds[0].1, Whole);
      KeptTransitive(c, c1, BindEach(c1, binds[1..]), |c.scopes| - 1);
      BindEach(c1, binds[1..])
  }

  function WalkBlock(c: Ctx, stmts: seq<Stmt>): (c': Ctx)
    requires c.Ok()
    ensures SameShape(c, c') && c'.Ok() && c'.scopes == c.scopes && c'.sources == c.sources && c'.floors == c.floors
    decreases stmts, 1
  {
    hide Kept, WalkStmts;
    PushOk(c);
    var c1 := WalkStmts(c.Push(), stmts);
    Popped(c, c1);
    c1.Pop()
  }

  function WalkStmts(c: Ctx, stmts: seq<Stmt>): (c': Ctx)
    requires c.Ok() && |c.scopes| > 0
    ensures Inner(c, c') && c'.Ok() && |c'.scopes| == |c.scopes| && c'.floors == c.floors
    decreases stmts, 0
  {
    if stmts == [] then c
    else
      var c1 := WalkStmt(c, stmts[0]);
      var c2 := WalkStmts(c1, stmts[1..]);
      KeptTransitive(c, c1, c2, |c.scopes| - 1);
      c2
  }

  function WalkStmt(c: Ctx, s: Stmt): (c': Ctx)
    requires c.Ok() && |c.scopes| > 0
    ensures Inner(c, c') && c'.Ok() && |c'.scopes| == |c.scopes| && c'.floors == c.floors
    decreases s, 1
  {
    hide Kept, Depth, Ctx.Bind, Ctx.Bound, SourceOf, Returning;
    KeptSame(c);
    match s
    case Let(x, None) =>
      BindKept(c, c, x, false, Whole);
      c.Bind(x, false, Whole)
    case Let(x, Some(init)) =>
      var c1 := Walk(c, init);
      var c2 := MoveSource(c1, init);
      KeptTransitive(c, c1, c2, |c.scopes|);
      BindKept(c, c2, x, IsBorrow(c1, init), SourceOf(c1, init));
      c2.Bind(x, IsBorrow(c1, init), SourceOf(c1, init))
    case Return(None) =>
      KeptFewer(c, c, |c.scopes| - 1);
      c
    case Return(Some(value)) =>
      var c1 := Walk(c, value);
      ReturningKept(c1, value);
      KeptTransitive(c, c1, Returning(c1, value), |c.scopes|);
      KeptFewer(c, Returning(c1, value), |c.scopes| - 1);
      Returning(c1, value)
    case Do(e) =>
      KeptFewer(c, Walk(c, e), |c.scopes| - 1);
      Walk(c, e)
  }

  lemma BindKept(c: Ctx, c': Ctx, x: Ident, borrow: bool, source: Source)
    requires SameShape(c, c') && |c.scopes| > 0
    ensures c'.Bind(x, borrow, source).Ok() && Inner(c, c'.Bind(x, borrow, source))
    ensures |c'.Bind(x, borrow, source).scopes| == |c.scopes| && c'.Bind(x, borrow, source).floors == c.floors
  {
  }

  /** A result that is a part goes out while its owner is dropped here. */
  function Returning(c: Ctx, value: Expr): Ctx
    requires c.Ok()
  {
    if Yields(c, value).part then c.Suspect(ReturnsPart) else c
  }

  lemma ReturningKept(c: Ctx, value: Expr)
    requires c.Ok()
    ensures SameShape(c, Returning(c, value)) && SameScopes(c, Returning(c, value))
  {
    hide Kept, Yields;
    SuspectKept(c, ReturnsPart);
  }

  /** A bare owning name moves into the new binding. A field or an element does not; what
      comes out of any other form moves unseen. */
  function MoveSource(c: Ctx, init: Expr): (c': Ctx)
    requires c.Ok()
    ensures SameShape(c, c') && c'.Ok() && c'.scopes == c.scopes && c'.sources == c.sources && c'.floors == c.floors
  {
    hide Kept, Depth, MoveOut, Slip;
    KeptSame(c);
    if !Looked(init) then
      SlipKept(c, init);
      Slip(c, init)
    else if init.Name? && c.Lookup(init.x) == Some(false) && init.owns then
      MoveOutExcused(c, init.x, Rebind, MovedInLoop);
      if c.Outside(init.x) then MoveOut(c, init.x, Rebind).Suspect(MovedInLoop)
      else
        MoveOutKept(c, init.x, Rebind);
        MoveOut(c, init.x, Rebind)
    else c
  }
}
