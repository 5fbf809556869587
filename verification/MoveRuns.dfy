/** Runs of the same forms: every branch, every number of loop iterations, every jump.
    A value moves whatever form it comes out of. A run goes bad when it touches a binding
    whose value was moved away, or gives away a part of what a binding still owns. */
module MoveRuns {
  import opened Wrappers
  import opened Moves

  datatype Cell = Cell(borrow: bool, gone: bool, source: Source)
  type Env = seq<map<Ident, Cell>>

  /** `Stops` is a run cut short; `Leaves` a `break` or `continue` on its way out. */
  datatype Outcome = Next | Leaves | Returns | Stops | Bad

  /** Whose value an expression has: nobody else's, all that a binding owns, or a part of
      what some binding owns. */
  datatype Value = New | From(scope: nat, x: Ident) | Piece(source: Source)

  /** The tape decides what the program's data would: which branch, whether again. */
  datatype Run = Run(out: Outcome, env: Env, tape: seq<nat>, value: Value)

  function Choice(tape: seq<nat>): nat { if tape == [] then 0 else tape[0] }
  function Rest(tape: seq<nat>): seq<nat> { if tape == [] then [] else tape[1..] }

  predicate Gone(env: Env, x: Ident) {
    var d := Depth(env, x);
    d < |env| && env[d][x].gone
  }

  predicate OwnedHere(env: Env, x: Ident) {
    var d := Depth(env, x);
    d < |env| && !env[d][x].borrow
  }

  predicate BorrowedHere(env: Env, e: Expr) {
    Root(e).Some? && Depth(env, Root(e).value) < |env| && env[Depth(env, Root(e).value)][Root(e).value].borrow
  }

  /** The value of `x` of scope `d` leaves, and the bindings to parts of it are left without them. */
  function MoveAway(env: Env, d: nat, x: Ident): (env': Env)
    ensures |env'| == |env|
  {
    seq(|env|, i requires 0 <= i < |env| => Without(env[i], i, d, x))
  }

  function Without(cells: map<Ident, Cell>, i: nat, d: nat, x: Ident): map<Ident, Cell> {
    map y | y in cells :: if (i == d && y == x) || cells[y].source == Of(d, x) then cells[y].(gone := true) else cells[y]
  }

  /** What a binding to a part of what `x` names shares. */
  function PartHere(env: Env, x: Ident): Source {
    var d := Depth(env, x);
    if d == |env| || env[d][x].source == Whole then Of(d, x) else env[d][x].source
  }

  /** What the bindings of a pattern share with the place that is matched. */
  function MatchedHere(env: Env, x: Ident): Source {
    if OwnedHere(env, x) then PartHere(env, x) else Whole
  }

  function HeldHere(env: Env, x: Ident): Value {
    var d := Depth(env, x);
    if !OwnedHere(env, x) then New else if env[d][x].source == Whole then From(d, x) else Piece(env[d][x].source)
  }

  function Touch(env: Env, x: Ident, tape: seq<nat>, value: Value): Run {
    Run(if Gone(env, x) then Bad else Next, env, tape, value)
  }

  /** A part of a value: of the place whose root is `x`, or else of the base's value. */
  function PieceOf(env: Env, root: Option<Ident>, base: Value): Value {
    match root
    case Some(x) => if OwnedHere(env, x) then Piece(PartHere(env, x)) else New
    case None => if base.From? then Piece(Of(base.scope, base.x)) else base
  }

  /** Who comes to hold the value takes it from the one who held it. */
  function Settle(env: Env, value: Value): (env': Env)
    ensures |env'| == |env|
  {
    if value.From? then MoveAway(env, value.scope, value.x) else env
  }

  /** Where a binding to the value has it from. */
  function SourceFrom(value: Value): Source { if value.Piece? then value.source else Whole }

  function BindCell(env: Env, x: Ident, borrow: bool, source: Source): (env': Env)
    requires |env| > 0
    ensures |env'| == |env| && env'[..|env| - 1] == env[..|env| - 1]
  {
    var top := |env| - 1;
    env[top := NewCell(env[top], top, x, Cell(borrow, false, source))]
  }

  function NewCell(cells: map<Ident, Cell>, top: nat, x: Ident, cell: Cell): map<Ident, Cell> {
    map y | y in cells.Keys + {x} ::
      var held := if y == x then cell else cells[y]; held.(source := Unnamed(held.source, top, x))
  }

  function BindCells(env: Env, xs: seq<(Ident, bool)>, borrow: bool, source: Source): (env': Env)
    requires |env| > 0
    ensures |env'| == |env| && env'[..|env| - 1] == env[..|env| - 1]
    decreases xs
  {
    if xs == [] then env
    else BindCells(BindCell(env, xs[0].0, borrow, if xs[0].1 then source else Whole), xs[1..], borrow, source)
  }

  function BindPairs(env: Env, xs: seq<(Ident, bool)>): (env': Env)
    requires |env| > 0
    ensures |env'| == |env| && env'[..|env| - 1] == env[..|env| - 1]
    decreases xs
  {
    if xs == [] then env else BindPairs(BindCell(env, xs[0].0, xs[0].1, Whole), xs[1..])
  }

  /** Giving a value away for good. A part would be dropped by its owner a second time. */
  function GiveAway(r: Run): (r': Run)
    ensures |r'.env| == |r.env|
  {
    Run(if r.value.Piece? then Bad else Next, Settle(r.env, r.value), r.tape, New)
  }

  /** Is some argument that the callee borrows gone when the callee starts? */
  predicate LentGone(env: Env, args: seq<Arg>) {
    exists i :: 0 <= i < |args| && LendsOwner(args[i]) && Gone(env, Root(args[i].e).value)
  }

  function Eval(fuel: nat, e: Expr, env: Env, tape: seq<nat>): (r: Run)
    ensures |r.env| == |env|
    decreases fuel
  {
    if fuel == 0 then Run(Stops, env, tape, New) else
    match e
    case Leaf => Run(Next, env, tape, New)
    case Jump => Run(Leaves, env, tape, New)
    case Name(x, owns) => Touch(env, x, tape, if owns then HeldHere(env, x) else New)
    case Receiver(owns) => Touch(env, "self", tape, if owns then HeldHere(env, "self") else New)
    case Part(base, index, owns) =>
      var b := Eval(fuel - 1, base, env, tape);
      if b.out != Next then b
      else
        var r := EvalAll(fuel - 1, index, b.env, b.tape);
        if r.out != Next then r
        else
          var value := if owns then PieceOf(r.env, Root(e), b.value) else New;
          if Root(e).Some? then Touch(r.env, Root(e).value, r.tape, value) else r.(value := value)
    case Many(operands) => EvalAll(fuel - 1, operands, env, tape).(value := New)
    case Perhaps(first, second) =>
      var r := Eval(fuel - 1, first, env, tape);
      if r.out != Next then r
      else if Choice(r.tape) == 0 then r.(tape := Rest(r.tape))
      else Eval(fuel - 1, second, r.env, Rest(r.tape))
    case Try(base) =>
      var r := Eval(fuel - 1, base, env, tape);
      if r.out != Next then r
      else r.(out := if Choice(r.tape) == 0 then Next else Returns, tape := Rest(r.tape))
    case Call(args) =>
      var r := EvalArgs(fuel - 1, args, env, tape);
      r.(out := if r.out == Next && LentGone(r.env, args) then Bad else r.out, value := New)
    case Assign(target, value) =>
      var t := Eval(fuel - 1, target, env, tape);
      if t.out != Next then t
      else
        var r := Eval(fuel - 1, value, t.env, t.tape);
        if r.out != Next then r
        else
          var g := GiveAway(r);
          if g.out != Next || Root(target).None? then g else Touch(g.env, Root(target).value, g.tape, New)
    case If(cond, thn, els) =>
      var r := Eval(fuel - 1, cond, env, tape);
      if r.out != Next then r
      else if Choice(r.tape) != 0 then
        var b := EvalBlock(fuel - 1, thn, r.env, Rest(r.tape));
        if els.None? then b.(value := New) else b
      else if els.None? then r.(tape := Rest(r.tape), value := New)
      else Eval(fuel - 1, els.value, r.env, Rest(r.tape))
    case Match(scrut, arms) =>
      var r := Eval(fuel - 1, scrut, env, tape);
      if r.out != Next then r
      else if Root(scrut).Some? then
        EvalArms(fuel - 1, arms, BorrowedHere(env, scrut), MatchedHere(env, Root(scrut).value), r.env, r.tape)
      else EvalArms(fuel - 1, arms, false, SourceFrom(r.value), Settle(r.env, r.value), r.tape)
    case Block(stmts) => EvalBlock(fuel - 1, stmts, env, tape)
    case Loop(_, _, after) =>
      var r := EnterLoop(fuel - 1, e, env, tape);
      if r.out != Next then r
      else if Choice(r.tape) == 0 then r.(tape := Rest(r.tape), value := New)
      else EvalBlock(fuel - 1, after, r.env, Rest(r.tape)).(value := New)
  }

  function EvalAll(fuel: nat, es: seq<Expr>, env: Env, tape: seq<nat>): (r: Run)
    ensures |r.env| == |env|
    decreases fuel
  {
    if fuel == 0 then Run(Stops, env, tape, New)
    else if es == [] then Run(Next, env, tape, New)
    else
      var r := Eval(fuel - 1, es[0], env, tape);
      if r.out != Next then r else EvalAll(fuel - 1, es[1..], r.env, r.tape)
  }

  function EvalArgs(fuel: nat, args: seq<Arg>, env: Env, tape: seq<nat>): (r: Run)
    ensures |r.env| == |env|
    decreases fuel
  {
    if fuel == 0 then Run(Stops, env, tape, New)
    else if args == [] then Run(Next, env, tape, New)
    else
      var r := Eval(fuel - 1, args[0].e, env, tape);
      if r.out != Next then r
      else
        var g := if args[0].mode == Lends then r else GiveAway(r);
        if g.out != Next then g else EvalArgs(fuel - 1, args[1..], g.env, g.tape)
  }

  /** An arm whose pattern fails, or whose guard is false, passes on to the next. Some arm
      is taken in every run: the patterns of a match cover all values. */
  function EvalArms(fuel: nat, arms: seq<Arm>, borrow: bool, source: Source, env: Env, tape: seq<nat>): (r: Run)
    ensures |r.env| == |env|
    decreases fuel
  {
    if fuel == 0 || arms == [] then Run(Stops, env, tape, New)
    else if Choice(tape) == 0 then EvalArms(fuel - 1, arms[1..], borrow, source, env, Rest(tape))
    else
      var inner := BindCells(env + [map[]], arms[0].binds, borrow, source);
      var g := EvalGuard(fuel - 1, arms[0].guard, inner, Rest(tape));
      if g.out != Next then Leave(g, |env|)
      else if arms[0].guard.Some? && Choice(g.tape) == 0 then
        EvalArms(fuel - 1, arms[1..], borrow, source, g.env[..|env|], Rest(g.tape))
      else Leave(Eval(fuel - 1, arms[0].body, g.env, Entered(arms[0], g.tape)), |env|)
  }

  /** The guard's outcome is one more choice. */
  function Entered(arm: Arm, tape: seq<nat>): seq<nat> { if arm.guard.Some? then Rest(tape) else tape }

  function EvalGuard(fuel: nat, guard: Option<Expr>, env: Env, tape: seq<nat>): (r: Run)
    ensures |r.env| == |env|
    decreases fuel
  {
    if fuel == 0 then Run(Stops, env, tape, New)
    else if guard.None? then Run(Next, env, tape, New)
    else Eval(fuel - 1, guard.value, env, tape)
  }

  function Leave(r: Run, depth: nat): (r': Run)
    requires depth <= |r.env|
    ensures |r'.env| == depth && r'.out == r.out && r'.tape == r.tape
  {
    r.(env := r.env[..depth], value := Outlive(r.value, depth))
  }

  /** A value whose binding ends with its scope goes on alone; a part is left without an owner. */
  function Outlive(value: Value, depth: nat): Value {
    match value
    case From(scope, _) => if scope >= depth then New else value
    case Piece(Of(scope, _)) => if scope >= depth then Piece(Orphaned) else value
    case _ => value
  }

  function EvalBlock(fuel: nat, stmts: seq<Stmt>, env: Env, tape: seq<nat>): (r: Run)
    ensures |r.env| == |env|
    decreases fuel
  {
    if fuel == 0 then Run(Stops, env, tape, New) else Leave(EvalStmts(fuel - 1, stmts, env + [map[]], tape), |env|)
  }

  function EvalStmts(fuel: nat, stmts: seq<Stmt>, env: Env, tape: seq<nat>): (r: Run)
    requires |env| > 0
    ensures |r.env| == |env|
    decreases fuel
  {
    if fuel == 0 then Run(Stops, env, tape, New)
    else if stmts == [] then Run(Next, env, tape, New)
    else
      var r := EvalStmt(fuel - 1, stmts[0], env, tape);
      if r.out != Next || |stmts| == 1 then r else EvalStmts(fuel - 1, stmts[1..], r.env, r.tape)
  }

  /** A name hands all it holds to the new binding, a binding to a part included. */
  function LetMoves(init: Expr, r: Run): (env': Env)
    ensures |env'| == |r.env|
  {
    if init.Name? && init.owns && OwnedHere(r.env, init.x) then MoveAway(r.env, Depth(r.env, init.x), init.x)
    else Settle(r.env, r.value)
  }

  function EvalStmt(fuel: nat, s: Stmt, env: Env, tape: seq<nat>): (r: Run)
    requires |env| > 0
    ensures |r.env| == |env|
    decreases fuel
  {
    if fuel == 0 then Run(Stops, env, tape, New) else
    match s
    case Let(x, None) => Run(Next, BindCell(env, x, false, Whole), tape, New)
    case Let(x, Some(init)) =>
      var r := Eval(fuel - 1, init, env, tape);
      if r.out != Next then r
      else
        Run(Next, BindCell(LetMoves(init, r), x, BorrowedHere(r.env, init), SourceFrom(r.value)), r.tape, New)
    case Return(None) => Run(Returns, env, tape, New)
    case Return(Some(value)) =>
      var r := Eval(fuel - 1, value, env, tape);
      if r.out != Next then r else Handed(r, Returns)
    case Do(e) => Eval(fuel - 1, e, env, tape)
  }

  /** A result goes out to the caller. Its owner, if it is a part, is dropped here. */
  function Handed(r: Run, out: Outcome): Run {
    r.(out := if r.value.Piece? then Bad else out)
  }

  /** What is iterated over is evaluated once, before the first iteration. */
  function EnterLoop(fuel: nat, e: Expr, env: Env, tape: seq<nat>): (r: Run)
    requires e.Loop?
    ensures |r.env| == |env|
    decreases fuel
  {
    if fuel == 0 then Run(Stops, env, tape, New)
    else if e.head.Iter? then
      var r := EvalAll(fuel - 1, e.head.sources, env + [map[]], tape);
      if r.out != Next then Leave(r, |env|) else Iterate(fuel - 1, e, r.env[..|env|], r.tape)
    else Iterate(fuel - 1, e, env, tape)
  }

  /** Zero or more iterations, each in a fresh scope; an endless loop has no end of its own. A
      jump out of the body ends the loop, starts the next iteration, or travels on to an outer
      loop. */
  function Iterate(fuel: nat, e: Expr, env: Env, tape: seq<nat>): (r: Run)
    requires e.Loop?
    ensures |r.env| == |env|
    decreases fuel
  {
    if fuel == 0 then Run(Stops, env, tape, New)
    else
      var h := EvalHead(fuel - 1, e.head, env + [map[]], tape);
      if h.out != Next then Leave(h, |env|)
      else if Choice(h.tape) == 0 && !e.head.Infinite? then Run(Next, h.env[..|env|], Rest(h.tape), New)
      else
        var b := EvalBlock(fuel - 1, e.body, h.env, Rest(h.tape));
        if b.out == Next || (b.out == Leaves && Choice(b.tape) == 0) then
          var s := EvalStride(fuel - 1, e.head, b.env, if b.out == Next then b.tape else Rest(b.tape));
          if s.out != Next then Leave(s, |env|) else Iterate(fuel - 1, e, s.env[..|env|], s.tape)
        else if b.out == Leaves && Choice(b.tape) == 1 then Run(Next, b.env[..|env|], Rest(b.tape), New)
        else Leave(b, |env|)
  }

  /** Behind every round the stride is evaluated anew. */
  function EvalStride(fuel: nat, head: Head, env: Env, tape: seq<nat>): (r: Run)
    ensures |r.env| == |env|
    decreases fuel
  {
    if fuel == 0 then Run(Stops, env, tape, New)
    else if head.Iter? && head.stride.Some? then Eval(fuel - 1, head.stride.value, env, tape)
    else Run(Next, env, tape, New)
  }

  function EvalHead(fuel: nat, head: Head, env: Env, tape: seq<nat>): (r: Run)
    requires |env| > 0
    ensures |r.env| == |env|
    decreases fuel
  {
    if fuel == 0 then Run(Stops, env, tape, New) else
    match head
    case Infinite => Run(Next, env, tape, New)
    case While(cond) => Eval(fuel - 1, cond, env, tape)
    case Iter(binds, _, _) => Run(Next, BindPairs(env, binds), tape, New)
  }

  // ----- the marks cover the moves -----

  /** Every binding that is gone in the run is marked in the checker, scope by scope. */
  ghost predicate Covers(c: Ctx, env: Env) {
    c.Ok() && |env| == |c.scopes| && CoversTo(c, env, |env|)
  }

  ghost predicate CoversTo(c: Ctx, env: Env, n: nat)
    requires c.Ok() && n <= |env| == |c.scopes|
  {
    forall i :: 0 <= i < n ==> CoversScope(c.scopes[i], c.sources[i], c.consumed[i], env[i])
  }

  ghost predicate CoversScope(scope: map<Ident, bool>, sources: map<Ident, Source>, marks: map<Ident, Cause>,
                              cells: map<Ident, Cell>)
  {
    && cells.Keys == scope.Keys == sources.Keys
    && forall x :: x in cells ==>
         cells[x].borrow == scope[x] && cells[x].source == sources[x] && (cells[x].gone ==> x in marks)
  }
}
