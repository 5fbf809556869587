/** Where the values of a run come from: the checker's scopes tell which bindings the value
    of an expression may be taken out of, for every form and every run. */
module MoveYields {
  import opened Wrappers
  import opened Moves
  import opened MoveRuns

  // ----- a run changes no binding but by `let`, it only empties them -----

  ghost predicate SameCells(a: map<Ident, Cell>, b: map<Ident, Cell>) {
    a.Keys == b.Keys && forall x :: x in a ==>
      b[x].borrow == a[x].borrow && b[x].source == a[x].source && (a[x].gone ==> b[x].gone)
  }

  ghost predicate Steady(env: Env, env': Env, n: nat) {
    n <= |env| == |env'| && forall i :: 0 <= i < n ==> SameCells(env[i], env'[i])
  }

  lemma SteadyTransitive(env: Env, env1: Env, env2: Env, n: nat)
    requires Steady(env, env1, n) && Steady(env1, env2, n)
    ensures Steady(env, env2, n)
  {
    forall i | 0 <= i < n
      ensures SameCells(env[i], env2[i])
    {
      assert SameCells(env[i], env1[i]) && SameCells(env1[i], env2[i]);
    }
  }

  lemma SteadySelf(env: Env, n: nat)
    requires n <= |env|
    ensures Steady(env, env, n)
  {
  }

  /** The outer scopes, when inner ones are opened and left again. */
  lemma SteadyOuter(env: Env, inner: Env, env': Env)
    requires |env| <= |inner| && inner[..|env|] == env && Steady(inner, env', |env|)
    ensures Steady(env, env'[..|env|], |env|)
  {
    forall i | 0 <= i < |env|
      ensures SameCells(env[i], env'[i])
    {
      assert inner[..|env|][i] == env[i];
      assert SameCells(inner[i], env'[i]);
    }
  }

  lemma SteadyFewer(env: Env, env': Env, m: nat, n: nat)
    requires Steady(env, env', n) && m <= n
    ensures Steady(env, env', m)
  {
  }

  lemma SettleSteady(env: Env, value: Value)
    ensures Steady(env, Settle(env, value), |env|)
  {
  }

  lemma MoveAwaySteady(env: Env, d: nat, x: Ident)
    ensures Steady(env, MoveAway(env, d, x), |env|)
  {
  }

  lemma {:induction false} EvalSteady(fuel: nat, e: Expr, env: Env, tape: seq<nat>)
    ensures Steady(env, Eval(fuel, e, env, tape).env, |env|)
    decreases fuel, 1
  {
    hide Steady, Depth;
    SteadySelf(env, |env|);
    if fuel > 0 {
      match e
      case Leaf | Jump | Name(_, _) | Receiver(_) =>
      case Part(_, _, _) => PartSteady(fuel, e, env, tape);
      case Many(operands) => AllSteady(fuel - 1, operands, env, tape);
      case Perhaps(_, _) => BothSteady(fuel, e, env, tape);
      case Try(base) => EvalSteady(fuel - 1, base, env, tape);
      case Call(args) => ArgsSteady(fuel - 1, args, env, tape);
      case Assign(_, _) => AssignSteady(fuel, e, env, tape);
      case If(_, _, _) => IfSteady(fuel, e, env, tape);
      case Match(scrut, arms) => MatchSteady(fuel, e, env, tape);
      case Block(stmts) => BlockSteady(fuel - 1, stmts, env, tape);
      case Loop(_, _, _) => LoopSteady(fuel, e, env, tape);
    }
  }

  lemma {:induction false} PartSteady(fuel: nat, e: Expr, env: Env, tape: seq<nat>)
    requires fuel > 0 && e.Part?
    ensures Steady(env, Eval(fuel, e, env, tape).env, |env|)
    decreases fuel, 0
  {
    hide Steady, Depth;
    EvalSteady(fuel - 1, e.base, env, tape);
    var b := Eval(fuel - 1, e.base, env, tape);
    AllSteady(fuel - 1, e.index, b.env, b.tape);
    SteadyTransitive(env, b.env, EvalAll(fuel - 1, e.index, b.env, b.tape).env, |env|);
  }

  lemma {:induction false} BothSteady(fuel: nat, e: Expr, env: Env, tape: seq<nat>)
    requires fuel > 0 && e.Perhaps?
    ensures Steady(env, Eval(fuel, e, env, tape).env, |env|)
    decreases fuel, 0
  {
    hide Steady, Depth;
    EvalSteady(fuel - 1, e.first, env, tape);
    var r := Eval(fuel - 1, e.first, env, tape);
    EvalSteady(fuel - 1, e.second, r.env, Rest(r.tape));
    SteadyTransitive(env, r.env, Eval(fuel - 1, e.second, r.env, Rest(r.tape)).env, |env|);
  }

  lemma {:induction false} LoopSteady(fuel: nat, e: Expr, env: Env, tape: seq<nat>)
    requires fuel > 0 && e.Loop?
    ensures Steady(env, Eval(fuel, e, env, tape).env, |env|)
    decreases fuel, 0
  {
    hide Steady, Depth;
    EnterSteady(fuel - 1, e, env, tape);
    var r := EnterLoop(fuel - 1, e, env, tape);
    BlockSteady(fuel - 1, e.after, r.env, Rest(r.tape));
    SteadyTransitive(env, r.env, EvalBlock(fuel - 1, e.after, r.env, Rest(r.tape)).env, |env|);
  }

  lemma {:induction false} AssignSteady(fuel: nat, e: Expr, env: Env, tape: seq<nat>)
    requires fuel > 0 && e.Assign?
    ensures Steady(env, Eval(fuel, e, env, tape).env, |env|)
    decreases fuel, 0
  {
    hide Steady, Depth;
    EvalSteady(fuel - 1, e.target, env, tape);
    var t := Eval(fuel - 1, e.target, env, tape);
    EvalSteady(fuel - 1, e.value, t.env, t.tape);
    var r := Eval(fuel - 1, e.value, t.env, t.tape);
    SettleSteady(r.env, r.value);
    SteadyTransitive(env, t.env, r.env, |env|);
    SteadyTransitive(env, r.env, GiveAway(r).env, |env|);
  }

  lemma {:induction false} IfSteady(fuel: nat, e: Expr, env: Env, tape: seq<nat>)
    requires fuel > 0 && e.If?
    ensures Steady(env, Eval(fuel, e, env, tape).env, |env|)
    decreases fuel, 0
  {
    hide Steady, Depth;
    EvalSteady(fuel - 1, e.cond, env, tape);
    var r := Eval(fuel - 1, e.cond, env, tape);
    BlockSteady(fuel - 1, e.thn, r.env, Rest(r.tape));
    SteadyTransitive(env, r.env, EvalBlock(fuel - 1, e.thn, r.env, Rest(r.tape)).env, |env|);
    if e.els.Some? {
      EvalSteady(fuel - 1, e.els.value, r.env, Rest(r.tape));
      SteadyTransitive(env, r.env, Eval(fuel - 1, e.els.value, r.env, Rest(r.tape)).env, |env|);
    }
  }

  lemma {:induction false} MatchSteady(fuel: nat, e: Expr, env: Env, tape: seq<nat>)
    requires fuel > 0 && e.Match?
    ensures Steady(env, Eval(fuel, e, env, tape).env, |env|)
    decreases fuel, 0
  {
    hide Steady, Depth;
    EvalSteady(fuel - 1, e.scrut, env, tape);
    var r := Eval(fuel - 1, e.scrut, env, tape);
    if r.out == Next {
      SettleSteady(r.env, r.value);
      SteadySelf(r.env, |env|);
      var start := if Root(e.scrut).Some? then r.env else Settle(r.env, r.value);
      var borrow := Root(e.scrut).Some? && BorrowedHere(env, e.scrut);
      var source := if Root(e.scrut).Some? then MatchedHere(env, Root(e.scrut).value) else SourceFrom(r.value);
      ArmsSteady(fuel - 1, e.arms, borrow, source, start, r.tape);
      SteadyTransitive(env, r.env, start, |env|);
      SteadyTransitive(env, start, EvalArms(fuel - 1, e.arms, borrow, source, start, r.tape).env, |env|);
    }
  }

  lemma {:induction false} AllSteady(fuel: nat, es: seq<Expr>, env: Env, tape: seq<nat>)
    ensures Steady(env, EvalAll(fuel, es, env, tape).env, |env|)
    decreases fuel
  {
    hide Steady, Depth, Eval;
    SteadySelf(env, |env|);
    if fuel > 0 && es != [] {
      EvalSteady(fuel - 1, es[0], env, tape);
      var r := Eval(fuel - 1, es[0], env, tape);
      AllSteady(fuel - 1, es[1..], r.env, r.tape);
      SteadyTransitive(env, r.env, EvalAll(fuel - 1, es[1..], r.env, r.tape).env, |env|);
    }
  }

  lemma {:induction false} ArgsSteady(fuel: nat, args: seq<Arg>, env: Env, tape: seq<nat>)
    ensures Steady(env, EvalArgs(fuel, args, env, tape).env, |env|)
    decreases fuel
  {
    hide Steady, Depth, Eval;
    SteadySelf(env, |env|);
    if fuel > 0 && args != [] {
      EvalSteady(fuel - 1, args[0].e, env, tape);
      var r := Eval(fuel - 1, args[0].e, env, tape);
      var g := if args[0].mode == Lends then r else GiveAway(r);
      SettleSteady(r.env, r.value);
      SteadySelf(r.env, |env|);
      SteadyTransitive(env, r.env, g.env, |env|);
      ArgsSteady(fuel - 1, args[1..], g.env, g.tape);
      SteadyTransitive(env, g.env, EvalArgs(fuel - 1, args[1..], g.env, g.tape).env, |env|);
    }
  }

  lemma BindOuter(env: Env, binds: seq<(Ident, bool)>, borrow: bool, source: Source)
    ensures var inner := BindCells(env + [map[]], binds, borrow, source); |inner| == |env| + 1 && inner[..|env|] == env
  {
    assert (env + [map[]])[..|env|] == env;
  }

  lemma {:induction false} GuardSteady(fuel: nat, guard: Option<Expr>, env: Env, tape: seq<nat>)
    ensures Steady(env, EvalGuard(fuel, guard, env, tape).env, |env|)
    decreases fuel, 0
  {
    hide Steady, Depth, Eval;
    SteadySelf(env, |env|);
    if fuel > 0 && guard.Some? {
      EvalSteady(fuel - 1, guard.value, env, tape);
    }
  }

  /** An arm that is tried: its guard, and its body behind that. */
  lemma {:induction false} ArmSteady(fuel: nat, arm: Arm, borrow: bool, source: Source, env: Env, tape: seq<nat>)
    ensures var inner := BindCells(env + [map[]], arm.binds, borrow, source);
            var g := EvalGuard(fuel, arm.guard, inner, tape);
            && Steady(env, g.env[..|env|], |env|)
            && Steady(env, Eval(fuel, arm.body, g.env, Entered(arm, g.tape)).env[..|env|], |env|)
    decreases fuel, 2
  {
    hide Steady, Depth, Eval, EvalGuard, BindCells;
    var n := |env|;
    var inner := BindCells(env + [map[]], arm.binds, borrow, source);
    BindOuter(env, arm.binds, borrow, source);
    var g := EvalGuard(fuel, arm.guard, inner, tape);
    GuardSteady(fuel, arm.guard, inner, tape);
    var b := Eval(fuel, arm.body, g.env, Entered(arm, g.tape));
    EvalSteady(fuel, arm.body, g.env, Entered(arm, g.tape));
    SteadyTransitive(inner, g.env, b.env, n + 1);
    SteadyFewer(inner, g.env, n, n + 1);
    SteadyFewer(inner, b.env, n, n + 1);
    SteadyOuter(env, inner, g.env);
    SteadyOuter(env, inner, b.env);
  }

  lemma {:induction false} ArmsSteady(fuel: nat, arms: seq<Arm>, borrow: bool, source: Source, env: Env, tape: seq<nat>)
    ensures Steady(env, EvalArms(fuel, arms, borrow, source, env, tape).env, |env|)
    decreases fuel
  {
    hide Steady, Depth, Eval, EvalGuard, BindCells;
    SteadySelf(env, |env|);
    if fuel > 0 && arms != [] {
      if Choice(tape) == 0 {
        ArmsSteady(fuel - 1, arms[1..], borrow, source, env, Rest(tape));
      } else {
        ArmSteady(fuel - 1, arms[0], borrow, source, env, Rest(tape));
        var g := EvalGuard(fuel - 1, arms[0].guard, BindCells(env + [map[]], arms[0].binds, borrow, source), Rest(tape));
        ArmsSteady(fuel - 1, arms[1..], borrow, source, g.env[..|env|], Rest(g.tape));
        SteadyTransitive(env, g.env[..|env|], EvalArms(fuel - 1, arms[1..], borrow, source, g.env[..|env|], Rest(g.tape)).env, |env|);
      }
    }
  }

  lemma {:induction false} BlockSteady(fuel: nat, stmts: seq<Stmt>, env: Env, tape: seq<nat>)
    ensures Steady(env, EvalBlock(fuel, stmts, env, tape).env, |env|)
    decreases fuel
  {
    hide Steady, Depth, EvalStmts;
    SteadySelf(env, |env|);
    if fuel > 0 {
      StmtsSteady(fuel - 1, stmts, env + [map[]], tape);
      assert (env + [map[]])[..|env|] == env;
      SteadyOuter(env, env + [map[]], EvalStmts(fuel - 1, stmts, env + [map[]], tape).env);
    }
  }

  lemma {:induction false} StmtsSteady(fuel: nat, stmts: seq<Stmt>, env: Env, tape: seq<nat>)
    requires |env| > 0
    ensures Steady(env, EvalStmts(fuel, stmts, env, tape).env, |env| - 1)
    decreases fuel
  {
    hide Steady, Depth, EvalStmt;
    SteadySelf(env, |env| - 1);
    if fuel > 0 && stmts != [] {
      StmtSteady(fuel - 1, stmts[0], env, tape);
      var r := EvalStmt(fuel - 1, stmts[0], env, tape);
      StmtsSteady(fuel - 1, stmts[1..], r.env, r.tape);
      SteadyTransitive(env, r.env, EvalStmts(fuel - 1, stmts[1..], r.env, r.tape).env, |env| - 1);
    }
  }

  lemma BindSteady(env: Env, x: Ident, borrow: bool, source: Source)
    requires |env| > 0
    ensures Steady(env, BindCell(env, x, borrow, source), |env| - 1)
  {
    var env' := BindCell(env, x, borrow, source);
    forall i | 0 <= i < |env| - 1
      ensures SameCells(env[i], env'[i])
    {
      assert env'[..|env| - 1][i] == env[..|env| - 1][i];
    }
  }

  lemma {:induction false} StmtSteady(fuel: nat, s: Stmt, env: Env, tape: seq<nat>)
    requires |env| > 0
    ensures Steady(env, EvalStmt(fuel, s, env, tape).env, |env| - 1)
    decreases fuel
  {
    hide Steady, Depth, Eval, BindCell;
    var n := |env|;
    SteadySelf(env, n - 1);
    if fuel > 0 {
      match s
      case Let(x, None) => BindSteady(env, x, false, Whole);
      case Let(x, Some(init)) =>
        EvalSteady(fuel - 1, init, env, tape);
        var r := Eval(fuel - 1, init, env, tape);
        if r.out == Next {
          var moved := LetMoves(init, r);
          LetSteady(init, r);
          SteadyTransitive(env, r.env, moved, n);
          SteadyFewer(env, moved, n - 1, n);
          BindSteady(moved, x, BorrowedHere(r.env, init), SourceFrom(r.value));
          SteadyTransitive(env, moved, BindCell(moved, x, BorrowedHere(r.env, init), SourceFrom(r.value)), n - 1);
        } else {
          SteadyFewer(env, r.env, n - 1, n);
        }
      case Return(None) =>
      case Return(Some(value)) =>
        EvalSteady(fuel - 1, value, env, tape);
        SteadyFewer(env, Eval(fuel - 1, value, env, tape).env, n - 1, n);
      case Do(e) =>
        EvalSteady(fuel - 1, e, env, tape);
        SteadyFewer(env, Eval(fuel - 1, e, env, tape).env, n - 1, n);
    }
  }

  lemma LetSteady(init: Expr, r: Run)
    ensures Steady(r.env, LetMoves(init, r), |r.env|)
  {
    hide Steady, Depth;
    SettleSteady(r.env, r.value);
    if init.Name? {
      MoveAwaySteady(r.env, Depth(r.env, init.x), init.x);
    }
  }

  lemma {:induction false} EnterSteady(fuel: nat, e: Expr, env: Env, tape: seq<nat>)
    requires e.Loop?
    ensures Steady(env, EnterLoop(fuel, e, env, tape).env, |env|)
    decreases fuel
  {
    hide Steady, Depth, Iterate, EvalAll;
    SteadySelf(env, |env|);
    if fuel > 0 {
      if e.head.Iter? {
        var inner := env + [map[]];
        AllSteady(fuel - 1, e.head.sources, inner, tape);
        var r := EvalAll(fuel - 1, e.head.sources, inner, tape);
        assert inner[..|env|] == env;
        SteadyFewer(inner, r.env, |env|, |inner|);
        SteadyOuter(env, inner, r.env);
        IterateSteady(fuel - 1, e, r.env[..|env|], r.tape);
        SteadyTransitive(env, r.env[..|env|], Iterate(fuel - 1, e, r.env[..|env|], r.tape).env, |env|);
      } else {
        IterateSteady(fuel - 1, e, env, tape);
      }
    }
  }

  lemma {:induction false} IterateSteady(fuel: nat, e: Expr, env: Env, tape: seq<nat>)
    requires e.Loop?
    ensures Steady(env, Iterate(fuel, e, env, tape).env, |env|)
    decreases fuel
  {
    hide Steady, Depth, EvalHead, EvalBlock, EvalStride;
    var n := |env|;
    SteadySelf(env, n);
    if fuel > 0 {
      var inner := env + [map[]];
      assert inner[..n] == env;
      HeadSteady(fuel - 1, e.head, inner, tape);
      var h := EvalHead(fuel - 1, e.head, inner, tape);
      SteadyOuter(env, inner, h.env);
      BlockSteady(fuel - 1, e.body, h.env, Rest(h.tape));
      var b := EvalBlock(fuel - 1, e.body, h.env, Rest(h.tape));
      SteadyFewer(h.env, b.env, n, n + 1);
      SteadyTransitive(inner, h.env, b.env, n);
      SteadyOuter(env, inner, b.env);
      var tape' := if b.out == Next then b.tape else Rest(b.tape);
      StrideSteady(fuel - 1, e.head, b.env, tape');
      var s := EvalStride(fuel - 1, e.head, b.env, tape');
      SteadyFewer(b.env, s.env, n, n + 1);
      SteadyTransitive(inner, b.env, s.env, n);
      SteadyOuter(env, inner, s.env);
      IterateSteady(fuel - 1, e, s.env[..n], s.tape);
      SteadyTransitive(env, s.env[..n], Iterate(fuel - 1, e, s.env[..n], s.tape).env, n);
    }
  }

  lemma {:induction false} StrideSteady(fuel: nat, head: Head, env: Env, tape: seq<nat>)
    ensures Steady(env, EvalStride(fuel, head, env, tape).env, |env|)
    decreases fuel
  {
    hide Steady, Depth, Eval;
    SteadySelf(env, |env|);
    if fuel > 0 && head.Iter? && head.stride.Some? {
      EvalSteady(fuel - 1, head.stride.value, env, tape);
    }
  }

  lemma {:induction false} HeadSteady(fuel: nat, head: Head, env: Env, tape: seq<nat>)
    requires |env| > 0
    ensures Steady(env, EvalHead(fuel, head, env, tape).env, |env| - 1)
    decreases fuel
  {
    hide Steady, Depth, Eval;
    SteadySelf(env, |env| - 1);
    if fuel > 0 {
      match head
      case Infinite =>
      case While(cond) =>
        EvalSteady(fuel - 1, cond, env, tape);
        SteadyFewer(env, Eval(fuel - 1, cond, env, tape).env, |env| - 1, |env|);
      case Iter(binds, _, _) => PairsSteady(env, binds);
    }
  }

  lemma PairsSteady(env: Env, binds: seq<(Ident, bool)>)
    requires |env| > 0
    ensures Steady(env, BindPairs(env, binds), |env| - 1)
  {
    var env' := BindPairs(env, binds);
    forall i | 0 <= i < |env| - 1
      ensures SameCells(env[i], env'[i])
    {
      assert env'[..|env| - 1][i] == env[..|env| - 1][i];
    }
  }

  // ----- the scopes tell where values come from -----

  /** The checker's scopes describe the run's, though it may not know whose part a binding
      names where the checker does not look. */
  ghost predicate Alike(c: Ctx, env: Env) {
    c.Ok() && |env| == |c.scopes| && forall i :: 0 <= i < |env| ==> AlikeScope(c.scopes[i], c.sources[i], env[i])
  }

  ghost predicate AlikeScope(scope: map<Ident, bool>, sources: map<Ident, Source>, cells: map<Ident, Cell>) {
    && cells.Keys == scope.Keys == sources.Keys
    && forall x :: x in cells ==> cells[x].borrow == scope[x] && (sources[x] == Whole ==> cells[x].source == Whole)
  }

  /** The value is one of those that are expected in a run with `n` scopes. */
  ghost predicate Comes(y: Yield, value: Value, n: nat) {
    && (value.From? ==> (value.scope, value.x) in y.holders && value.scope < n)
    && (value.Piece? ==> y.part)
  }

  lemma AlikeOk(c: Ctx, env: Env)
    requires Alike(c, env)
    ensures c.Ok() && |env| == |c.scopes|
  {
  }

  lemma AlikeSteady(c: Ctx, env: Env, env': Env)
    requires Alike(c, env) && Steady(env, env', |env|)
    ensures Alike(c, env')
  {
    forall i | 0 <= i < |env'|
      ensures AlikeScope(c.scopes[i], c.sources[i], env'[i])
    {
      assert AlikeScope(c.scopes[i], c.sources[i], env[i]) && SameCells(env[i], env'[i]);
    }
  }

  lemma AlikePush(c: Ctx, env: Env)
    requires Alike(c, env)
    ensures Alike(c.Push(), env + [map[]])
  {
    forall i | 0 <= i <= |env|
      ensures AlikeScope(c.Push().scopes[i], c.Push().sources[i], (env + [map[]])[i])
    {
      if i < |env| {
        assert AlikeScope(c.scopes[i], c.sources[i], env[i]);
      }
    }
  }

  lemma AlikeDepth(c: Ctx, env: Env, x: Ident)
    requires Alike(c, env)
    ensures Depth(c.scopes, x) == Depth(env, x)
    ensures var d := Depth(env, x); d < |env| ==> AlikeScope(c.scopes[d], c.sources[d], env[d])
    ensures OwnedHere(env, x) <==> c.Lookup(x) == Some(false)
    ensures c.SourceAt(x) == Whole && OwnedHere(env, x) ==> env[Depth(env, x)][x].source == Whole
  {
    var d, d' := Depth(c.scopes, x), Depth(env, x);
    if d < |env| {
      assert AlikeScope(c.scopes[d], c.sources[d], env[d]);
    }
    if d' < |env| {
      assert AlikeScope(c.scopes[d'], c.sources[d'], env[d']);
    }
  }

  lemma AlikeBorrow(c: Ctx, env: Env, e: Expr)
    requires Alike(c, env)
    ensures BorrowedHere(env, e) <==> IsBorrow(c, e)
  {
    hide Depth;
    if Root(e).Some? {
      AlikeDepth(c, env, Root(e).value);
    }
  }

  lemma AlikeBind(c: Ctx, env: Env, x: Ident, borrow: bool, source: Source, source': Source)
    requires Alike(c, env) && |env| > 0 && (source == Whole ==> source' == Whole)
    ensures Alike(c.Bind(x, borrow, source), BindCell(env, x, borrow, source'))
  {
    hide AlikeScope, Rebound, NewCell, Ctx.Bound, Kept;
    var c', env' := c.Bind(x, borrow, source), BindCell(env, x, borrow, source');
    BindInner(c, x, borrow, source);
    forall i | 0 <= i < |env|
      ensures AlikeScope(c'.scopes[i], c'.sources[i], env'[i])
    {
      assert AlikeScope(c.scopes[i], c.sources[i], env[i]);
      AlikeRebound(c.scopes[i], c.sources[i], env[i], i, x, borrow, source, source');
    }
  }

  lemma AlikeRebound(scope: map<Ident, bool>, sources: map<Ident, Source>, cells: map<Ident, Cell>, top: nat, x: Ident,
                     borrow: bool, source: Source, source': Source)
    requires AlikeScope(scope, sources, cells) && (source == Whole ==> source' == Whole)
    ensures AlikeScope(scope[x := borrow], Rebound(sources, top, x, source), NewCell(cells, top, x, Cell(borrow, false, source')))
  {
  }

  lemma {:induction false} AlikeBindAll(c: Ctx, env: Env, xs: seq<(Ident, bool)>, borrow: bool, source: Source, source': Source)
    requires Alike(c, env) && |env| > 0 && (source == Whole ==> source' == Whole)
    ensures Alike(BindAll(c, xs, borrow, source), BindCells(env, xs, borrow, source'))
    decreases xs
  {
    hide Alike, Kept, Depth, Ctx.Bind, BindCell, Ctx.Bound;
    if xs != [] {
      var x, part := xs[0].0, xs[0].1;
      AlikeOk(c, env);
      AlikeBind(c, env, x, borrow, if part then source else Whole, if part then source' else Whole);
      BindInner(c, x, borrow, if part then source else Whole);
      AlikeBindAll(c.Bind(x, borrow, if part then source else Whole), BindCell(env, x, borrow, if part then source' else Whole),
        xs[1..], borrow, source, source');
    }
  }

  lemma HeldComes(c: Ctx, env: Env, x: Ident)
    requires Alike(c, env)
    ensures Comes(Held(c, x), HeldHere(env, x), |env|)
  {
    hide Depth;
    AlikeDepth(c, env, x);
  }

  /** In every run the value of `e` comes out of one of the bindings that `Yields` names,
      and it is a part only where `Yields` says that it may be one. */
  lemma {:induction false} YieldsSound(fuel: nat, e: Expr, c: Ctx, env: Env, tape: seq<nat>)
    requires Alike(c, env)
    ensures var r := Eval(fuel, e, env, tape); r.out == Next ==> Comes(Yields(c, e), r.value, |env|)
    decreases fuel, 2
  {
    hide Alike, Depth, Held, HeldHere, YieldsBlock, YieldsArms, Settled;
    if fuel > 0 {
      match e
      case Name(x, _) => HeldComes(c, env, x);
      case Receiver(_) => HeldComes(c, env, "self");
      case Part(_, _, _) => PartComes(fuel, e, c, env, tape);
      case Perhaps(_, _) => BothCome(fuel, e, c, env, tape);
      case Try(base) => YieldsSound(fuel - 1, base, c, env, tape);
      case If(_, _, _) => BranchComes(fuel, e, c, env, tape);
      case Match(_, _) => MatchComes(fuel, e, c, env, tape);
      case Block(stmts) => BlockComes(fuel - 1, stmts, c, env, tape);
      case _ =>
    }
  }

  lemma {:induction false} BothCome(fuel: nat, e: Expr, c: Ctx, env: Env, tape: seq<nat>)
    requires Alike(c, env) && fuel > 0 && e.Perhaps?
    ensures var r := Eval(fuel, e, env, tape); r.out == Next ==> Comes(Yields(c, e), r.value, |env|)
    decreases fuel, 0
  {
    hide Alike, Depth;
    AlikeOk(c, env);
    YieldsSound(fuel - 1, e.first, c, env, tape);
    var r := Eval(fuel - 1, e.first, env, tape);
    EvalSteady(fuel - 1, e.first, env, tape);
    AlikeSteady(c, env, r.env);
    YieldsSound(fuel - 1, e.second, c, r.env, Rest(r.tape));
  }

  lemma {:induction false} BranchComes(fuel: nat, e: Expr, c: Ctx, env: Env, tape: seq<nat>)
    requires Alike(c, env) && fuel > 0 && e.If?
    ensures var r := Eval(fuel, e, env, tape); r.out == Next ==> Comes(Yields(c, e), r.value, |env|)
    decreases fuel, 0
  {
    hide Alike, Depth, YieldsBlock, EvalBlock;
    AlikeOk(c, env);
    var r := Eval(fuel - 1, e.cond, env, tape);
    EvalSteady(fuel - 1, e.cond, env, tape);
    AlikeSteady(c, env, r.env);
    BlockComes(fuel - 1, e.thn, c, r.env, Rest(r.tape));
    if e.els.Some? {
      YieldsSound(fuel - 1, e.els.value, c, r.env, Rest(r.tape));
    }
  }

  lemma {:induction false} PartComes(fuel: nat, e: Expr, c: Ctx, env: Env, tape: seq<nat>)
    requires Alike(c, env) && fuel > 0 && e.Part?
    ensures var r := Eval(fuel, e, env, tape); r.out == Next ==> Comes(Yields(c, e), r.value, |env|)
    decreases fuel, 0
  {
    hide Alike, Depth, Steady;
    YieldsSound(fuel - 1, e.base, c, env, tape);
    var b := Eval(fuel - 1, e.base, env, tape);
    EvalSteady(fuel - 1, e.base, env, tape);
    AllSteady(fuel - 1, e.index, b.env, b.tape);
    var r := EvalAll(fuel - 1, e.index, b.env, b.tape);
    SteadyTransitive(env, b.env, r.env, |env|);
    AlikeSteady(c, env, r.env);
    if Root(e).Some? {
      AlikeDepth(c, r.env, Root(e).value);
    }
  }

  /** A matched place shares its parts with the bindings; any other value is settled first. */
  lemma {:induction false} MatchComes(fuel: nat, e: Expr, c: Ctx, env: Env, tape: seq<nat>)
    requires Alike(c, env) && fuel > 0 && e.Match?
    ensures var r := Eval(fuel, e, env, tape); r.out == Next ==> Comes(Yields(c, e), r.value, |env|)
    decreases fuel, 1
  {
    hide Alike, Depth, YieldsArms, Eval, EvalArms, Yields;
    AlikeOk(c, env);
    var r := Eval(fuel - 1, e.scrut, env, tape);
    EvalSteady(fuel - 1, e.scrut, env, tape);
    AlikeSteady(c, env, r.env);
    AlikeBorrow(c, env, e.scrut);
    var start := if Root(e.scrut).Some? then r.env else Settle(r.env, r.value);
    var source := if Root(e.scrut).Some? then MatchedHere(env, Root(e.scrut).value) else SourceFrom(r.value);
    SettleSteady(r.env, r.value);
    AlikeSteady(c, r.env, Settle(r.env, r.value));
    if Root(e.scrut).Some? {
      AlikeDepth(c, env, Root(e.scrut).value);
    } else {
      YieldsSound(fuel - 1, e.scrut, c, env, tape);
    }
    if r.out == Next {
      ArmsCome(fuel - 1, e.arms, IsBorrow(c, e.scrut), ExpectedSource(c, e.scrut), source, c, start, r.tape);
    }
    MatchYields(c, e);
    MatchRuns(fuel, e, env, tape);
  }

  ghost function ExpectedSource(c: Ctx, scrut: Expr): Source
    requires c.Ok()
  {
    if Root(scrut).Some? then MatchSource(c, scrut) else if Yields(c, scrut).part then Orphaned else Whole
  }

  lemma MatchYields(c: Ctx, e: Expr)
    requires e.Match? && c.Ok()
    ensures Yields(c, e) == YieldsArms(c, e.arms, IsBorrow(c, e.scrut), ExpectedSource(c, e.scrut))
  {
    hide Depth, YieldsArms, MatchSource;
    if Root(e.scrut).None? {
      assert Settled(c, e.scrut) == ExpectedSource(c, e.scrut);
    }
  }

  lemma MatchRuns(fuel: nat, e: Expr, env: Env, tape: seq<nat>)
    requires fuel > 0 && e.Match?
    ensures var r := Eval(fuel - 1, e.scrut, env, tape);
            Eval(fuel, e, env, tape) ==
              if r.out != Next then r
              else if Root(e.scrut).Some? then
                EvalArms(fuel - 1, e.arms, BorrowedHere(env, e.scrut), MatchedHere(env, Root(e.scrut).value), r.env, r.tape)
              else EvalArms(fuel - 1, e.arms, false, SourceFrom(r.value), Settle(r.env, r.value), r.tape)
  {
    hide EvalArms, Depth;
  }

  lemma {:induction false} ArmsCome(fuel: nat, arms: seq<Arm>, borrow: bool, source: Source, source': Source, c: Ctx, env: Env,
                                    tape: seq<nat>)
    requires Alike(c, env) && (source == Whole ==> source' == Whole)
    ensures var r := EvalArms(fuel, arms, borrow, source', env, tape);
            r.out == Next ==> Comes(YieldsArms(c, arms, borrow, source), r.value, |env|)
    decreases fuel, 1
  {
    hide Alike, Depth, Eval, EvalArms, EvalGuard, Yields, YieldsArms, BindAll, BindCells, Outlive;
    AlikeOk(c, env);
    ArmsRun(fuel, arms, borrow, source', env, tape);
    if fuel > 0 && arms != [] {
      AlikePush(c, env);
      AlikeOk(c.Push(), env + [map[]]);
      ArmsYield(c, arms, borrow, source);
      if Choice(tape) == 0 {
        ArmsCome(fuel - 1, arms[1..], borrow, source, source', c, env, Rest(tape));
      } else {
        ArmComes(fuel - 1, arms[0], borrow, source, source', c, env, Rest(tape));
        var g := EvalGuard(fuel - 1, arms[0].guard, BindCells(env + [map[]], arms[0].binds, borrow, source'), Rest(tape));
        ArmsCome(fuel - 1, arms[1..], borrow, source, source', c, g.env[..|env|], Rest(g.tape));
      }
    }
  }

  lemma ArmsRun(fuel: nat, arms: seq<Arm>, borrow: bool, source: Source, env: Env, tape: seq<nat>)
    ensures EvalArms(fuel, arms, borrow, source, env, tape) ==
              if fuel == 0 || arms == [] then Run(Stops, env, tape, New)
              else if Choice(tape) == 0 then EvalArms(fuel - 1, arms[1..], borrow, source, env, Rest(tape))
              else
                var g := EvalGuard(fuel - 1, arms[0].guard, BindCells(env + [map[]], arms[0].binds, borrow, source), Rest(tape));
                if g.out != Next then Leave(g, |env|)
                else if arms[0].guard.Some? && Choice(g.tape) == 0 then
                  EvalArms(fuel - 1, arms[1..], borrow, source, g.env[..|env|], Rest(g.tape))
                else Leave(Eval(fuel - 1, arms[0].body, g.env, Entered(arms[0], g.tape)), |env|)
  {
    hide Depth, Eval, EvalGuard, BindCells;
  }

  lemma ArmsYield(c: Ctx, arms: seq<Arm>, borrow: bool, source: Source)
    requires c.Ok() && arms != [] && c.Push().Ok()
    ensures YieldsArms(c, arms, borrow, source) ==
              Yields(BindAll(c.Push(), arms[0].binds, borrow, source), arms[0].body).Below(|c.scopes|)
                .Or(YieldsArms(c, arms[1..], borrow, source))
  {
    hide Depth, Yields, BindAll, Kept;
  }

  /** The scope of an arm is described too, and the ones around it are as before. */
  lemma {:induction false} ArmComes(fuel: nat, arm: Arm, borrow: bool, source: Source, source': Source, c: Ctx, env: Env, tape: seq<nat>)
    requires Alike(c, env) && (source == Whole ==> source' == Whole)
    ensures c.Push().Ok()
    ensures var g := EvalGuard(fuel, arm.guard, BindCells(env + [map[]], arm.binds, borrow, source'), tape);
            && Alike(c, g.env[..|env|])
            && var b := Eval(fuel, arm.body, g.env, Entered(arm, g.tape));
               b.out == Next ==>
                 Comes(Yields(BindAll(c.Push(), arm.binds, borrow, source), arm.body).Below(|env|), Outlive(b.value, |env|), |env|)
    decreases fuel, 3
  {
    hide Alike, Depth, Eval, EvalGuard, Yields, BindAll, BindCells;
    AlikeOk(c, env);
    AlikePush(c, env);
    AlikeOk(c.Push(), env + [map[]]);
    var inner := BindCells(env + [map[]], arm.binds, borrow, source');
    var c1 := BindAll(c.Push(), arm.binds, borrow, source);
    AlikeBindAll(c.Push(), env + [map[]], arm.binds, borrow, source, source');
    ArmSteady(fuel, arm, borrow, source', env, tape);
    var g := EvalGuard(fuel, arm.guard, inner, tape);
    AlikeSteady(c, env, g.env[..|env|]);
    GuardSteady(fuel, arm.guard, inner, tape);
    AlikeSteady(c1, inner, g.env);
    YieldsSound(fuel, arm.body, c1, g.env, Entered(arm, g.tape));
  }

  lemma {:induction false} BlockComes(fuel: nat, stmts: seq<Stmt>, c: Ctx, env: Env, tape: seq<nat>)
    requires Alike(c, env)
    ensures var r := EvalBlock(fuel, stmts, env, tape); r.out == Next ==> Comes(YieldsBlock(c, stmts), r.value, |env|)
    decreases fuel, 1
  {
    hide Alike, Depth, EvalStmts, YieldsStmts;
    if fuel > 0 {
      AlikePush(c, env);
      StmtsCome(fuel - 1, stmts, c.Push(), env + [map[]], tape);
    }
  }

  lemma {:induction false} StmtsCome(fuel: nat, stmts: seq<Stmt>, c: Ctx, env: Env, tape: seq<nat>)
    requires Alike(c, env) && |env| > 0
    ensures var r := EvalStmts(fuel, stmts, env, tape); r.out == Next ==> Comes(YieldsStmts(c, stmts), r.value, |env|)
    decreases fuel, 1
  {
    hide Alike, Depth, EvalStmt, Declare, YieldsLast;
    AlikeOk(c, env);
    if fuel > 0 && stmts != [] {
      StmtComes(fuel - 1, stmts[0], c, env, tape);
      var r := EvalStmt(fuel - 1, stmts[0], env, tape);
      if r.out == Next && |stmts| > 1 {
        StmtsCome(fuel - 1, stmts[1..], Declare(c, stmts[0]), r.env, r.tape);
      }
    }
  }

  lemma {:induction false} StmtComes(fuel: nat, s: Stmt, c: Ctx, env: Env, tape: seq<nat>)
    requires Alike(c, env) && |env| > 0
    ensures var r := EvalStmt(fuel, s, env, tape);
            r.out == Next ==> Comes(YieldsLast(c, s), r.value, |env|) && Alike(Declare(c, s), r.env)
    decreases fuel, 1
  {
    hide Alike, Depth, Eval, Yields, BindCell, Ctx.Bind, SourceOf, LetMoves;
    if fuel > 0 {
      match s
      case Let(x, None) => AlikeBind(c, env, x, false, Whole, Whole);
      case Let(x, Some(init)) =>
        var r := Eval(fuel - 1, init, env, tape);
        EvalSteady(fuel - 1, init, env, tape);
        AlikeSteady(c, env, r.env);
        LetSteady(init, r);
        AlikeSteady(c, r.env, LetMoves(init, r));
        if r.out == Next {
          AlikeBorrow(c, r.env, init);
          InitComes(fuel, init, c, env, tape);
          AlikeBind(c, LetMoves(init, r), x, IsBorrow(c, init), SourceOf(c, init), SourceFrom(r.value));
        }
      case Return(_) =>
      case Do(e) =>
        YieldsSound(fuel - 1, e, c, env, tape);
        EvalSteady(fuel - 1, e, env, tape);
        AlikeSteady(c, env, Eval(fuel - 1, e, env, tape).env);
    }
  }

  /** A binding that the checker's scopes take for a whole value is one. */
  lemma {:induction false} InitComes(fuel: nat, init: Expr, c: Ctx, env: Env, tape: seq<nat>)
    requires Alike(c, env) && fuel > 0 && Eval(fuel - 1, init, env, tape).out == Next
    ensures SourceOf(c, init) == Whole ==> SourceFrom(Eval(fuel - 1, init, env, tape).value) == Whole
    decreases fuel, 0
  {
    hide Alike, Depth, Eval, Yields;
    AlikeOk(c, env);
    YieldsSound(fuel - 1, init, c, env, tape);
    SourceOfIs(c, init);
  }

  lemma SourceOfIs(c: Ctx, e: Expr)
    requires c.Ok()
    ensures SourceOf(c, e) == Whole ==> !Yields(c, e).part
  {
    hide Depth, YieldsArms, YieldsBlock, Ctx.Lookup;
    if !Looked(e) {
      assert SourceOf(c, e) == Settled(c, e);
    }
  }
}
