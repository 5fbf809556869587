/** Reports are right: in straight code each report of the checker has a run in which a moved
    value is used or a part is given away. */
module MoveReports {
  import opened Wrappers
  import opened Moves
  import opened MoveRuns
  import opened MoveYields
  import opened MoveSoundness
  import opened MoveMarks
  import opened MovePaths

  // ----- the scopes of walk and run go together -----

  ghost predicate Paired(c: Ctx, env: Env) {
    c.Ok() && |env| == |c.scopes| && forall i :: 0 <= i < |env| ==> PairedScope(c.scopes[i], env[i])
  }

  ghost predicate PairedScope(scope: map<Ident, bool>, cells: map<Ident, Cell>) {
    cells.Keys == scope.Keys && forall x :: x in cells ==> cells[x].borrow == scope[x]
  }

  lemma PairedOk(c: Ctx, env: Env)
    requires Paired(c, env)
    ensures c.Ok() && |env| == |c.scopes|
  {
  }

  lemma PairedSame(c: Ctx, c': Ctx, env: Env)
    requires Paired(c, env) && c'.Ok() && c'.scopes == c.scopes
    ensures Paired(c', env)
  {
  }

  lemma PairedSteady(c: Ctx, env: Env, env': Env)
    requires Paired(c, env) && Steady(env, env', |env|)
    ensures Paired(c, env')
  {
    forall i | 0 <= i < |env'|
      ensures PairedScope(c.scopes[i], env'[i])
    {
      assert PairedScope(c.scopes[i], env[i]) && SameCells(env[i], env'[i]);
    }
  }

  lemma PairedPush(c: Ctx, env: Env)
    requires Paired(c, env)
    ensures Paired(c.Push(), env + [map[]])
  {
    forall i | 0 <= i <= |env|
      ensures PairedScope(c.Push().scopes[i], (env + [map[]])[i])
    {
      if i < |env| {
        assert PairedScope(c.scopes[i], env[i]);
      }
    }
  }

  lemma PairedDepth(c: Ctx, env: Env, x: Ident)
    requires Paired(c, env)
    ensures Depth(c.scopes, x) == Depth(env, x)
    ensures OwnedHere(env, x) <==> c.Lookup(x) == Some(false)
  {
    var d, d' := Depth(c.scopes, x), Depth(env, x);
    if d < |env| {
      assert PairedScope(c.scopes[d], env[d]);
    }
    if d' < |env| {
      assert PairedScope(c.scopes[d'], env[d']);
    }
  }

  lemma PairedBorrow(c: Ctx, env: Env, e: Expr)
    requires Paired(c, env)
    ensures BorrowedHere(env, e) <==> IsBorrow(c, e)
  {
    if Root(e).Some? {
      var x := Root(e).value;
      PairedDepth(c, env, x);
      var d := Depth(env, x);
      if d < |env| {
        assert PairedScope(c.scopes[d], env[d]);
      }
    }
  }

  lemma PairedBind(c: Ctx, env: Env, x: Ident, borrow: bool, source: Source, source': Source)
    requires Paired(c, env) && |env| > 0
    ensures Paired(c.Bind(x, borrow, source), BindCell(env, x, borrow, source'))
  {
    hide PairedScope, Rebound, NewCell, Ctx.Bound, Kept;
    var c', env' := c.Bind(x, borrow, source), BindCell(env, x, borrow, source');
    BindInner(c, x, borrow, source);
    forall i | 0 <= i < |env|
      ensures PairedScope(c'.scopes[i], env'[i])
    {
      assert PairedScope(c.scopes[i], env[i]);
      PairedRebound(c.scopes[i], env[i], i, x, borrow, source');
    }
  }

  lemma PairedRebound(scope: map<Ident, bool>, cells: map<Ident, Cell>, top: nat, x: Ident, borrow: bool, source': Source)
    requires PairedScope(scope, cells)
    ensures PairedScope(scope[x := borrow], NewCell(cells, top, x, Cell(borrow, false, source')))
  {
  }

  lemma {:induction false} PairedBindAll(c: Ctx, env: Env, xs: seq<(Ident, bool)>, borrow: bool, source: Source, source': Source)
    requires Paired(c, env) && |env| > 0
    ensures Paired(BindAll(c, xs, borrow, source), BindCells(env, xs, borrow, source'))
    decreases xs
  {
    hide Paired, Kept, Depth, Ctx.Bind, BindCell, Ctx.Bound;
    PairedOk(c, env);
    if xs != [] {
      var x, part := xs[0].0, xs[0].1;
      PairedBind(c, env, x, borrow, if part then source else Whole, if part then source' else Whole);
      BindInner(c, x, borrow, if part then source else Whole);
      PairedBindAll(c.Bind(x, borrow, if part then source else Whole), BindCell(env, x, borrow, if part then source' else Whole),
        xs[1..], borrow, source, source');
    }
  }

  lemma {:induction false} PairedBindEach(c: Ctx, env: Env, xs: seq<(Ident, bool)>)
    requires Paired(c, env) && |env| > 0
    ensures Paired(BindEach(c, xs), BindPairs(env, xs))
    decreases xs
  {
    hide Paired, Kept, Depth, Ctx.Bind, BindCell, Ctx.Bound;
    PairedOk(c, env);
    if xs != [] {
      var x, borrow := xs[0].0, xs[0].1;
      PairedBind(c, env, x, borrow, Whole, Whole);
      BindInner(c, x, borrow, Whole);
      PairedBindEach(c.Bind(x, borrow, Whole), BindCell(env, x, borrow, Whole), xs[1..]);
    }
  }

  /** What is gone in the outer `n` scopes stays gone. */
  lemma GoneStays(env: Env, env': Env, n: nat, d: nat, x: Ident)
    requires Steady(env, env', n) && d < n && GoneAt(env, d, x)
    ensures GoneAt(env', d, x)
  {
    assert SameCells(env[d], env'[d]);
  }

  lemma OuterGone(env: Env, n: nat, d: nat, x: Ident)
    requires d < n <= |env|
    ensures GoneAt(env[..n], d, x) == GoneAt(env, d, x)
  {
  }

  // ----- goals of a walk -----

  predicate Marked(c: Ctx, goal: Goal) { goal.Moved? ==> goal.d < |c.scopes| && MarkedAt(c, goal.d, goal.x) }

  predicate Met0(env: Env, goal: Goal) { goal.Moved? ==> GoneAt(env, goal.d, goal.x) }

  /** A goal that the walk from `c` to `c'` makes reachable: a mark that is there at the end;
      if it was there before, its value is gone already. */
  predicate Asked(c: Ctx, c': Ctx, env: Env, goal: Goal) {
    goal != Harm && Marked(c', goal) && (Marked(c, goal) ==> Met0(env, goal))
  }

  /** What to ask of the first part of the way. */
  function Early(c1: Ctx, goal: Goal): Goal { if Marked(c1, goal) then goal else Passed }

  lemma AskedEarly(c: Ctx, c1: Ctx, c': Ctx, env: Env, goal: Goal)
    requires Asked(c, c', env, goal) && |c.scopes| == |c1.scopes|
    ensures Asked(c, c1, env, Early(c1, goal))
  {
  }

  lemma AskedLate(c: Ctx, c1: Ctx, c': Ctx, env: Env, env1: Env, goal: Goal)
    requires Asked(c, c', env, goal) && Met(Next, env1, Early(c1, goal))
    ensures Asked(c1, c', env1, goal)
  {
  }

  /** A form gets on once its first part has come to an end, or goes bad in it. */
  lemma Onwards(task: Task, next: Task, env: Env, r0: Run, goal: Goal)
    requires First(task).Some? && Fit(task, env) && Second(task, next) && Possible(First(task).value, env, r0)
    requires r0.out == Bad || (r0.out == Next && Lands(next, r0.env, goal))
    ensures Lands(task, env, goal)
  {
    hide First, Fit, Second, Possible;
    if r0.out == Bad {
      assert Lands(First(task).value, env, Harm);
      BadFirst(task, env, goal);
    } else {
      Continues(task, next, env, r0, goal);
    }
  }

  /** An expression leaves the scopes as they are, and what was gone in them gone. */
  lemma ExprSteady(c: Ctx, e: Expr, env: Env, r: Run)
    requires Paired(c, env) && Possible(Ex(e), env, r)
    ensures |r.env| == |env| && Paired(c, r.env) && Steady(env, r.env, |env|)
  {
    hide Possible, Paired, Steady;
    PossibleSteady(Ex(e), env, r);
    PairedSteady(c, env, r.env);
  }

  /** What is gone already stays gone, wherever a run gets. */
  lemma PassedKeeps(task: Task, env: Env, goal: Goal)
    requires Lands(task, env, Passed) && goal != Harm && Met0(env, goal) && (goal.Moved? ==> goal.d < Outer(task, env))
    ensures Lands(task, env, goal)
  {
    hide Possible, Steady, Outer, GoneAt;
    var r :| Possible(task, env, r) && Met(r.out, r.env, Passed);
    PossibleSteady(task, env, r);
    if goal.Moved? {
      GoneStays(env, r.env, Outer(task, env), goal.d, goal.x);
    }
    assert Met(r.out, r.env, goal);
  }

  // ----- whatever is marked can be gone -----

  /** Straight code comes to its end, or goes bad; and whatever it marks can be gone then. */
  lemma {:induction false} ReachExpr(e: Expr, c: Ctx, env: Env, goal: Goal)
    requires Paired(c, env) && Straight(e) && Asked(c, Walk(c, e), env, goal)
    ensures Lands(Ex(e), env, goal)
    decreases e, 9
  {
    hide Kept, Depth, Ctx.Bound, Possible, Lands, WalkArgs, WalkBlock, WalkAll, WalkLoop, WalkBoth;
    PairedOk(c, env);
    match e
    case Leaf => LeafLands(env, goal);
    case Name(x, _) =>
      UseMarks(c, x, None);
      NameLands(env, e, goal);
    case Receiver(_) =>
      UseMarks(c, "self", None);
      NameLands(env, e, goal);
    case Part(_, _, _) => ReachPart(e, c, env, goal);
    case Many(operands) =>
      ReachAll(operands, c, env, goal);
      StopsAfter(Ex(e), env, goal);
    case Perhaps(first, second) => ReachBoth(e, first, second, c, env, goal);
    case Try(base) =>
      ReachExpr(base, c, env, goal);
      StopsAfter(Ex(e), env, goal);
    case Call(args) =>
      LentMarks(WalkArgs(c, args), args, None);
      ReachArgs(args, c, env, goal);
      StopsAfter(Ex(e), env, goal);
    case Assign(target, value) =>
      OverwriteMarks(WalkBoth(c, e, target, value), target, value, None);
      ReachBoth(e, target, value, c, env, goal);
    case If(_, _, _) => ReachIf(e, c, env, goal);
    case Match(_, _) => ReachMatch(e, c, env, goal);
    case Block(stmts) =>
      ReachBlock(stmts, c, env, goal);
      StopsAfter(Ex(e), env, goal);
    case Loop(_, _, _) => ReachLoop(e, c, env, goal);
  }

  lemma LeafLands(env: Env, goal: Goal)
    requires goal != Harm && Met0(env, goal)
    ensures Lands(Ex(Leaf), env, goal)
  {
    hide Possible;
    LeafRuns(env);
    assert Met(Run(Next, env, [], New).out, Run(Next, env, [], New).env, goal);
  }

  lemma NameLands(env: Env, e: Expr, goal: Goal)
    requires (e.Name? || e.Receiver?) && goal != Harm && Met0(env, goal)
    ensures Lands(Ex(e), env, goal)
  {
    hide Possible, Gone, HeldHere;
    NameRuns(env, e);
    var r := NameRun(env, Root(e).value, e.owns);
    assert Met(r.out, r.env, goal);
  }

  lemma {:induction false} ReachBoth(e: Expr, first: Expr, second: Expr, c: Ctx, env: Env, goal: Goal)
    requires Paired(c, env) && (e == Perhaps(first, second) || e == Assign(first, second)) && Straight(e)
    requires Asked(c, WalkBoth(c, e, first, second), env, goal)
    ensures Lands(Ex(e), env, goal)
    decreases e, 0
  {
    hide Kept, Depth, Ctx.Bound, Possible, Paired, Walk, Asked, Early;
    PairedOk(c, env);
    var c1 := Walk(c, first);
    AskedEarly(c, c1, Walk(c1, second), env, goal);
    ReachExpr(first, c, env, Early(c1, goal));
    var r0 :| Possible(Ex(first), env, r0) && Met(r0.out, r0.env, Early(c1, goal));
    if r0.out == Next {
      ExprSteady(c, first, env, r0);
      PairedSame(c, c1, r0.env);
      AskedLate(c, c1, Walk(c1, second), env, r0.env, goal);
      ReachExpr(second, c1, r0.env, goal);
    }
    Onwards(Ex(e), Ex(second), env, r0, goal);
  }

  lemma {:induction false} ReachPart(e: Expr, c: Ctx, env: Env, goal: Goal)
    requires e.Part? && Paired(c, env) && Straight(e) && Asked(c, Walk(c, e), env, goal)
    ensures Lands(Ex(e), env, goal)
    decreases e, 0
  {
    hide Kept, Depth, Ctx.Bound, Possible, Paired, Walk, WalkAll, Early, MarkedAt;
    PairedOk(c, env);
    PartIs(c, e);
    var c1 := Walk(c, e.base);
    var c2 := WalkAll(c1, e.index);
    ReachMarks(c2, e, None);
    AskedSame(c, Walk(c, e), c2, env, goal);
    hide Asked;
    AskedEarly(c, c1, c2, env, goal);
    ReachExpr(e.base, c, env, Early(c1, goal));
    var r0 :| Possible(Ex(e.base), env, r0) && Met(r0.out, r0.env, Early(c1, goal));
    if r0.out == Next {
      ExprSteady(c, e.base, env, r0);
      PairedSame(c, c1, r0.env);
      AskedLate(c, c1, c2, env, r0.env, goal);
      ReachAll(e.index, c1, r0.env, goal);
    }
    Onwards(Ex(e), All(e.index), env, r0, goal);
  }

  lemma AskedSame(c: Ctx, c1: Ctx, c2: Ctx, env: Env, goal: Goal)
    requires Asked(c, c1, env, goal) && c1.consumed == c2.consumed && |c1.scopes| == |c2.scopes|
    ensures Asked(c, c2, env, goal)
  {
  }

  lemma {:induction false} ReachAll(es: seq<Expr>, c: Ctx, env: Env, goal: Goal)
    requires Paired(c, env) && StraightAll(es) && Asked(c, WalkAll(c, es), env, goal)
    ensures Lands(All(es), env, goal)
    decreases es, 0
  {
    hide Kept, Depth, Ctx.Bound, Possible, Paired, Walk, Early, MarkedAt;
    PairedOk(c, env);
    if es == [] {
      NothingLands(env, goal);
    } else {
      var c1 := Walk(c, es[0]);
      var c2 := WalkAll(c1, es[1..]);
      hide Asked;
      AskedEarly(c, c1, c2, env, goal);
      ReachExpr(es[0], c, env, Early(c1, goal));
      var r0 :| Possible(Ex(es[0]), env, r0) && Met(r0.out, r0.env, Early(c1, goal));
      if r0.out == Next {
        ExprSteady(c, es[0], env, r0);
        PairedSame(c, c1, r0.env);
        AskedLate(c, c1, c2, env, r0.env, goal);
        ReachAll(es[1..], c1, r0.env, goal);
      }
      Onwards(All(es), All(es[1..]), env, r0, goal);
    }
  }

  lemma NothingLands(env: Env, goal: Goal)
    requires goal != Harm && Met0(env, goal)
    ensures Lands(All([]), env, goal) && Lands(Args([]), env, goal) && Lands(Guard(None), env, goal)
    ensures |env| > 0 ==> Lands(Sts([]), env, goal)
  {
    hide Possible, GoneAt;
    NothingRuns(env);
    assert Met(Run(Next, env, [], New).out, Run(Next, env, [], New).env, goal);
    if |env| > 0 {
      EmptyRuns(env);
    }
  }

  // ----- arguments -----

  /** The checker's mark for an argument: a name that owns what it holds and is not bound
      outside the innermost loop. */
  lemma GiveMarks(c: Ctx, arg: Arg, d: nat, x: Ident)
    requires c.Ok() && MarkedAt(Give(c, arg), d, x) && !MarkedAt(c, d, x)
    ensures arg.mode == Takes && arg.e.Name? && arg.e.owns && c.Lookup(arg.e.x) == Some(false)
    ensures x == arg.e.x && d == Depth(c.scopes, x)
  {
    hide Yields, Doubts, Depth, Ctx.HasParts;
    SlipMarks(c, arg.e, d + 1, None);
  }

  /** Giving the name away leaves it without its value, if it is its own to give. */
  lemma GivenGone(c: Ctx, env: Env, e: Expr, mode: Mode)
    requires Paired(c, env) && e.Name? && e.owns && mode != Lends && c.Lookup(e.x) == Some(false)
    ensures var r := NameRun(env, e.x, true);
      r.out == Bad || (r.out == Next && r.env == env &&
        var g := Given(Arg(e, mode), r); g.out == Bad || (g.out == Next && GoneAt(g.env, Depth(c.scopes, e.x), e.x)))
  {
    hide Gone, Paired;
    PairedDepth(c, env, e.x);
    PairedOk(c, env);
    MovedAway(env, Depth(env, e.x), e.x);
  }

  lemma MovedAway(env: Env, d: nat, x: Ident)
    requires d < |env| && x in env[d]
    ensures GoneAt(MoveAway(env, d, x), d, x)
  {
  }

  lemma GivenSteady(env: Env, arg: Arg, r: Run, n: nat, goal: Goal)
    requires Steady(env, r.env, n) && n == |env| && r.out == Next
    ensures |Given(arg, r).env| == |env| && Steady(env, Given(arg, r).env, n)
    ensures Given(arg, r).out == Bad || Given(arg, r).out == Next
    ensures Met0(r.env, goal) ==> Met0(Given(arg, r).env, goal)
  {
    SettleSteady(r.env, r.value);
    SteadySelf(r.env, n);
    hide Steady, Settle, GoneAt;
    SteadyTransitive(env, r.env, Given(arg, r).env, n);
    if goal.Moved? && Met0(r.env, goal) {
      SettleKeepsGone(r.env, r.value, goal.d, goal.x);
    }
  }

  lemma {:induction false} ReachArg(arg: Arg, c: Ctx, env: Env, goal: Goal) returns (r0: Run)
    requires Paired(c, env) && StraightArg(arg) && Asked(c, WalkArg(c, arg), env, goal)
    ensures Possible(Ex(arg.e), env, r0) && (r0.out == Bad || r0.out == Next)
    ensures r0.out == Next ==> var g := Given(arg, r0);
      g.out == Bad || (g.out == Next && Met0(g.env, goal) && Paired(c, g.env))
    decreases arg, 0
  {
    hide Kept, Depth, Ctx.Bound, Possible, Paired, Walk, MarkedAt, Give, Given, GoneAt, Steady;
    PairedOk(c, env);
    var c1 := Walk(c, arg.e);
    var early := Early(c1, goal);
    ReachExpr(arg.e, c, env, early);
    r0 :| Possible(Ex(arg.e), env, r0) && Met(r0.out, r0.env, early);
    if goal.Moved? && early == Passed {
      GiveMarks(c1, arg, goal.d, goal.x);
      NameRuns(env, arg.e);
      r0 := NameRun(env, arg.e.x, true);
      GivenGone(c, env, arg.e, arg.mode);
      assert Arg(arg.e, arg.mode) == arg;
    }
    if r0.out == Next {
      ExprSteady(c, arg.e, env, r0);
      GivenSteady(env, arg, r0, |env|, goal);
      PairedSteady(c, env, Given(arg, r0).env);
    }
  }

  lemma {:induction false} ReachArgs(args: seq<Arg>, c: Ctx, env: Env, goal: Goal)
    requires Paired(c, env) && StraightArgs(args) && Asked(c, WalkArgs(c, args), env, goal)
    ensures Lands(Args(args), env, goal)
    decreases args, 0
  {
    hide Kept, Depth, Ctx.Bound, Possible, Paired, WalkArg, MarkedAt, Given;
    PairedOk(c, env);
    if args == [] {
      NothingLands(env, goal);
    } else {
      var c1 := WalkArg(c, args[0]);
      var c2 := WalkArgs(c1, args[1..]);
      AskedEarly(c, c1, c2, env, goal);
      var r0 := ReachArg(args[0], c, env, Early(c1, goal));
      if r0.out == Bad {
        BadFirst(Args(args), env, goal);
      } else {
        var g := Given(args[0], r0);
        if g.out == Next {
          PairedSame(c, c1, g.env);
          ReachArgs(args[1..], c1, g.env, goal);
        }
        ArgContinues(args, env, r0, goal);
      }
    }
  }

  // ----- branches -----

  lemma {:induction false} ReachIf(e: Expr, c: Ctx, env: Env, goal: Goal)
    requires e.If? && Paired(c, env) && Straight(e) && Asked(c, Walk(c, e), env, goal)
    ensures Lands(Ex(e), env, goal)
    decreases e, 1
  {
    hide Kept, Depth, Ctx.Bound, Possible, Paired, Walk, WalkBlock, MarkedAt, GoneAt, Merge;
    PairedOk(c, env);
    var c0 := Walk(c, e.cond);
    var c1 := WalkBlock(c0, e.thn);
    BranchesAre(c, e);
    ReachExpr(e.cond, c, env, Early(c0, goal));
    var r0 :| Possible(Ex(e.cond), env, r0) && Met(r0.out, r0.env, Early(c0, goal));
    if r0.out == Bad {
      BadFirst(Ex(e), env, goal);
    } else {
      ExprSteady(c, e.cond, env, r0);
      PairedSame(c, c0, r0.env);
      if Marked(c0, goal) {
        SkipBranch(e, c, env, r0, goal);
      } else if Marked(c1, goal) {
        if Leaving(e.thn) {
          GentleBlock(c0, e.thn, None);
        }
        ReachBlock(e.thn, c0, r0.env, goal);
        Continues(Ex(e), Blk(e.thn), env, r0, goal);
      } else {
        var c1' := c1.(consumed := c0.consumed);
        var c2 := Walk(c1', e.els.value);
        MergeMarks(c2, c2.consumed, c1.consumed, goal.d, goal.x);
        SameMarked(c1, c2.(consumed := c1.consumed), goal.d, goal.x);
        SameMarked(c2, c2.(consumed := c2.consumed), goal.d, goal.x);
        SameMarked(c0, c1', goal.d, goal.x);
        PairedSame(c, c1', r0.env);
        ReachExpr(e.els.value, c1', r0.env, goal);
        Continues(Ex(e), Ex(e.els.value), env, r0, goal);
      }
    }
  }

  /** What is met behind the condition is met when the branch is not taken. */
  lemma {:induction false} SkipBranch(e: Expr, c: Ctx, env: Env, r0: Run, goal: Goal)
    requires e.If? && Paired(c, env) && Straight(e) && goal != Harm
    requires Possible(Ex(e.cond), env, r0) && Met(r0.out, r0.env, goal) && r0.out == Next && (goal.Moved? ==> goal.d < |env|)
    ensures Lands(Ex(e), env, goal)
    decreases e, 0
  {
    hide Kept, Depth, Ctx.Bound, Possible, Paired, Walk, MarkedAt, GoneAt;
    if e.els.None? {
      assert Lands(Ex(e.cond), env, goal);
      StopsAfter(Ex(e), env, goal);
    } else {
      ExprSteady(c, e.cond, env, r0);
      PairedOk(c, env);
      ReachExpr(e.els.value, c, r0.env, Passed);
      PassedKeeps(Ex(e.els.value), r0.env, goal);
      Continues(Ex(e), Ex(e.els.value), env, r0, goal);
    }
  }

  lemma {:induction false} ReachMatch(e: Expr, c: Ctx, env: Env, goal: Goal)
    requires e.Match? && Paired(c, env) && Straight(e) && Asked(c, Walk(c, e), env, goal)
    ensures Lands(Ex(e), env, goal)
    decreases e, 0
  {
    hide Kept, Depth, Ctx.Bound, Possible, Paired, Walk, WalkArms, MarkedAt, GoneAt, Slip, MatchSource, MatchedHere, Settle, Steady;
    PairedOk(c, env);
    var c0 := Walk(c, e.scrut);
    var c1 := if Root(e.scrut).None? then Slip(c0, e.scrut) else c0;
    MatchIs(c, e);
    SlipMarked(c0, e.scrut, goal);
    ReachExpr(e.scrut, c, env, Early(c0, goal));
    var r0 :| Possible(Ex(e.scrut), env, r0) && Met(r0.out, r0.env, Early(c0, goal));
    if r0.out == Bad {
      BadFirst(Ex(e), env, goal);
    } else {
      ExprSteady(c, e.scrut, env, r0);
      SettlingSteady(e, r0, goal);
      var env1 := Settling(e, r0);
      PairedSteady(c, r0.env, env1);
      PairedSame(c, c1, env1);
      PairedBorrow(c, env, e.scrut);
      ReachArms(e.arms, c1, IsBorrow(c, e.scrut), MatchSource(c, e.scrut), Tried(e, env, r0).source, c1.consumed, env1, goal);
      MatchContinues(e, env, r0, goal);
    }
  }

  lemma SlipMarked(c: Ctx, e: Expr, goal: Goal)
    requires c.Ok()
    ensures Marked(Slip(c, e), goal) ==> Marked(c, goal)
  {
    hide Slip;
    SlipKept(c, e);
    SlipMarks(c, e, |c.scopes|, None);
  }

  lemma SettlingSteady(e: Expr, r: Run, goal: Goal)
    requires e.Match?
    ensures Steady(r.env, Settling(e, r), |r.env|) && (Met0(r.env, goal) ==> Met0(Settling(e, r), goal))
  {
    SettleSteady(r.env, r.value);
    SteadySelf(r.env, |r.env|);
    hide Steady, Settle, GoneAt;
    if goal.Moved? && Met0(r.env, goal) {
      SettleKeepsGone(r.env, r.value, goal.d, goal.x);
    }
  }

  /** One arm is taken: the one that makes the mark, or any. */
  lemma {:induction false} ReachArms(arms: seq<Arm>, c: Ctx, borrow: bool, source: Source, source': Source,
                                     saved: seq<map<Ident, Cause>>, env: Env, goal: Goal)
    requires Paired(c, env) && arms != [] && StraightArms(arms) && Within(saved, c.consumed) && goal != Harm
    requires Marked(WalkArms(c, arms, borrow, source, saved), goal)
    requires Marked(c, goal) || Marked(c.(consumed := saved), goal) ==> Met0(env, goal)
    ensures Lands(Arms(arms, borrow, source'), env, goal)
    decreases arms, 0
  {
    hide Kept, Depth, Ctx.Bound, Possible, Paired, WalkArm, MarkedAt, GoneAt, Merge;
    PairedOk(c, env);
    ArmsStep(c, arms, borrow, source, saved);
    var cs := c.(consumed := saved);
    var c1 := WalkArm(cs, arms[0], borrow, source, |arms| == 1);
    var c2 := c1.(consumed := Merge(c.consumed, c1.consumed));
    PairedSame(c, cs, env);
    ArmsMarked(c, c1, c2, goal);
    if Marked(c1, goal) {
      ReachArm(arms, cs, borrow, source, source', |arms| == 1, env, goal);
    } else if |arms| == 1 {
      ReachArm(arms, cs, borrow, source, source', true, env, Passed);
      PassedKeeps(Arms(arms, borrow, source'), env, goal);
    } else {
      PairedSame(c, c2, env);
      SameMarked(cs, c2.(consumed := saved), if goal.Moved? then goal.d else 0, if goal.Moved? then goal.x else "");
      ReachArms(arms[1..], c2, borrow, source, source', saved, env, goal);
      ArmSkipped(arms, borrow, source', env, goal);
    }
  }

  lemma ArmsMarked(c: Ctx, c1: Ctx, c2: Ctx, goal: Goal)
    requires |c.consumed| == |c1.consumed| && c2 == c1.(consumed := Merge(c.consumed, c1.consumed)) && |c.scopes| == |c1.scopes|
    ensures Marked(c2, goal) ==> Marked(c, goal) || Marked(c1, goal)
  {
    hide MarkedAt, Merge;
    if goal.Moved? && Marked(c2, goal) {
      MergeMarks(c1, c.consumed, c1.consumed, goal.d, goal.x);
      SameMarked(c, c1.(consumed := c.consumed), goal.d, goal.x);
      SameMarked(c1, c1.(consumed := c1.consumed), goal.d, goal.x);
    }
  }

  lemma {:induction false} ReachArm(arms: seq<Arm>, c: Ctx, borrow: bool, source: Source, source': Source, last: bool, env: Env, goal: Goal)
    requires Paired(c, env) && arms != [] && StraightArm(arms[0]) && Asked(c, WalkArm(c, arms[0], borrow, source, last), env, goal)
    ensures Lands(Arms(arms, borrow, source'), env, goal)
    decreases arms[0], 1
  {
    hide Kept, Depth, Ctx.Bound, Possible, Paired, Walk, MarkedAt, GoneAt, BindAll, BindCells, Steady;
    var arm := arms[0];
    PairedOk(c, env);
    PushOk(c);
    var c1 := BindAll(c.Push(), arm.binds, borrow, source);
    var c2 := if arm.guard.None? then c1 else WalkGuard(c1, arm.guard.value, c.consumed, last);
    var inner := BindCells(env + [map[]], arm.binds, borrow, source');
    PairedPush(c, env);
    PairedBindAll(c.Push(), env + [map[]], arm.binds, borrow, source, source');
    BindOuter(env, arm.binds, borrow, source');
    ArmAsked(c, arm, borrow, source, last, env, inner, goal);
    var g := ReachGuard(arm, c1, c.consumed, last, inner, Early(c2, goal));
    if g.out == Next {
      PairedSame(c1, c2, g.env);
      ReachExpr(arm.body, c2, g.env, goal);
    }
    ArmTaken(arms, borrow, source', env, g, goal);
  }

  /** What is asked of an arm is asked of its body in the scope of its bindings. */
  lemma ArmAsked(c: Ctx, arm: Arm, borrow: bool, source: Source, last: bool, env: Env, inner: Env, goal: Goal)
    requires c.Ok() && Asked(c, WalkArm(c, arm, borrow, source, last), env, goal)
    requires |inner| == |env| + 1 && inner[..|env|] == env && |env| == |c.scopes|
    ensures c.Push().Ok() && |c.Push().scopes| == |c.scopes| + 1
    ensures var c1 := BindAll(c.Push(), arm.binds, borrow, source);
      var c2 := if arm.guard.None? then c1 else WalkGuard(c1, arm.guard.value, c.consumed, last);
      && Asked(c1, Walk(c2, arm.body), inner, goal) && Asked(c1, c2, inner, Early(c2, goal))
      && (goal.Moved? ==> goal.d < |c.scopes|)
  {
    hide Kept, Depth, Ctx.Bound, Walk, BindAll, WalkGuard;
    PushOk(c);
    var c1 := BindAll(c.Push(), arm.binds, borrow, source);
    var c2 := if arm.guard.None? then c1 else WalkGuard(c1, arm.guard.value, c.consumed, last);
    BindAllMarks(c.Push(), arm.binds, borrow, source, None);
    assert WalkArm(c, arm, borrow, source, last) == Walk(c2, arm.body).Pop();
    if goal.Moved? && Marked(c1, goal) {
      assert MarkedAt(c.Push(), goal.d, goal.x);
      assert env[goal.d] == inner[..|env|][goal.d];
    }
  }

  lemma {:induction false} ReachGuard(arm: Arm, c: Ctx, saved: seq<map<Ident, Cause>>, last: bool, env: Env, goal: Goal) returns (g: Run)
    requires Paired(c, env) && StraightArm(arm) && |c.scopes| == |saved| + 1
    requires Asked(c, if arm.guard.None? then c else WalkGuard(c, arm.guard.value, saved, last), env, goal)
    ensures Possible(Guard(arm.guard), env, g) && Met(g.out, g.env, goal) && (g.out == Next ==> Paired(c, g.env))
    decreases arm, 0
  {
    hide Kept, Depth, Ctx.Bound, Possible, Paired, Walk, MarkedAt, GoneAt;
    PairedOk(c, env);
    if arm.guard.None? {
      NothingLands(env, goal);
      NothingRuns(env);
      g := Run(Next, env, [], New);
    } else {
      GuardMarks(c, arm.guard.value, saved, last, None);
      AskedSame(c, WalkGuard(c, arm.guard.value, saved, last), Walk(c, arm.guard.value), env, goal);
      ReachExpr(arm.guard.value, c, env, goal);
      StopsAfter(Guard(arm.guard), env, goal);
      g :| Possible(Guard(arm.guard), env, g) && Met(g.out, g.env, goal);
      PossibleSteady(Guard(arm.guard), env, g);
      PairedSteady(c, env, g.env);
    }
  }

  // ----- blocks -----

  lemma {:induction false} ReachBlock(stmts: seq<Stmt>, c: Ctx, env: Env, goal: Goal)
    requires Paired(c, env) && StraightStmts(stmts) && Asked(c, WalkBlock(c, stmts), env, goal)
    ensures Lands(Blk(stmts), env, goal)
    decreases stmts, 1
  {
    hide Kept, Depth, Ctx.Bound, Possible, Paired, WalkStmts, GoneAt;
    PairedOk(c, env);
    PushOk(c);
    PairedPush(c, env);
    BlockAsked(c, stmts, env, goal);
    ReachStmts(stmts, c.Push(), env + [map[]], goal);
    BlockLands(stmts, env, goal);
  }

  lemma BlockAsked(c: Ctx, stmts: seq<Stmt>, env: Env, goal: Goal)
    requires c.Ok() && |env| == |c.scopes| && Asked(c, WalkBlock(c, stmts), env, goal)
    ensures c.Push().Ok() && |c.Push().scopes| == |c.scopes| + 1
    ensures Asked(c.Push(), WalkStmts(c.Push(), stmts), env + [map[]], goal) && Outlives(goal, |env|)
  {
    hide Kept, Depth, Ctx.Bound, WalkStmts;
    PushOk(c);
  }

  lemma {:induction false} ReachStmts(stmts: seq<Stmt>, c: Ctx, env: Env, goal: Goal)
    requires Paired(c, env) && |env| > 0 && StraightStmts(stmts) && Asked(c, WalkStmts(c, stmts), env, goal)
    ensures Lands(Sts(stmts), env, goal)
    decreases stmts, 0
  {
    hide Kept, Depth, Ctx.Bound, Possible, Paired, WalkStmt, MarkedAt, GoneAt;
    PairedOk(c, env);
    if stmts == [] {
      NothingLands(env, goal);
    } else {
      var c1 := WalkStmt(c, stmts[0]);
      var c2 := WalkStmts(c1, stmts[1..]);
      AskedEarly(c, c1, c2, env, goal);
      var r0 := ReachStmt(stmts[0], c, env, Early(c1, goal));
      if |stmts| == 1 {
        assert stmts[1..] == [];
        assert c2 == c1;
        assert Lands(St(stmts[0]), env, goal);
        StopsAfter(Sts(stmts), env, goal);
      } else {
        if r0.out == Next {
          AskedLate(c, c1, c2, env, r0.env, goal);
          ReachStmts(stmts[1..], c1, r0.env, goal);
        }
        Onwards(Sts(stmts), Sts(stmts[1..]), env, r0, goal);
      }
    }
  }

  /** Binding a name anew leaves what other names lost lost. */
  lemma BindKeepsGone(env: Env, x: Ident, borrow: bool, source: Source, d: nat, y: Ident)
    requires |env| > 0 && GoneAt(env, d, y) && !(d == |env| - 1 && y == x)
    ensures GoneAt(BindCell(env, x, borrow, source), d, y)
  {
  }

  lemma BoundMarked(c: Ctx, x: Ident, borrow: bool, source: Source, goal: Goal)
    requires c.Ok() && |c.scopes| > 0
    ensures Marked(c.Bind(x, borrow, source), goal) ==> Marked(c, goal)
    ensures Marked(c.Bind(x, borrow, source), goal) && goal.Moved? ==> !(goal.d == |c.scopes| - 1 && goal.x == x)
  {
    hide Rebound;
  }

  /** A statement, and the scopes behind it. */
  lemma {:induction false} ReachStmt(s: Stmt, c: Ctx, env: Env, goal: Goal) returns (r: Run)
    requires Paired(c, env) && |env| > 0 && StraightStmt(s) && Asked(c, WalkStmt(c, s), env, goal)
    ensures Possible(St(s), env, r) && Met(r.out, r.env, goal) && |r.env| == |env|
    ensures r.out == Next ==> Paired(WalkStmt(c, s), r.env)
    decreases s, 1
  {
    hide Kept, Depth, Ctx.Bound, Possible, Paired, Walk, MarkedAt, GoneAt, Ctx.Bind, BindCell;
    PairedOk(c, env);
    match s
    case Let(x, None) =>
      DeclareRuns(x, env);
      r := Run(Next, BindCell(env, x, false, Whole), [], New);
      PairedBind(c, env, x, false, Whole, Whole);
      BoundMarked(c, x, false, Whole, goal);
      if goal.Moved? {
        BindKeepsGone(env, x, false, Whole, goal.d, goal.x);
      }
    case Let(x, Some(init)) => r := ReachLet(s, c, env, goal);
    case Do(e) =>
      ReachExpr(e, c, env, goal);
      StopsAfter(St(s), env, goal);
      r :| Possible(St(s), env, r) && Met(r.out, r.env, goal);
      DoSteady(e, c, env, r);
  }

  lemma DoSteady(e: Expr, c: Ctx, env: Env, r: Run)
    requires Paired(c, env) && |env| > 0 && Possible(St(Do(e)), env, r)
    ensures |r.env| == |env| && Paired(WalkStmt(c, Do(e)), r.env)
  {
    hide Kept, Depth, Ctx.Bound, Paired, Walk, Steady, Eval;
    PossibleLength(St(Do(e)), env, r);
    var n: nat :| Can(n, St(Do(e)), env, r);
    assert Leads(n + 1, St(Do(e)), env, r.(tape := []));
    var tape :| Exec(n + 1, St(Do(e)), env, tape) == r.(tape := []);
    EvalSteady(n, e, env, tape);
    PairedSteady(c, env, r.env);
    PairedOk(c, env);
    PairedSame(c, WalkStmt(c, Do(e)), r.env);
  }

  /** The checker's mark for a binding: the name it is bound to, when that owns its value. */
  lemma SourceMarks(c: Ctx, init: Expr, d: nat, x: Ident)
    requires c.Ok() && MarkedAt(MoveSource(c, init), d, x) && !MarkedAt(c, d, x)
    ensures init.Name? && init.owns && c.Lookup(init.x) == Some(false) && x == init.x && d == Depth(c.scopes, x)
  {
    hide Yields, Doubts, Depth, Ctx.HasParts, Silent, Slip;
    if !Looked(init) {
      SlipMarks(c, init, d + 1, None);
    }
  }

  lemma LetIs(c: Ctx, x: Ident, init: Expr)
    requires c.Ok() && |c.scopes| > 0
    ensures var c1 := Walk(c, init);
      WalkStmt(c, Let(x, Some(init))) == MoveSource(c1, init).Bind(x, IsBorrow(c1, init), SourceOf(c1, init))
  {
    hide Depth, Walk, MoveSource, SourceOf;
  }

  lemma {:induction false} ReachLet(s: Stmt, c: Ctx, env: Env, goal: Goal) returns (r: Run)
    requires s.Let? && s.init.Some? && Paired(c, env) && |env| > 0 && StraightStmt(s) && Asked(c, WalkStmt(c, s), env, goal)
    ensures Possible(St(s), env, r) && Met(r.out, r.env, goal) && |r.env| == |env|
    ensures r.out == Next ==> Paired(WalkStmt(c, s), r.env)
    decreases s, 0
  {
    hide Kept, Depth, Ctx.Bound, Possible, Paired, Walk, MarkedAt, GoneAt, Ctx.Bind, BindCell, MoveSource, SourceOf, LetMoves, Steady;
    PairedOk(c, env);
    var x, init := s.x, s.init.value;
    LetIs(c, x, init);
    var c1 := Walk(c, init);
    var c2 := MoveSource(c1, init);
    BoundMarked(c2, x, IsBorrow(c1, init), SourceOf(c1, init), goal);
    ReachExpr(init, c, env, Early(c1, goal));
    var r0 :| Possible(Ex(init), env, r0) && Met(r0.out, r0.env, Early(c1, goal));
    if r0.out == Bad {
      BadFirst(St(s), env, Harm);
      r :| Possible(St(s), env, r) && Met(r.out, r.env, Harm);
      PossibleLength(St(s), env, r);
    } else {
      ExprSteady(c, init, env, r0);
      PairedSame(c, c1, r0.env);
      LetRuns(x, init, env, r0);
      var moved := LetMoves(init, r0);
      r := Run(Next, BindCell(moved, x, BorrowedHere(r0.env, init), SourceFrom(r0.value)), [], New);
      LetSteady(init, r0);
      LetGone(c1, init, r0, goal);
      PairedSteady(c1, r0.env, moved);
      PairedSame(c1, c2, moved);
      PairedBorrow(c1, r0.env, init);
      PairedBind(c2, moved, x, IsBorrow(c1, init), SourceOf(c1, init), SourceFrom(r0.value));
      if goal.Moved? {
        BindKeepsGone(moved, x, BorrowedHere(r0.env, init), SourceFrom(r0.value), goal.d, goal.x);
      }
    }
  }

  lemma LetGone(c: Ctx, init: Expr, r: Run, goal: Goal)
    requires Paired(c, r.env) && Marked(MoveSource(c, init), goal) && (Marked(c, goal) ==> Met0(r.env, goal))
    ensures Met0(LetMoves(init, r), goal)
  {
    hide Paired, MarkedAt, MoveSource, Settle, MoveAway, Steady;
    PairedOk(c, r.env);
    LetSteady(init, r);
    if goal.Moved? {
      if Marked(c, goal) {
        GoneStays(r.env, LetMoves(init, r), |r.env|, goal.d, goal.x);
      } else {
        SourceMarks(c, init, goal.d, goal.x);
        PairedDepth(c, r.env, init.x);
        MovedAway(r.env, Depth(r.env, init.x), init.x);
      }
    }
  }

  // ----- loops -----

  lemma {:induction false} ReachLoop(e: Expr, c: Ctx, env: Env, goal: Goal)
    requires e.Loop? && Paired(c, env) && Straight(e) && Asked(c, Walk(c, e), env, goal)
    ensures Lands(Ex(e), env, goal)
    decreases e, 4
  {
    hide Kept, Depth, Ctx.Bound, Possible, Paired, WalkLoop, WalkBlock, MarkedAt, GoneAt, Steady;
    PairedOk(c, env);
    var c1 := WalkLoop(c, e);
    AskedEarly(c, c1, WalkBlock(c1, e.after), env, goal);
    ReachEnter(e, c, env, Early(c1, goal));
    var r0 :| Possible(Enter(e), env, r0) && Met(r0.out, r0.env, Early(c1, goal));
    if r0.out == Next {
      PossibleSteady(Enter(e), env, r0);
      PairedSteady(c, env, r0.env);
      PairedSame(c, c1, r0.env);
      AskedLate(c, c1, WalkBlock(c1, e.after), env, r0.env, goal);
      ReachBlock(e.after, c1, r0.env, goal);
    }
    Onwards(Ex(e), Blk(e.after), env, r0, goal);
  }

  /** The walk when the sources of a loop have been looked at. */
  ghost function Sourced(c: Ctx, head: Head): (c': Ctx)
    requires c.Ok()
    ensures c'.Ok() && c'.scopes == c.scopes && c'.floors == c.floors
  {
    if head.Iter? then WalkAll(c, head.sources) else c
  }

  lemma FlooredPaired(c: Ctx, env: Env)
    requires Paired(c, env)
    ensures Floored(c).Ok() && |Floored(c).scopes| == |c.scopes| + 1 && Paired(Floored(c), env + [map[]])
    ensures forall goal :: Marked(Floored(c), goal) && Outlives(goal, |env|) ==> Marked(c, goal)
  {
    hide PairedScope;
    FlooredOk(c);
    PairedPush(c, env);
  }

  lemma {:induction false} ReachEnter(e: Expr, c: Ctx, env: Env, goal: Goal)
    requires e.Loop? && Paired(c, env) && StraightHead(e.head) && StraightStmts(e.body) && Asked(c, WalkLoop(c, e), env, goal)
    ensures Lands(Enter(e), env, goal)
    decreases e, 3
  {
    hide Kept, Depth, Ctx.Bound, Possible, Paired, WalkLoop, WalkBlock, WalkHead, WalkAll, MarkedAt, GoneAt, Steady, Floored;
    PairedOk(c, env);
    FlooredPaired(c, env);
    LoopMarks(c, e, None);
    var c1 := Floored(c);
    if e.head.Iter? {
      var cs := WalkAll(c1, e.head.sources);
      var inner := env + [map[]];
      InnerMet(env, goal);
      ReachAll(e.head.sources, c1, inner, Early(cs, goal));
      var r0 :| Possible(All(e.head.sources), inner, r0) && Met(r0.out, r0.env, Early(cs, goal));
      PossibleSteady(All(e.head.sources), inner, r0);
      if r0.out == Next {
        SteadyFewer(inner, r0.env, |env|, |env| + 1);
        BackOutside(c, env, r0.env, goal);
        ReachRounds(e, c, r0.env[..|env|], goal);
      }
      SourcesRun(e, env, r0, goal);
    } else {
      ReachRounds(e, c, env, goal);
      StopsAfter(Enter(e), env, goal);
    }
  }

  lemma InnerMet(env: Env, goal: Goal)
    requires Outlives(goal, |env|)
    ensures Met0(env, goal) ==> Met0(env + [map[]], goal)
  {
  }

  /** Outside the loop's own scope things are as they were, but for what is gone. */
  lemma BackOutside(c: Ctx, env: Env, env': Env, goal: Goal)
    requires Paired(c, env) && |env'| == |env| + 1 && Steady(env + [map[]], env', |env|) && Outlives(goal, |env|)
    ensures Paired(c, env'[..|env|]) && |env'[..|env|]| == |env|
    ensures Met0(env', goal) <==> Met0(env'[..|env|], goal)
    ensures Met0(env, goal) ==> Met0(env', goal)
  {
    hide Paired, Steady;
    InnerMet(env, goal);
    assert (env + [map[]])[..|env|] == env;
    SteadyOuter(env, env + [map[]], env');
    PairedSteady(c, env, env'[..|env|]);
    if goal.Moved? && Met0(env, goal) {
      GoneStays(env + [map[]], env', |env|, goal.d, goal.x);
    }
  }

  /** One round, when the body makes the mark; none, when it was made before. */
  lemma {:induction false} ReachRounds(e: Expr, c: Ctx, env: Env, goal: Goal)
    requires e.Loop? && Paired(c, env) && StraightHead(e.head) && StraightStmts(e.body) && goal != Harm && Outlives(goal, |env|)
    requires Floored(c).Ok() && |Floored(c).scopes| > 0
    requires Marked(WalkBlock(WalkHead(Floored(c), e.head), e.body), goal)
    requires Marked(Sourced(Floored(c), e.head), goal) ==> Met0(env, goal)
    ensures Lands(Rounds(e), env, goal)
    decreases e, 2
  {
    hide Kept, Depth, Ctx.Bound, Possible, Paired, WalkBlock, WalkHead, WalkAll, MarkedAt, GoneAt, Steady, Floored, Sourced;
    PairedOk(c, env);
    var ch := WalkHead(Floored(c), e.head);
    var h := ReachFront(e, c, env, Early(ch, goal));
    PossibleSteady(Front(e.head), env + [map[]], h);
    if h.out == Bad {
      RoundsEnd(e, env, h, goal);
    } else {
      BackOutside(c, env, h.env, goal);
      if Marked(ch, goal) {
        RoundsEnd(e, env, h, goal);
      } else {
        ReachBlock(e.body, ch, h.env, goal);
        var b :| Possible(Blk(e.body), h.env, b) && Met(b.out, b.env, goal);
        RoundReaches(e, c, env, h, b, goal);
      }
    }
  }

  lemma {:induction false} RoundReaches(e: Expr, c: Ctx, env: Env, h: Run, b: Run, goal: Goal)
    requires e.Loop? && Paired(c, env) && StraightHead(e.head) && StraightStmts(e.body) && goal != Harm && Outlives(goal, |env|)
    requires Possible(Front(e.head), env + [map[]], h) && h.out == Next
    requires Floored(c).Ok() && |Floored(c).scopes| > 0 && Paired(WalkHead(Floored(c), e.head), h.env)
    requires Possible(Blk(e.body), h.env, b) && Met(b.out, b.env, goal)
    ensures Lands(Rounds(e), env, goal)
    decreases e, 1
  {
    hide Kept, Depth, Ctx.Bound, Possible, Paired, WalkBlock, WalkHead, WalkAll, MarkedAt, GoneAt, Steady, Floored;
    var ch := WalkHead(Floored(c), e.head);
    if b.out == Bad {
      RoundGoesOn(e, env, h, b, b, goal);
    } else {
      var s := NextRound(e, c, ch, env, h, b, goal);
      if s.out == Next {
        ExitRounds(e, c, s.env[..|env|], goal);
      }
      RoundGoesOn(e, env, h, b, s, goal);
    }
  }

  /** Behind a round, with the stride: what the round left gone is gone. */
  lemma {:induction false} NextRound(e: Expr, c: Ctx, ch: Ctx, env: Env, h: Run, b: Run, goal: Goal) returns (s: Run)
    requires e.Loop? && Paired(c, env) && (e.head.Infinite? || StraightHead(e.head)) && Outlives(goal, |env|)
    requires Possible(Front(e.head), env + [map[]], h) && h.out == Next && Paired(ch, h.env)
    requires Possible(Blk(e.body), h.env, b) && b.out == Next && Met0(b.env, goal)
    ensures Possible(Behind(e.head), b.env, s) && (s.out == Bad || s.out == Next) && |s.env| == |env| + 1
    ensures s.out == Next ==> Paired(c, s.env[..|env|]) && Met0(s.env[..|env|], goal)
    decreases e, 0
  {
    hide Kept, Depth, Ctx.Bound, Possible, Paired, WalkBlock, WalkHead, WalkAll, MarkedAt, GoneAt, Steady;
    var inner := env + [map[]];
    PossibleSteady(Front(e.head), inner, h);
    PossibleSteady(Blk(e.body), h.env, b);
    PairedSteady(ch, h.env, b.env);
    s := ReachBehind(e.head, ch, b.env);
    PossibleSteady(Behind(e.head), b.env, s);
    SteadyFewer(h.env, b.env, |env|, |env| + 1);
    SteadyFewer(b.env, s.env, |env|, |env| + 1);
    SteadyTransitive(inner, h.env, b.env, |env|);
    SteadyTransitive(inner, b.env, s.env, |env|);
    BackOutside(c, env, s.env, goal);
    if goal.Moved? {
      GoneStays(b.env, s.env, |env|, goal.d, goal.x);
    }
  }

  lemma {:induction false} ExitRounds(e: Expr, c: Ctx, env: Env, goal: Goal)
    requires e.Loop? && Paired(c, env) && StraightHead(e.head) && goal != Harm && Outlives(goal, |env|) && Met0(env, goal)
    requires Floored(c).Ok() && |Floored(c).scopes| > 0
    ensures Lands(Rounds(e), env, goal)
    decreases e, 0
  {
    hide Kept, Depth, Ctx.Bound, Possible, Paired, WalkHead, WalkAll, MarkedAt, GoneAt, Steady, Floored;
    var h := ReachFront(e, c, env, Passed);
    PossibleSteady(Front(e.head), env + [map[]], h);
    if h.out == Next {
      BackOutside(c, env, h.env, goal);
    }
    RoundsEnd(e, env, h, goal);
  }

  lemma {:induction false} ReachFront(e: Expr, c: Ctx, env: Env, goal: Goal) returns (h: Run)
    requires e.Loop? && Paired(c, env) && (e.head.Infinite? || StraightHead(e.head)) && goal != Harm && Outlives(goal, |env|)
    requires Floored(c).Ok() && |Floored(c).scopes| > 0 && Marked(WalkHead(Floored(c), e.head), goal)
    requires Marked(Sourced(Floored(c), e.head), goal) ==> Met0(env, goal)
    ensures Possible(Front(e.head), env + [map[]], h) && Met(h.out, h.env, goal) && |h.env| == |env| + 1
    ensures h.out == Next ==> Paired(WalkHead(Floored(c), e.head), h.env)
    decreases e.head, 1
  {
    hide Kept, Depth, Ctx.Bound, Possible, Paired, WalkAll, MarkedAt, GoneAt, Steady, Floored, BindPairs;
    PairedOk(c, env);
    FlooredPaired(c, env);
    InnerMet(env, goal);
    var c1, inner := Floored(c), env + [map[]];
    match e.head
    case Infinite =>
      FrontRuns(e.head, inner);
      h := FrontRun(e.head, inner);
    case While(cond) =>
      ReachExpr(cond, c1, inner, goal);
      StopsAfter(Front(e.head), inner, goal);
      h :| Possible(Front(e.head), inner, h) && Met(h.out, h.env, goal);
      CondSteady(cond, c1, inner, h);
    case Iter(binds, sources, _) =>
      FrontRuns(e.head, inner);
      h := FrontRun(e.head, inner);
      var cs := WalkAll(c1, sources);
      BindEachMarks(cs, binds, None);
      PairedSame(c1, cs, inner);
      PairedBindEach(cs, inner, binds);
      BoundOutside(env, inner, binds, goal);
      SourcedMarked(cs, binds, goal);
  }

  lemma SourcedMarked(cs: Ctx, binds: seq<(Ident, bool)>, goal: Goal)
    requires cs.Ok() && |cs.scopes| > 0 && NoneNew(cs, BindEach(cs, binds), |cs.scopes|, None)
    ensures Marked(BindEach(cs, binds), goal) ==> Marked(cs, goal)
  {
    hide MarkedAt, Kept;
  }

  lemma BoundOutside(env: Env, inner: Env, binds: seq<(Ident, bool)>, goal: Goal)
    requires inner == env + [map[]] && Outlives(goal, |env|) && Met0(env, goal)
    ensures Met0(BindPairs(inner, binds), goal)
  {
    var env' := BindPairs(inner, binds);
    assert env'[..|env|] == inner[..|env|];
    if goal.Moved? {
      assert env'[..|env|][goal.d] == inner[..|env|][goal.d];
    }
  }

  lemma CondSteady(cond: Expr, c: Ctx, env: Env, h: Run)
    requires Paired(c, env) && |env| > 0 && Possible(Front(While(cond)), env, h)
    ensures |h.env| == |env| && Paired(WalkHead(c, While(cond)), h.env)
  {
    hide Kept, Depth, Ctx.Bound, Paired, Walk, Steady, Eval;
    PossibleLength(Front(While(cond)), env, h);
    var n: nat :| Can(n, Front(While(cond)), env, h);
    assert Leads(n + 1, Front(While(cond)), env, h.(tape := []));
    var tape :| Exec(n + 1, Front(While(cond)), env, tape) == h.(tape := []);
    EvalSteady(n, cond, env, tape);
    PairedSteady(c, env, h.env);
    PairedOk(c, env);
    PairedSame(c, WalkHead(c, While(cond)), h.env);
  }

  lemma {:induction false} ReachBehind(head: Head, c: Ctx, env: Env) returns (s: Run)
    requires Paired(c, env) && (head.Infinite? || StraightHead(head))
    ensures Possible(Behind(head), env, s) && (s.out == Bad || s.out == Next)
    decreases head, 0
  {
    hide Kept, Depth, Ctx.Bound, Possible, Paired, Walk, MarkedAt, GoneAt;
    PairedOk(c, env);
    if head.Iter? && head.stride.Some? {
      ReachExpr(head.stride.value, c, env, Passed);
      StopsAfter(Behind(head), env, Passed);
      s :| Possible(Behind(head), env, s) && Met(s.out, s.env, Passed);
    } else {
      BehindRuns(head, env);
      s := Run(Next, env, [], New);
    }
  }

  // ----- what a report is worth -----

  /** Where a report comes from. A run that starts with the value of `w` gone goes bad, or any
      run, if there is no `w`. When the report is about the rounds of a loop, a run may also
      start with `w` in place and take it away. */
  datatype Clue = Clue(w: Goal, round: bool)

  predicate FloorOk(c: Ctx, n: nat) { c.floors != [] ==> c.floors[|c.floors| - 1] <= n }

  predicate Grounded(c: Ctx, k: Clue) {
    && k.w != Harm
    && if k.round then k.w.Moved? && k.w.d < |c.scopes| && c.BelowFloor(k.w.d) else Marked(c, k.w)
  }

  ghost predicate Harms(task: Task, c: Ctx, k: Clue) {
    && (forall env :: Paired(c, env) && Met0(env, k.w) ==> Lands(task, env, Harm))
    && (k.round ==> forall env :: Paired(c, env) ==> Lands(task, env, k.w))
  }

  ghost predicate Completes(task: Task, c: Ctx) {
    forall env :: Paired(c, env) ==> Lands(task, env, Passed)
  }

  lemma ExprCompletes(e: Expr, c: Ctx)
    requires c.Ok() && Straight(e)
    ensures Completes(Ex(e), c)
  {
    hide Lands, Paired;
    forall env | Paired(c, env) ensures Lands(Ex(e), env, Passed) {
      ReachExpr(e, c, env, Passed);
    }
  }

  lemma AllCompletes(es: seq<Expr>, c: Ctx)
    requires c.Ok() && StraightAll(es)
    ensures Completes(All(es), c)
  {
    hide Lands, Paired;
    forall env | Paired(c, env) ensures Lands(All(es), env, Passed) {
      ReachAll(es, c, env, Passed);
    }
  }

  lemma BlockCompletes(stmts: seq<Stmt>, c: Ctx)
    requires c.Ok() && StraightStmts(stmts)
    ensures Completes(Blk(stmts), c)
  {
    hide Lands, Paired;
    forall env | Paired(c, env) ensures Lands(Blk(stmts), env, Passed) {
      ReachBlock(stmts, c, env, Passed);
    }
  }

  // ----- reports in the parts of a form -----

  /** A form that may be over with its first part is as harmful as that. */
  lemma HarmInside(task: Task, c: Ctx, k: Clue)
    requires First(task).Some? && Stopping(task) && Harms(First(task).value, c, k)
    requires forall env :: Paired(c, env) ==> Fit(task, env)
    ensures Harms(task, c, k)
  {
    hide Lands, Paired, First, Fit, Stopping, Met0;
    forall env | Paired(c, env) && Met0(env, k.w) ensures Lands(task, env, Harm) {
      BadFirst(task, env, Harm);
    }
    if k.round {
      forall env | Paired(c, env) ensures Lands(task, env, k.w) {
        StopsAfter(task, env, k.w);
      }
    }
  }

  predicate Level(task: Task) { !task.Sts? && !task.St? && !task.Front? }

  lemma LevelSteady(task: Task, c: Ctx, env: Env, r: Run)
    requires Level(task) && Paired(c, env) && Possible(task, env, r)
    ensures |r.env| == |env| && Paired(c, r.env) && Steady(env, r.env, |env|)
  {
    hide Possible, Paired, Steady;
    PossibleSteady(task, env, r);
    PairedSteady(c, env, r.env);
  }

  /** A report in the first part, when the second comes to its end. */
  lemma HarmFirst(task: Task, next: Task, c: Ctx, k: Clue)
    requires First(task).Some? && Second(task, next) && Level(First(task).value) && Level(next) && Grounded(c, k)
    requires Harms(First(task).value, c, k) && (k.round ==> Completes(next, c))
    requires forall env :: Paired(c, env) ==> Fit(task, env)
    ensures Harms(task, c, k)
  {
    hide Possible, Paired, First, Fit, Second, Met0, Met, Steady, Level;
    forall env | Paired(c, env) && Met0(env, k.w) ensures Lands(task, env, Harm) {
      BadFirst(task, env, Harm);
    }
    if k.round {
      forall env | Paired(c, env) ensures Lands(task, env, k.w) {
        HarmFirstAt(task, next, c, k, env);
      }
    }
  }

  lemma HarmFirstAt(task: Task, next: Task, c: Ctx, k: Clue, env: Env)
    requires First(task).Some? && Second(task, next) && Level(First(task).value) && Level(next) && Grounded(c, k) && k.round
    requires Paired(c, env) && Fit(task, env) && Lands(First(task).value, env, k.w) && Completes(next, c)
    ensures Lands(task, env, k.w)
  {
    hide Possible, Paired, First, Fit, Second, Steady;
    PairedOk(c, env);
    var r0 :| Possible(First(task).value, env, r0) && Met(r0.out, r0.env, k.w);
    if r0.out == Next {
      LevelSteady(First(task).value, c, env, r0);
      assert Lands(next, r0.env, Passed);
      PassedKeeps(next, r0.env, k.w);
    }
    hide Lands;
    Onwards(task, next, env, r0, k.w);
  }

  /** The clue to a report in a second part, seen from before the first. */
  function Back(c: Ctx, k: Clue): Clue { if k.round || Marked(c, k.w) then k else Clue(Passed, false) }

  /** A report in the second part, when the first makes the mark that it needs. */
  lemma HarmSecond(task: Task, next: Task, c: Ctx, c1: Ctx, k: Clue)
    requires First(task).Some? && Second(task, next) && Level(First(task).value)
    requires c.Ok() && c1.Ok() && c1.scopes == c.scopes && c1.floors == c.floors && Grounded(c1, k) && Harms(next, c1, k)
    requires forall env :: Paired(c, env) ==> Fit(task, env)
    requires forall env :: Paired(c, env) && (k.round || Met0(env, Back(c, k).w)) ==>
      Lands(First(task).value, env, if k.round then Passed else k.w)
    ensures Grounded(c, Back(c, k)) && Harms(task, c, Back(c, k))
  {
    hide Possible, Paired, First, Fit, Second, Met, Steady, Level, Lands;
    var b := Back(c, k);
    forall env | Paired(c, env) && Met0(env, b.w) ensures Lands(task, env, Harm) {
      HarmSecondAt(task, next, c, c1, k, env, Harm);
    }
    if k.round {
      forall env | Paired(c, env) ensures Lands(task, env, k.w) {
        HarmSecondAt(task, next, c, c1, k, env, k.w);
      }
    }
  }

  lemma HarmSecondAt(task: Task, next: Task, c: Ctx, c1: Ctx, k: Clue, env: Env, goal: Goal)
    requires First(task).Some? && Second(task, next) && Level(First(task).value)
    requires c1.Ok() && c1.scopes == c.scopes && Grounded(c1, k) && Harms(next, c1, k)
    requires Paired(c, env) && Fit(task, env) && Lands(First(task).value, env, if k.round then Passed else k.w)
    requires (goal == Harm && (k.round ==> Met0(env, k.w))) || (k.round && goal == k.w)
    ensures Lands(task, env, goal)
  {
    hide Possible, Paired, First, Fit, Second, Steady;
    PairedOk(c, env);
    var r0 :| Possible(First(task).value, env, r0) && Met(r0.out, r0.env, if k.round then Passed else k.w);
    if r0.out == Next {
      LevelSteady(First(task).value, c, env, r0);
      PairedSame(c, c1, r0.env);
      if k.round && goal == Harm {
        GoneStays(env, r0.env, |env|, k.w.d, k.w.x);
      }
      assert Lands(next, r0.env, goal);
    }
    hide Lands;
    Onwards(task, next, env, r0, goal);
  }

  lemma ClueReached(e: Expr, c: Ctx, k: Clue)
    requires c.Ok() && Straight(e) && Grounded(Walk(c, e), k)
    ensures forall env :: Paired(c, env) && (k.round || Met0(env, Back(c, k).w)) ==>
      Lands(Ex(e), env, if k.round then Passed else k.w)
  {
    hide Lands, Paired, GoneAt, Walk, MarkedAt, Ctx.BelowFloor;
    forall env | Paired(c, env) && (k.round || Met0(env, Back(c, k).w))
      ensures Lands(Ex(e), env, if k.round then Passed else k.w)
    {
      ReachExpr(e, c, env, if k.round then Passed else k.w);
    }
  }

  // ----- every report has its clue -----

  lemma {:induction false} HarmExpr(e: Expr, c: Ctx) returns (k: Clue)
    requires c.Ok() && FloorOk(c, |c.scopes|) && (Straight(e) || Endless(e)) && |Walk(c, e).diags| > |c.diags|
    ensures Grounded(c, k) && Harms(Ex(e), c, k) && (Gentle(e, None) ==> !k.round)
    decreases e, 9
  {
    hide Kept, Depth, Ctx.Bound, Harms, Grounded, WalkArgs, WalkBlock, WalkAll, WalkLoop, WalkBoth, FloorOk;
    match e
    case Name(x, _) => k := HarmName(e, c);
    case Part(_, _, _) => k := HarmPart(e, c);
    case Many(operands) =>
      k := HarmAll(operands, c);
      HarmInside(Ex(e), c, k);
    case Perhaps(first, second) => k := HarmBoth(e, first, second, c);
    case Try(base) =>
      k := HarmExpr(base, c);
      HarmInside(Ex(e), c, k);
    case Call(args) =>
      LentMarks(WalkArgs(c, args), args, None);
      k := HarmArgs(args, c);
      HarmInside(Ex(e), c, k);
    case Assign(target, value) =>
      OverwriteMarks(WalkBoth(c, e, target, value), target, value, None);
      k := HarmBoth(e, target, value, c);
    case If(_, _, _) => k := HarmIf(e, c);
    case Match(_, _) => k := HarmMatch(e, c);
    case Block(stmts) =>
      StraightUpToLast(stmts);
      k := HarmBlock(stmts, c);
      HarmInside(Ex(e), c, k);
    case Loop(_, _, _) => k := HarmLoop(e, c);
    case _ =>
  }

  /** A name that was moved. */
  lemma HarmName(e: Expr, c: Ctx) returns (k: Clue)
    requires c.Ok() && e.Name? && |Use(c, e.x).diags| > |c.diags|
    ensures Grounded(c, k) && Harms(Ex(e), c, k) && !k.round
  {
    hide Depth, Lands, Paired;
    k := Clue(Moved(Depth(c.scopes, e.x), e.x), false);
    forall env | Paired(c, env) && Met0(env, k.w) ensures Lands(Ex(e), env, Harm) {
      GoneNameHarms(e, c, env);
    }
  }

  lemma GoneNameHarms(e: Expr, c: Ctx, env: Env)
    requires e.Name? && Paired(c, env) && GoneAt(env, Depth(c.scopes, e.x), e.x)
    ensures Lands(Ex(e), env, Harm)
  {
    hide Paired, Possible, HeldHere;
    PairedDepth(c, env, e.x);
    NameRuns(env, e);
    assert NameRun(env, e.x, e.owns).out == Bad;
  }

  lemma {:induction false} HarmPart(e: Expr, c: Ctx) returns (k: Clue)
    requires e.Part? && c.Ok() && FloorOk(c, |c.scopes|) && Straight(e) && |Walk(c, e).diags| > |c.diags|
    ensures Grounded(c, k) && Harms(Ex(e), c, k) && (Gentle(e, None) ==> !k.round)
    decreases e, 0
  {
    hide Kept, Depth, Ctx.Bound, Harms, Grounded, Walk, WalkAll, Back, Completes;
    PartIs(c, e);
    var c1 := Walk(c, e.base);
    ReachMarks(WalkAll(c1, e.index), e, None);
    if |c1.diags| > |c.diags| {
      k := HarmExpr(e.base, c);
      AllCompletes(e.index, c);
      HarmFirst(Ex(e), All(e.index), c, k);
    } else {
      var k1 := HarmAll(e.index, c1);
      ClueReached(e.base, c, k1);
      HarmSecond(Ex(e), All(e.index), c, c1, k1);
      k := Back(c, k1);
      BackGentle(c, k1);
    }
  }

  lemma BackGentle(c: Ctx, k: Clue)
    ensures !k.round ==> !Back(c, k).round
  {
  }

  lemma {:induction false} HarmBoth(e: Expr, first: Expr, second: Expr, c: Ctx) returns (k: Clue)
    requires (e == Perhaps(first, second) || e == Assign(first, second)) && c.Ok() && FloorOk(c, |c.scopes|) && Straight(e)
    requires |WalkBoth(c, e, first, second).diags| > |c.diags|
    ensures Grounded(c, k) && Harms(Ex(e), c, k) && (Gentle(e, None) ==> !k.round)
    decreases e, 0
  {
    hide Kept, Depth, Ctx.Bound, Harms, Grounded, Walk, Back, Completes;
    var c1 := Walk(c, first);
    if |c1.diags| > |c.diags| {
      k := HarmExpr(first, c);
      ExprCompletes(second, c);
      HarmFirst(Ex(e), Ex(second), c, k);
    } else {
      var k1 := HarmExpr(second, c1);
      ClueReached(first, c, k1);
      HarmSecond(Ex(e), Ex(second), c, c1, k1);
      k := Back(c, k1);
      BackGentle(c, k1);
    }
  }

  lemma {:induction false} HarmAll(es: seq<Expr>, c: Ctx) returns (k: Clue)
    requires c.Ok() && FloorOk(c, |c.scopes|) && StraightAll(es) && |WalkAll(c, es).diags| > |c.diags|
    ensures Grounded(c, k) && Harms(All(es), c, k) && (GentleAll(es, None) ==> !k.round)
    decreases es, 0
  {
    hide Kept, Depth, Ctx.Bound, Harms, Grounded, Walk, Back, Completes;
    var c1 := Walk(c, es[0]);
    if |c1.diags| > |c.diags| {
      k := HarmExpr(es[0], c);
      AllCompletes(es[1..], c);
      HarmFirst(All(es), All(es[1..]), c, k);
    } else {
      var k1 := HarmAll(es[1..], c1);
      ClueReached(es[0], c, k1);
      HarmSecond(All(es), All(es[1..]), c, c1, k1);
      k := Back(c, k1);
      BackGentle(c, k1);
    }
  }

  // ----- reports of arguments -----

  /** An argument that is given away within a loop, though bound outside it, or a part. */
  lemma GiveReports(c: Ctx, arg: Arg)
    requires c.Ok() && |Give(c, arg).diags| > |c.diags|
    ensures arg.mode == Takes && Root(arg.e).Some? && c.Lookup(Root(arg.e).value) == Some(false)
    ensures (arg.e.Name? && arg.e.owns && c.Outside(arg.e.x)) || (arg.e.Part? && arg.e.owns)
  {
    hide Yields, Doubts, Depth, Ctx.HasParts, Ctx.Outside;
  }

  lemma ArgsComplete(args: seq<Arg>, c: Ctx)
    requires c.Ok() && StraightArgs(args)
    ensures Completes(Args(args), c)
  {
    hide Lands, Paired;
    forall env | Paired(c, env) ensures Lands(Args(args), env, Passed) {
      ReachArgs(args, c, env, Passed);
    }
  }

  /** Behind an argument that leaves a value gone, it is gone when all are evaluated. */
  lemma RestOfArgs(args: seq<Arg>, c: Ctx, env: Env, r0: Run, goal: Goal)
    requires args != [] && Paired(c, env) && Possible(Ex(args[0].e), env, r0) && r0.out == Next && Completes(Args(args[1..]), c)
    requires goal != Harm && Outlives(goal, |env|)
    requires Given(args[0], r0).out == Bad || Met0(Given(args[0], r0).env, goal)
    ensures Lands(Args(args), env, goal)
  {
    hide Possible, Paired, Steady, GoneAt;
    ExprSteady(c, args[0].e, env, r0);
    GivenSteady(env, args[0], r0, |env|, goal);
    var g := Given(args[0], r0);
    if g.out == Next {
      PairedSteady(c, env, g.env);
      assert Lands(Args(args[1..]), g.env, Passed);
      PassedKeeps(Args(args[1..]), g.env, goal);
    }
    hide Lands;
    ArgContinues(args, env, r0, goal);
  }

  lemma {:induction false} HarmArgs(args: seq<Arg>, c: Ctx) returns (k: Clue)
    requires c.Ok() && FloorOk(c, |c.scopes|) && StraightArgs(args) && |WalkArgs(c, args).diags| > |c.diags|
    ensures Grounded(c, k) && Harms(Args(args), c, k) && (GentleArgs(args, None) ==> !k.round)
    decreases args, 0
  {
    hide Kept, Depth, Ctx.Bound, Harms, Grounded, Walk, WalkArg, Back, Completes;
    var c1 := WalkArg(c, args[0]);
    ArgsComplete(args[1..], c);
    if |c1.diags| > |c.diags| {
      k := HarmArg(args, c);
    } else {
      var k1 := HarmArgs(args[1..], c1);
      HarmRest(args, c, k1);
      k := Back(c, k1);
      BackGentle(c, k1);
    }
  }

  lemma HarmRest(args: seq<Arg>, c: Ctx, k: Clue)
    requires args != [] && c.Ok() && StraightArgs(args)
    requires Grounded(WalkArg(c, args[0]), k) && Harms(Args(args[1..]), WalkArg(c, args[0]), k)
    ensures Grounded(c, Back(c, k)) && Harms(Args(args), c, Back(c, k))
  {
    hide Kept, Depth, Ctx.Bound, WalkArg, Lands, Paired, GoneAt, MarkedAt;
    var b := Back(c, k);
    forall env | Paired(c, env) && Met0(env, b.w) ensures Lands(Args(args), env, Harm) {
      HarmRestAt(args, c, k, env, Harm);
    }
    if k.round {
      forall env | Paired(c, env) ensures Lands(Args(args), env, k.w) {
        HarmRestAt(args, c, k, env, k.w);
      }
    }
  }

  lemma HarmRestAt(args: seq<Arg>, c: Ctx, k: Clue, env: Env, goal: Goal)
    requires args != [] && c.Ok() && StraightArgs(args) && Paired(c, env)
    requires Grounded(WalkArg(c, args[0]), k) && Harms(Args(args[1..]), WalkArg(c, args[0]), k)
    requires (goal == Harm && Met0(env, Back(c, k).w)) || (k.round && goal == k.w)
    ensures Lands(Args(args), env, goal)
  {
    hide Kept, Depth, Ctx.Bound, WalkArg, Lands, Paired, Possible, GoneAt, MarkedAt, Given, Ctx.BelowFloor, Steady;
    PairedOk(c, env);
    var c1 := WalkArg(c, args[0]);
    var r0 := ReachArg(args[0], c, env, if k.round then Passed else k.w);
    if r0.out == Bad {
      assert Lands(Ex(args[0].e), env, Harm) by { SpoilLands(Ex(args[0].e), env, r0); }
      BadFirst(Args(args), env, goal);
    } else {
      var g := Given(args[0], r0);
      if g.out == Next {
        PairedSame(c, c1, g.env);
        if k.round && goal == Harm {
          ExprSteady(c, args[0].e, env, r0);
          GivenSteady(env, args[0], r0, |env|, goal);
          GoneStays(env, g.env, |env|, k.w.d, k.w.x);
        }
        assert Lands(Args(args[1..]), g.env, goal);
      }
      ArgContinues(args, env, r0, goal);
    }
  }

  lemma SpoilLands(task: Task, env: Env, r: Run)
    requires Possible(task, env, r) && r.out == Bad
    ensures Lands(task, env, Harm)
  {
    hide Possible;
  }

  lemma {:induction false} HarmArg(args: seq<Arg>, c: Ctx) returns (k: Clue)
    requires args != [] && c.Ok() && FloorOk(c, |c.scopes|) && StraightArgs(args) && Completes(Args(args[1..]), c)
    requires |WalkArg(c, args[0]).diags| > |c.diags|
    ensures Grounded(c, k) && Harms(Args(args), c, k) && (GentleArg(args[0], None) ==> !k.round)
    decreases args[0], 1
  {
    hide Kept, Depth, Ctx.Bound, Harms, Grounded, Walk, Completes, Give;
    var arg := args[0];
    var c1 := Walk(c, arg.e);
    if |c1.diags| > |c.diags| {
      k := HarmExpr(arg.e, c);
      HarmArgFirst(args, c, k);
    } else {
      GiveReports(c1, arg);
      if arg.e.Name? {
        k := HarmGiven(args, c);
      } else {
        k := Clue(Passed, false);
        HarmPartGiven(args, c);
      }
    }
  }

  lemma HarmArgFirst(args: seq<Arg>, c: Ctx, k: Clue)
    requires args != [] && c.Ok() && StraightArgs(args) && Completes(Args(args[1..]), c)
    requires Grounded(c, k) && Harms(Ex(args[0].e), c, k)
    ensures Harms(Args(args), c, k)
  {
    hide Kept, Depth, Ctx.Bound, Lands, Paired, GoneAt, MarkedAt, Completes;
    forall env | Paired(c, env) && Met0(env, k.w) ensures Lands(Args(args), env, Harm) {
      BadFirst(Args(args), env, Harm);
    }
    if k.round {
      forall env | Paired(c, env) ensures Lands(Args(args), env, k.w) {
        HarmArgFirstAt(args, c, k, env);
      }
    }
  }

  lemma HarmArgFirstAt(args: seq<Arg>, c: Ctx, k: Clue, env: Env)
    requires args != [] && Paired(c, env) && Completes(Args(args[1..]), c)
    requires Grounded(c, k) && k.round && Lands(Ex(args[0].e), env, k.w)
    ensures Lands(Args(args), env, k.w)
  {
    hide Kept, Depth, Ctx.Bound, Paired, Possible, GoneAt, MarkedAt, Completes, Steady;
    PairedOk(c, env);
    var r0 :| Possible(Ex(args[0].e), env, r0) && Met(r0.out, r0.env, k.w);
    if r0.out == Bad {
      SpoilLands(Ex(args[0].e), env, r0);
      BadFirst(Args(args), env, k.w);
    } else {
      ExprSteady(c, args[0].e, env, r0);
      GivenSteady(env, args[0], r0, |env|, k.w);
      RestOfArgs(args, c, env, r0, k.w);
    }
  }

  /** A name of outside that a loop gives away: the first round takes it, the second misses it. */
  lemma HarmGiven(args: seq<Arg>, c: Ctx) returns (k: Clue)
    requires args != [] && c.Ok() && args[0].mode == Takes && args[0].e.Name? && args[0].e.owns && Completes(Args(args[1..]), c)
    requires var c1 := Walk(c, args[0].e); c1.Lookup(args[0].e.x) == Some(false) && c1.Outside(args[0].e.x)
    ensures Grounded(c, k) && Harms(Args(args), c, k) && k.round
  {
    hide Kept, Depth, Ctx.Bound, Lands, Paired, GoneAt, Completes, Use;
    UseMarks(c, args[0].e.x, None);
    UseKept(c, args[0].e.x);
    var e := args[0].e;
    k := Clue(Moved(Depth(c.scopes, e.x), e.x), true);
    forall env | Paired(c, env) && Met0(env, k.w) ensures Lands(Args(args), env, Harm) {
      GoneNameHarms(e, c, env);
      BadFirst(Args(args), env, Harm);
    }
    forall env | Paired(c, env) ensures Lands(Args(args), env, k.w) {
      HarmGivenAt(args, c, env, k.w);
    }
  }

  lemma HarmGivenAt(args: seq<Arg>, c: Ctx, env: Env, goal: Goal)
    requires args != [] && Paired(c, env) && args[0].mode == Takes && args[0].e.Name? && args[0].e.owns
    requires c.Lookup(args[0].e.x) == Some(false) && goal == Moved(Depth(c.scopes, args[0].e.x), args[0].e.x)
    requires Completes(Args(args[1..]), c)
    ensures Lands(Args(args), env, goal)
  {
    hide Kept, Depth, Ctx.Bound, Paired, Possible, GoneAt, Completes, Given, Lands;
    var e := args[0].e;
    PairedOk(c, env);
    NameRuns(env, e);
    GivenGone(c, env, e, Takes);
    assert args[0] == Arg(e, Takes);
    var r0 := NameRun(env, e.x, true);
    if r0.out == Bad {
      SpoilLands(Ex(e), env, r0);
      BadFirst(Args(args), env, goal);
    } else {
      RestOfArgs(args, c, env, r0, goal);
    }
  }

  /** What a part is, in any run. */
  lemma PartIsPiece(e: Expr, c: Ctx, env: Env, r: Run)
    requires e.Part? && e.owns && Root(e).Some? && Paired(c, env) && c.Lookup(Root(e).value) == Some(false)
    requires Possible(Ex(e), env, r) && r.out == Next
    ensures r.value.Piece?
  {
    hide Kept, Depth, Ctx.Bound, Paired, Eval, EvalAll, Steady;
    ExprSteady(c, e, env, r);
    var n: nat :| Can(n, Ex(e), env, r);
    assert Leads(n + 1, Ex(e), env, r.(tape := []));
    var tape :| Exec(n + 1, Ex(e), env, tape) == r.(tape := []);
    PartExec(n + 1, e, env, tape);
    PairedDepth(c, r.env, Root(e).value);
  }

  lemma PartExec(fuel: nat, e: Expr, env: Env, tape: seq<nat>)
    requires fuel > 0 && e.Part? && e.owns && Root(e).Some? && Eval(fuel, e, env, tape).out == Next
    ensures var r := Eval(fuel, e, env, tape); OwnedHere(r.env, Root(e).value) ==> r.value.Piece?
  {
    hide Depth, EvalAll, PartHere, Gone;
  }

  lemma HarmPartGiven(args: seq<Arg>, c: Ctx)
    requires args != [] && c.Ok() && StraightArgs(args) && args[0].mode == Takes && args[0].e.Part? && args[0].e.owns
    requires Root(args[0].e).Some? && Walk(c, args[0].e).Lookup(Root(args[0].e).value) == Some(false)
    ensures Grounded(c, Clue(Passed, false)) && Harms(Args(args), c, Clue(Passed, false))
  {
    hide Kept, Depth, Ctx.Bound, Paired, Lands, Walk;
    forall env | Paired(c, env) ensures Lands(Args(args), env, Harm) {
      HarmPartGivenAt(args, c, env);
    }
  }

  lemma HarmPartGivenAt(args: seq<Arg>, c: Ctx, env: Env)
    requires args != [] && Paired(c, env) && StraightArgs(args) && args[0].mode == Takes && args[0].e.Part? && args[0].e.owns
    requires Root(args[0].e).Some? && c.Lookup(Root(args[0].e).value) == Some(false)
    ensures Lands(Args(args), env, Harm)
  {
    hide Kept, Depth, Ctx.Bound, Paired, Possible, Walk, Settle;
    PairedOk(c, env);
    ReachExpr(args[0].e, c, env, Passed);
    var r0 :| Possible(Ex(args[0].e), env, r0) && Met(r0.out, r0.env, Passed);
    if r0.out == Bad {
      SpoilLands(Ex(args[0].e), env, r0);
      BadFirst(Args(args), env, Harm);
    } else {
      PartIsPiece(args[0].e, c, env, r0);
      ArgContinues(args, env, r0, Harm);
    }
  }

  // ----- reports in branches -----

  lemma SameGrounded(c: Ctx, c': Ctx, k: Clue)
    requires Grounded(c, k) && c'.consumed == c.consumed && c'.scopes == c.scopes && c'.floors == c.floors
    ensures Grounded(c', k)
  {
    hide Depth;
  }

  lemma {:induction false} StraightUpToLast(stmts: seq<Stmt>)
    requires StraightStmts(stmts)
    ensures UpToLast(stmts)
    decreases stmts
  {
    if stmts != [] {
      StraightUpToLast(stmts[1..]);
    }
  }

  lemma {:induction false} HarmIf(e: Expr, c: Ctx) returns (k: Clue)
    requires e.If? && c.Ok() && FloorOk(c, |c.scopes|) && Straight(e) && |Walk(c, e).diags| > |c.diags|
    ensures Grounded(c, k) && Harms(Ex(e), c, k) && (Gentle(e, None) ==> !k.round)
    decreases e, 0
  {
    hide Kept, Depth, Ctx.Bound, Harms, Grounded, Walk, WalkBlock, Back, Completes, Merge;
    var c0 := Walk(c, e.cond);
    var c1 := WalkBlock(c0, e.thn);
    BranchesAre(c, e);
    if |c0.diags| > |c.diags| {
      k := HarmExpr(e.cond, c);
      if e.els.None? {
        HarmInside(Ex(e), c, k);
      } else {
        ExprCompletes(e.els.value, c);
        HarmFirst(Ex(e), Ex(e.els.value), c, k);
      }
    } else {
      var c1' := c1.(consumed := c0.consumed);
      var k1: Clue;
      if |c1.diags| > |c0.diags| {
        if StraightStmts(e.thn) {
          StraightUpToLast(e.thn);
        }
        k1 := HarmBlock(e.thn, c0);
        ClueReached(e.cond, c, k1);
        HarmSecond(Ex(e), Blk(e.thn), c, c0, k1);
      } else {
        k1 := HarmExpr(e.els.value, c1');
        SameGrounded(c1', c0, k1);
        ClueReached(e.cond, c, k1);
        HarmSecond(Ex(e), Ex(e.els.value), c, c1', k1);
      }
      k := Back(c, k1);
      BackGentle(c, k1);
    }
  }

  // ----- reports in matches -----

  /** An arm may come to share whatever the matched place shares. */
  ghost predicate ArmsHarm(arms: seq<Arm>, borrow: bool, c: Ctx, k: Clue) {
    && (forall env, source :: Paired(c, env) && Met0(env, k.w) ==> Lands(Arms(arms, borrow, source), env, Harm))
    && (k.round ==> forall env, source :: Paired(c, env) ==> Lands(Arms(arms, borrow, source), env, k.w))
  }

  lemma {:induction false} HarmMatch(e: Expr, c: Ctx) returns (k: Clue)
    requires e.Match? && c.Ok() && FloorOk(c, |c.scopes|) && Straight(e) && |Walk(c, e).diags| > |c.diags|
    ensures Grounded(c, k) && Harms(Ex(e), c, k) && (Gentle(e, None) ==> !k.round)
    decreases e, 0
  {
    hide Kept, Depth, Ctx.Bound, Harms, Grounded, ArmsHarm, Walk, WalkArms, Back, Slip, MatchSource;
    var c0 := Walk(c, e.scrut);
    var c1 := if Root(e.scrut).None? then Slip(c0, e.scrut) else c0;
    MatchIs(c, e);
    SlipSilent(c0, e.scrut);
    if |c0.diags| > |c.diags| {
      k := HarmExpr(e.scrut, c);
      HarmScrut(e, c, k);
    } else {
      var k1 := HarmArms(e.arms, c1, IsBorrow(c, e.scrut), MatchSource(c, e.scrut), c1.consumed);
      assert c1.(consumed := c1.consumed) == c1;
      HarmTried(e, c, c1, k1);
      k := Back(c, k1);
      BackGentle(c, k1);
    }
  }

  lemma SlipSilent(c: Ctx, e: Expr)
    requires c.Ok()
    ensures Slip(c, e).diags == c.diags
  {
    hide Yields, Doubts;
  }

  lemma HarmScrut(e: Expr, c: Ctx, k: Clue)
    requires e.Match? && c.Ok() && Straight(e) && Grounded(c, k) && Harms(Ex(e.scrut), c, k)
    ensures Harms(Ex(e), c, k)
  {
    hide Kept, Depth, Ctx.Bound, Lands, Paired, GoneAt, MarkedAt;
    forall env | Paired(c, env) && Met0(env, k.w) ensures Lands(Ex(e), env, Harm) {
      BadFirst(Ex(e), env, Harm);
    }
    if k.round {
      forall env | Paired(c, env) ensures Lands(Ex(e), env, k.w) {
        HarmScrutAt(e, c, k, env);
      }
    }
  }

  lemma HarmScrutAt(e: Expr, c: Ctx, k: Clue, env: Env)
    requires e.Match? && Paired(c, env) && Straight(e) && Grounded(c, k) && k.round && Lands(Ex(e.scrut), env, k.w)
    ensures Lands(Ex(e), env, k.w)
  {
    hide Kept, Depth, Ctx.Bound, Paired, Possible, GoneAt, MarkedAt, MatchedHere, Settle, Steady, Walk, WalkArms, MatchSource;
    PairedOk(c, env);
    var r0 :| Possible(Ex(e.scrut), env, r0) && Met(r0.out, r0.env, k.w);
    if r0.out == Bad {
      SpoilLands(Ex(e.scrut), env, r0);
      BadFirst(Ex(e), env, k.w);
    } else {
      ExprSteady(c, e.scrut, env, r0);
      SettlingSteady(e, r0, k.w);
      var env1 := Settling(e, r0);
      PairedSteady(c, r0.env, env1);
      TriedLands(e, c, env, r0, k.w);
      MatchContinues(e, env, r0, k.w);
    }
  }

  /** The arms come to an end. */
  lemma TriedLands(e: Expr, c: Ctx, env: Env, r0: Run, goal: Goal)
    requires e.Match? && Straight(e) && c.Ok() && Paired(c, Settling(e, r0)) && Met0(Settling(e, r0), goal) && goal != Harm
    requires goal.Moved? ==> goal.d < |c.scopes|
    ensures Lands(Tried(e, env, r0), Settling(e, r0), goal)
  {
    hide Kept, Depth, Ctx.Bound, Paired, Possible, GoneAt, MarkedAt, MatchedHere, Settle, WalkArms;
    var task, env1 := Tried(e, env, r0), Settling(e, r0);
    PairedOk(c, env1);
    assert c.(consumed := c.consumed) == c;
    ReachArms(e.arms, c, task.borrow, Source.Whole, task.source, c.consumed, env1, Passed);
    PassedKeeps(task, env1, goal);
  }

  lemma HarmTried(e: Expr, c: Ctx, c1: Ctx, k: Clue)
    requires e.Match? && c.Ok() && Straight(e) && c1 == (if Root(e.scrut).None? then Slip(Walk(c, e.scrut), e.scrut) else Walk(c, e.scrut))
    requires c1.Ok() && c1.scopes == c.scopes && c1.floors == c.floors
    requires Grounded(c1, k) && ArmsHarm(e.arms, IsBorrow(c, e.scrut), c1, k)
    ensures Grounded(c, Back(c, k)) && Harms(Ex(e), c, Back(c, k))
  {
    hide Kept, Depth, Ctx.Bound, Lands, Paired, GoneAt, MarkedAt, Walk, Slip, ArmsHarm;
    var b := Back(c, k);
    forall env | Paired(c, env) && Met0(env, b.w) ensures Lands(Ex(e), env, Harm) {
      HarmTriedAt(e, c, c1, k, env, Harm);
    }
    if k.round {
      forall env | Paired(c, env) ensures Lands(Ex(e), env, k.w) {
        HarmTriedAt(e, c, c1, k, env, k.w);
      }
    }
  }

  lemma HarmTriedAt(e: Expr, c: Ctx, c1: Ctx, k: Clue, env: Env, goal: Goal)
    requires e.Match? && c.Ok() && Straight(e)
    requires c1 == (if Root(e.scrut).None? then Slip(Walk(c, e.scrut), e.scrut) else Walk(c, e.scrut))
    requires Paired(c, env) && c1.Ok() && c1.scopes == c.scopes
    requires Grounded(c1, k) && ArmsHarm(e.arms, IsBorrow(c, e.scrut), c1, k)
    requires (goal == Harm && Met0(env, Back(c, k).w)) || (k.round && goal == k.w)
    ensures Lands(Ex(e), env, goal)
  {
    hide Kept, Depth, Ctx.Bound, Paired, Possible, GoneAt, MarkedAt, MatchedHere, Settle, Steady, Walk, Slip, Ctx.BelowFloor;
    PairedOk(c, env);
    var c0 := Walk(c, e.scrut);
    SlipMarked(c0, e.scrut, k.w);
    var first := if k.round then Passed else k.w;
    ReachExpr(e.scrut, c, env, first);
    var r0 :| Possible(Ex(e.scrut), env, r0) && Met(r0.out, r0.env, first);
    if r0.out == Bad {
      SpoilLands(Ex(e.scrut), env, r0);
      BadFirst(Ex(e), env, goal);
    } else {
      ExprSteady(c, e.scrut, env, r0);
      SettlingSteady(e, r0, k.w);
      var env1 := Settling(e, r0);
      PairedSteady(c, r0.env, env1);
      PairedSame(c, c1, env1);
      PairedBorrow(c, env, e.scrut);
      if k.round && goal == Harm {
        GoneStays(env, r0.env, |env|, k.w.d, k.w.x);
      }
      assert Lands(Arms(e.arms, IsBorrow(c, e.scrut), Tried(e, env, r0).source), env1, goal);
      MatchContinues(e, env, r0, goal);
    }
  }

  lemma {:induction false} HarmArms(arms: seq<Arm>, c: Ctx, borrow: bool, source: Source, saved: seq<map<Ident, Cause>>)
      returns (k: Clue)
    requires c.Ok() && FloorOk(c, |c.scopes|) && StraightArms(arms) && Within(saved, c.consumed)
    requires |WalkArms(c, arms, borrow, source, saved).diags| > |c.diags|
    ensures Grounded(c.(consumed := saved), k) && ArmsHarm(arms, borrow, c, k) && (GentleArms(arms, None) ==> !k.round)
    decreases arms, 0
  {
    hide Kept, Depth, Ctx.Bound, Grounded, ArmsHarm, WalkArm, Merge;
    ArmsStep(c, arms, borrow, source, saved);
    var cs := c.(consumed := saved);
    var c1 := WalkArm(cs, arms[0], borrow, source, |arms| == 1);
    var c2 := c1.(consumed := Merge(c.consumed, c1.consumed));
    if |c1.diags| > |c.diags| {
      k := HarmArm(arms, cs, borrow, source, |arms| == 1);
      SameArmsHarm(arms, borrow, cs, c, k);
    } else {
      k := HarmArms(arms[1..], c2, borrow, source, saved);
      SameGrounded(c2.(consumed := saved), cs, k);
      SameArmsHarm(arms[1..], borrow, c2, c, k);
      SkippedHarm(arms, borrow, c, k);
    }
  }

  lemma SameArmsHarm(arms: seq<Arm>, borrow: bool, c: Ctx, c': Ctx, k: Clue)
    requires ArmsHarm(arms, borrow, c, k) && c.Ok() && c'.scopes == c.scopes
    ensures ArmsHarm(arms, borrow, c', k)
  {
    hide Lands, Met0, PairedScope;
    forall env ensures Paired(c', env) ==> Paired(c, env) {
    }
  }

  lemma SkippedHarm(arms: seq<Arm>, borrow: bool, c: Ctx, k: Clue)
    requires arms != [] && ArmsHarm(arms[1..], borrow, c, k)
    ensures ArmsHarm(arms, borrow, c, k)
  {
    hide Lands, Met0, Paired;
    forall env, source | Paired(c, env) && Met0(env, k.w) ensures Lands(Arms(arms, borrow, source), env, Harm) {
      ArmSkipped(arms, borrow, source, env, Harm);
    }
    if k.round {
      forall env, source | Paired(c, env) ensures Lands(Arms(arms, borrow, source), env, k.w) {
        ArmSkipped(arms, borrow, source, env, k.w);
      }
    }
  }

  /** The walk of an arm, stage by stage. */
  ghost function Bound(c: Ctx, arm: Arm, borrow: bool, source: Source): (c': Ctx)
    requires c.Ok()
    ensures c'.Ok() && |c'.scopes| == |c.scopes| + 1 && c'.floors == c.floors && c'.diags == c.diags
    ensures forall d: nat, x :: MarkedAt(c', d, x) ==> d < |c.scopes| && MarkedAt(c, d, x)
  {
    PushOk(c);
    BindAllMarks(c.Push(), arm.binds, borrow, source, None);
    BoundOnly(c, BindAll(c.Push(), arm.binds, borrow, source));
    BindAll(c.Push(), arm.binds, borrow, source)
  }

  lemma BoundOnly(c: Ctx, c': Ctx)
    requires c.Ok() && c'.Ok() && |c'.scopes| == |c.scopes| + 1 && NoneNew(c.Push(), c', |c.scopes| + 1, None)
    ensures forall d: nat, x :: MarkedAt(c', d, x) ==> d < |c.scopes| && MarkedAt(c, d, x)
  {
    forall d: nat, x | MarkedAt(c', d, x)
      ensures d < |c.scopes| && MarkedAt(c, d, x)
    {
      assert MarkedAt(c.Push(), d, x);
    }
  }

  ghost function Guarded(c: Ctx, arm: Arm, saved: seq<map<Ident, Cause>>, last: bool): (c': Ctx)
    requires c.Ok() && |c.scopes| == |saved| + 1
    ensures c'.Ok() && c'.scopes == c.scopes && c'.floors == c.floors
  {
    if arm.guard.None? then c else WalkGuard(c, arm.guard.value, saved, last)
  }

  lemma ArmIs(c: Ctx, arm: Arm, borrow: bool, source: Source, last: bool)
    requires c.Ok()
    ensures WalkArm(c, arm, borrow, source, last).diags ==
      Walk(Guarded(Bound(c, arm, borrow, source), arm, c.consumed, last), arm.body).diags
  {
    hide Kept, Depth, BindAll, WalkGuard, Walk;
    PushOk(c);
    BindAllMarks(c.Push(), arm.binds, borrow, source, None);
  }

  lemma {:induction false} HarmArm(arms: seq<Arm>, c: Ctx, borrow: bool, source: Source, last: bool) returns (k: Clue)
    requires arms != [] && c.Ok() && FloorOk(c, |c.scopes|) && StraightArm(arms[0])
    requires |WalkArm(c, arms[0], borrow, source, last).diags| > |c.diags|
    ensures Grounded(c, k) && ArmsHarm(arms, borrow, c, k) && (GentleArm(arms[0], None) ==> !k.round)
    decreases arms[0], 1
  {
    hide Kept, Depth, Ctx.Bound, Grounded, ArmsHarm, WalkArm, WalkGuard, Walk, Bound, Guarded, Back;
    var arm := arms[0];
    ArmIs(c, arm, borrow, source, last);
    var c1 := Bound(c, arm, borrow, source);
    var c2 := Guarded(c1, arm, c.consumed, last);
    var k1 := HarmOfArm(arm, c1, c.consumed, last);
    if |c2.diags| > |c1.diags| {
      HarmGuard(arms, c, borrow, source, k1);
    } else {
      HarmBody(arms, c, borrow, source, last, k1);
    }
    k := Back(c, k1);
    BackGentle(c, k1);
  }

  /** The clue of the guard, if it has a report, or else of the body. */
  lemma {:induction false} HarmOfArm(arm: Arm, c1: Ctx, saved: seq<map<Ident, Cause>>, last: bool) returns (k: Clue)
    requires c1.Ok() && |c1.scopes| == |saved| + 1 && FloorOk(c1, |saved|) && StraightArm(arm)
    requires |Walk(Guarded(c1, arm, saved, last), arm.body).diags| > |c1.diags|
    ensures var c2 := Guarded(c1, arm, saved, last);
      if |c2.diags| > |c1.diags| then arm.guard.Some? && Grounded(c1, k) && Harms(Ex(arm.guard.value), c1, k)
      else Grounded(c2, k) && Harms(Ex(arm.body), c2, k)
    ensures GentleArm(arm, None) ==> !k.round
    ensures k.round ==> k.w.Moved? && k.w.d < |saved|
    decreases arm, 0
  {
    hide Kept, Depth, Ctx.Bound, Harms, Walk;
    var c2 := Guarded(c1, arm, saved, last);
    if arm.guard.Some? {
      GuardMarks(c1, arm.guard.value, saved, last, None);
    }
    if |c2.diags| > |c1.diags| {
      k := HarmExpr(arm.guard.value, c1);
    } else {
      k := HarmExpr(arm.body, c2);
    }
  }

  lemma HarmGuard(arms: seq<Arm>, c: Ctx, borrow: bool, source: Source, k: Clue)
    requires arms != [] && c.Ok() && StraightArm(arms[0]) && arms[0].guard.Some?
    requires Grounded(Bound(c, arms[0], borrow, source), k) && Harms(Ex(arms[0].guard.value), Bound(c, arms[0], borrow, source), k)
    requires k.round ==> k.w.Moved? && k.w.d < |c.scopes|
    ensures Grounded(c, Back(c, k)) && ArmsHarm(arms, borrow, c, Back(c, k))
  {
    hide Kept, Depth, Ctx.Bound, Lands, Paired, GoneAt, MarkedAt, Harms, BindAll;
    var b := Back(c, k);
    forall env, source' | Paired(c, env) && Met0(env, b.w) ensures Lands(Arms(arms, borrow, source'), env, Harm) {
      HarmGuardAt(arms, c, borrow, source, source', k, env, Harm);
    }
    if k.round {
      forall env, source' | Paired(c, env) ensures Lands(Arms(arms, borrow, source'), env, k.w) {
        HarmGuardAt(arms, c, borrow, source, source', k, env, k.w);
      }
    }
  }

  lemma InArm(c: Ctx, arm: Arm, borrow: bool, source: Source, source': Source, env: Env, goal: Goal)
    requires Paired(c, env)
    ensures var inner := BindCells(env + [map[]], arm.binds, borrow, source');
      && Paired(Bound(c, arm, borrow, source), inner) && |inner| == |env| + 1
      && (Outlives(goal, |env|) && Met0(env, goal) ==> Met0(inner, goal))
  {
    hide Kept, Depth, Ctx.Bound, Paired, BindAll, BindCells;
    PairedOk(c, env);
    PairedPush(c, env);
    PairedBindAll(c.Push(), env + [map[]], arm.binds, borrow, source, source');
    BindOuter(env, arm.binds, borrow, source');
    var inner := BindCells(env + [map[]], arm.binds, borrow, source');
    if goal.Moved? && Outlives(goal, |env|) {
      assert env[goal.d] == inner[..|env|][goal.d];
    }
  }

  lemma HarmGuardAt(arms: seq<Arm>, c: Ctx, borrow: bool, source: Source, source': Source, k: Clue, env: Env, goal: Goal)
    requires arms != [] && Paired(c, env) && StraightArm(arms[0]) && arms[0].guard.Some?
    requires c.Ok() && Grounded(Bound(c, arms[0], borrow, source), k) && Harms(Ex(arms[0].guard.value), Bound(c, arms[0], borrow, source), k)
    requires (goal == Harm && Met0(env, Back(c, k).w)) || (k.round && goal == k.w)
    requires k.round ==> k.w.Moved? && k.w.d < |c.scopes|
    ensures Lands(Arms(arms, borrow, source'), env, goal)
  {
    hide Kept, Depth, Ctx.Bound, Paired, Possible, GoneAt, MarkedAt, Walk, Bound, BindCells, Steady;
    PairedOk(c, env);
    var arm := arms[0];
    var c1 := Bound(c, arm, borrow, source);
    var inner := BindCells(env + [map[]], arm.binds, borrow, source');
    InArm(c, arm, borrow, source, source', env, k.w);
    if goal == Harm {
      BadFirst(Guard(arm.guard), inner, Harm);
      var g :| Possible(Guard(arm.guard), inner, g) && Met(g.out, g.env, Harm);
      ArmTaken(arms, borrow, source', env, g, goal);
    } else {
      StopsAfter(Guard(arm.guard), inner, goal);
      var g :| Possible(Guard(arm.guard), inner, g) && Met(g.out, g.env, goal);
      if g.out == Next {
        LevelSteady(Guard(arm.guard), c1, inner, g);
        ReachExpr(arm.body, c1, g.env, Passed);
        PassedKeeps(Ex(arm.body), g.env, goal);
      }
      ArmTaken(arms, borrow, source', env, g, goal);
    }
  }

  lemma HarmBody(arms: seq<Arm>, c: Ctx, borrow: bool, source: Source, last: bool, k: Clue)
    requires arms != [] && c.Ok() && StraightArm(arms[0])
    requires var c2 := Guarded(Bound(c, arms[0], borrow, source), arms[0], c.consumed, last);
      Grounded(c2, k) && Harms(Ex(arms[0].body), c2, k)
    requires k.round ==> k.w.Moved? && k.w.d < |c.scopes|
    ensures Grounded(c, Back(c, k)) && ArmsHarm(arms, borrow, c, Back(c, k))
  {
    hide Kept, Depth, Ctx.Bound, Lands, Paired, GoneAt, MarkedAt, Harms, BindAll, WalkGuard, Bound;
    var b := Back(c, k);
    forall env, source' | Paired(c, env) && Met0(env, b.w) ensures Lands(Arms(arms, borrow, source'), env, Harm) {
      HarmBodyAt(arms, c, borrow, source, source', last, k, env, Harm);
    }
    if k.round {
      forall env, source' | Paired(c, env) ensures Lands(Arms(arms, borrow, source'), env, k.w) {
        HarmBodyAt(arms, c, borrow, source, source', last, k, env, k.w);
      }
    }
  }

  lemma HarmBodyAt(arms: seq<Arm>, c: Ctx, borrow: bool, source: Source, source': Source, last: bool, k: Clue, env: Env, goal: Goal)
    requires arms != [] && Paired(c, env) && c.Ok() && StraightArm(arms[0])
    requires var c2 := Guarded(Bound(c, arms[0], borrow, source), arms[0], c.consumed, last);
      Grounded(c2, k) && Harms(Ex(arms[0].body), c2, k)
    requires (goal == Harm && Met0(env, Back(c, k).w)) || (k.round && goal == k.w)
    requires k.round ==> k.w.Moved? && k.w.d < |c.scopes|
    ensures Lands(Arms(arms, borrow, source'), env, goal)
  {
    hide Kept, Depth, Ctx.Bound, Paired, Possible, GoneAt, MarkedAt, Walk, WalkGuard, Bound, BindCells, Steady, Ctx.BelowFloor;
    PairedOk(c, env);
    var arm := arms[0];
    var c1 := Bound(c, arm, borrow, source);
    var c2 := Guarded(c1, arm, c.consumed, last);
    var inner := BindCells(env + [map[]], arm.binds, borrow, source');
    InArm(c, arm, borrow, source, source', env, k.w);
    var g := ReachGuard(arm, c1, c.consumed, last, inner, if k.round then Passed else k.w);
    if g.out == Next {
      PairedSame(c1, c2, g.env);
      if k.round && goal == Harm {
        LevelSteady(Guard(arm.guard), c1, inner, g);
        GoneStays(inner, g.env, |inner|, k.w.d, k.w.x);
      }
      assert Lands(Ex(arm.body), g.env, goal);
    }
    ArmTaken(arms, borrow, source', env, g, goal);
  }

  // ----- reports in blocks -----

  /** Where a statement may leave for good, nothing is given away, or there is no loop around. */
  predicate Sheltered(stmts: seq<Stmt>, c: Ctx) {
    UpToLast(stmts) && (StraightStmts(stmts) || GentleStmts(stmts, None) || c.floors == [])
  }

  lemma {:induction false} HarmBlock(stmts: seq<Stmt>, c: Ctx) returns (k: Clue)
    requires c.Ok() && FloorOk(c, |c.scopes|) && Sheltered(stmts, c) && |WalkBlock(c, stmts).diags| > |c.diags|
    ensures Grounded(c, k) && Harms(Blk(stmts), c, k) && (GentleStmts(stmts, None) ==> !k.round)
    decreases stmts, 1
  {
    hide Kept, Depth, Ctx.Bound, Harms, Grounded, WalkStmts;
    PushOk(c);
    k := HarmStmts(stmts, c.Push());
    HarmOutside(stmts, c, k);
  }

  lemma HarmOutside(stmts: seq<Stmt>, c: Ctx, k: Clue)
    requires c.Ok() && FloorOk(c, |c.scopes|) && c.Push().Ok() && Grounded(c.Push(), k) && Harms(Sts(stmts), c.Push(), k)
    ensures Grounded(c, k) && Harms(Blk(stmts), c, k)
  {
    hide Kept, Depth, Ctx.Bound, Paired, Lands, GoneAt;
    forall env | Paired(c, env) && Met0(env, k.w) ensures Lands(Blk(stmts), env, Harm) {
      PairedOk(c, env);
      PairedPush(c, env);
      InnerMet(env, k.w);
      BlockLands(stmts, env, Harm);
    }
    if k.round {
      forall env | Paired(c, env) ensures Lands(Blk(stmts), env, k.w) {
        PairedOk(c, env);
        PairedPush(c, env);
        BlockLands(stmts, env, k.w);
      }
    }
  }

  lemma {:induction false} HarmStmts(stmts: seq<Stmt>, c: Ctx) returns (k: Clue)
    requires c.Ok() && |c.scopes| > 0 && FloorOk(c, |c.scopes| - 1) && Sheltered(stmts, c)
    requires |WalkStmts(c, stmts).diags| > |c.diags|
    ensures Grounded(c, k) && Harms(Sts(stmts), c, k) && (GentleStmts(stmts, None) ==> !k.round)
    decreases stmts, 0
  {
    hide Kept, Depth, Ctx.Bound, Harms, Grounded, WalkStmt, Back;
    var c1 := WalkStmt(c, stmts[0]);
    if |c1.diags| > |c.diags| {
      FirstSheltered(stmts, c);
      k := HarmStmt(stmts[0], c, StraightStmts(stmts));
      RoundNeedsLoop(c, k);
      HarmFirstStmt(stmts, c, k);
    } else {
      var k1 := HarmStmts(stmts[1..], c1);
      HarmLaterStmt(stmts, c, k1);
      k := Back(c, k1);
      BackGentle(c, k1);
    }
  }

  lemma FirstSheltered(stmts: seq<Stmt>, c: Ctx)
    requires stmts != [] && Sheltered(stmts, c)
    ensures Final(stmts[0]) && (StraightStmts(stmts) ==> StraightStmt(stmts[0]))
    ensures StraightStmts(stmts) || GentleStmt(stmts[0], None) || c.floors == []
  {
    if StraightStmt(stmts[0]) {
      StraightIsFinal(stmts[0]);
    }
  }

  lemma StraightIsFinal(s: Stmt)
    requires StraightStmt(s)
    ensures Final(s)
  {
  }

  lemma RoundNeedsLoop(c: Ctx, k: Clue)
    requires Grounded(c, k)
    ensures k.round ==> c.floors != []
  {
  }

  /** Behind a statement the scopes are those that its walk leaves. */
  lemma StmtPaired(s: Stmt, c: Ctx, env: Env, r: Run)
    requires Paired(c, env) && |env| > 0 && !s.Return? && Possible(St(s), env, r) && r.out == Next
    ensures |r.env| == |env| && Paired(WalkStmt(c, s), r.env)
  {
    hide Kept, Depth, Ctx.Bound, Paired, Walk, Steady, Eval, BindCell, Ctx.Bind, LetMoves, MoveSource, SourceOf;
    PossibleLength(St(s), env, r);
    PairedOk(c, env);
    match s
    case Let(x, None) =>
      var n: nat :| Can(n, St(s), env, r);
      assert Leads(n + 1, St(s), env, r.(tape := []));
      PairedBind(c, env, x, false, Source.Whole, Source.Whole);
    case Let(x, Some(init)) =>
      var n: nat :| Can(n, St(s), env, r);
      assert Leads(n + 1, St(s), env, r.(tape := []));
      var tape :| Exec(n + 1, St(s), env, tape) == r.(tape := []);
      LetPaired(x, init, c, env, n, tape);
    case Do(e) => DoSteady(e, c, env, r);
  }

  lemma LetPaired(x: Ident, init: Expr, c: Ctx, env: Env, n: nat, tape: seq<nat>)
    requires Paired(c, env) && |env| > 0 && Eval(n, init, env, tape).out == Next
    ensures var r := Eval(n, init, env, tape);
      Paired(WalkStmt(c, Let(x, Some(init))), BindCell(LetMoves(init, r), x, BorrowedHere(r.env, init), SourceFrom(r.value)))
  {
    hide Kept, Depth, Ctx.Bound, Paired, Walk, Steady, Eval, BindCell, Ctx.Bind, LetMoves, MoveSource, SourceOf;
    var r := Eval(n, init, env, tape);
    PairedOk(c, env);
    LetIs(c, x, init);
    var c1 := Walk(c, init);
    EvalSteady(n, init, env, tape);
    PairedSteady(c, env, r.env);
    PairedSame(c, c1, r.env);
    PairedBorrow(c1, r.env, init);
    LetSteady(init, r);
    PairedSteady(c1, r.env, LetMoves(init, r));
    PairedSame(c1, MoveSource(c1, init), LetMoves(init, r));
    PairedBind(MoveSource(c1, init), LetMoves(init, r), x, IsBorrow(c1, init), SourceOf(c1, init), SourceFrom(r.value));
  }

  lemma HarmFirstStmt(stmts: seq<Stmt>, c: Ctx, k: Clue)
    requires stmts != [] && c.Ok() && |c.scopes| > 0 && FloorOk(c, |c.scopes| - 1) && (k.round ==> StraightStmts(stmts))
    requires Grounded(c, k) && Harms(St(stmts[0]), c, k)
    ensures Harms(Sts(stmts), c, k)
  {
    hide Kept, Depth, Ctx.Bound, Paired, Lands, GoneAt, MarkedAt;
    forall env | Paired(c, env) && Met0(env, k.w) ensures Lands(Sts(stmts), env, Harm) {
      PairedOk(c, env);
      BadFirst(Sts(stmts), env, Harm);
    }
    if k.round {
      forall env | Paired(c, env) ensures Lands(Sts(stmts), env, k.w) {
        PairedOk(c, env);
        HarmFirstStmtAt(stmts, c, k, env);
      }
    }
  }

  lemma HarmFirstStmtAt(stmts: seq<Stmt>, c: Ctx, k: Clue, env: Env)
    requires stmts != [] && Paired(c, env) && |env| > 0 && FloorOk(c, |env| - 1) && StraightStmts(stmts)
    requires Grounded(c, k) && k.round && Lands(St(stmts[0]), env, k.w)
    ensures Lands(Sts(stmts), env, k.w)
  {
    hide Kept, Depth, Ctx.Bound, Paired, Possible, GoneAt, MarkedAt, WalkStmt;
    PairedOk(c, env);
    if |stmts| == 1 {
      StopsAfter(Sts(stmts), env, k.w);
    } else {
      var r0 :| Possible(St(stmts[0]), env, r0) && Met(r0.out, r0.env, k.w);
      if r0.out == Next {
        StmtPaired(stmts[0], c, env, r0);
        ReachStmts(stmts[1..], WalkStmt(c, stmts[0]), r0.env, Passed);
        PassedKeeps(Sts(stmts[1..]), r0.env, k.w);
      }
      Onwards(Sts(stmts), Sts(stmts[1..]), env, r0, k.w);
    }
  }

  lemma HarmLaterStmt(stmts: seq<Stmt>, c: Ctx, k: Clue)
    requires |stmts| > 1 && c.Ok() && |c.scopes| > 0 && FloorOk(c, |c.scopes| - 1) && StraightStmt(stmts[0])
    requires Grounded(WalkStmt(c, stmts[0]), k) && Harms(Sts(stmts[1..]), WalkStmt(c, stmts[0]), k)
    ensures Grounded(c, Back(c, k)) && Harms(Sts(stmts), c, Back(c, k))
  {
    hide Kept, Depth, Ctx.Bound, Paired, Lands, GoneAt, MarkedAt, WalkStmt, Harms;
    var b := Back(c, k);
    forall env | Paired(c, env) && Met0(env, b.w) ensures Lands(Sts(stmts), env, Harm) {
      HarmLaterStmtAt(stmts, c, k, env, Harm);
    }
    if k.round {
      forall env | Paired(c, env) ensures Lands(Sts(stmts), env, k.w) {
        HarmLaterStmtAt(stmts, c, k, env, k.w);
      }
    }
    assert Harms(Sts(stmts), c, b) by { HarmsBy(Sts(stmts), c, b); }
  }

  lemma HarmsBy(task: Task, c: Ctx, k: Clue)
    requires forall env :: Paired(c, env) && Met0(env, k.w) ==> Lands(task, env, Harm)
    requires k.round ==> forall env :: Paired(c, env) ==> Lands(task, env, k.w)
    ensures Harms(task, c, k)
  {
    hide Paired, Lands, Met0;
  }

  lemma HarmLaterStmtAt(stmts: seq<Stmt>, c: Ctx, k: Clue, env: Env, goal: Goal)
    requires |stmts| > 1 && Paired(c, env) && |c.scopes| > 0 && FloorOk(c, |c.scopes| - 1) && StraightStmt(stmts[0])
    requires Grounded(WalkStmt(c, stmts[0]), k) && Harms(Sts(stmts[1..]), WalkStmt(c, stmts[0]), k)
    requires (goal == Harm && Met0(env, Back(c, k).w)) || (k.round && goal == k.w)
    ensures Lands(Sts(stmts), env, goal)
  {
    hide Kept, Depth, Ctx.Bound, Paired, Possible, GoneAt, MarkedAt, WalkStmt, Steady;
    PairedOk(c, env);
    var r0 := ReachStmt(stmts[0], c, env, if k.round then Passed else k.w);
    if r0.out == Next {
      if k.round && goal == Harm {
        PossibleSteady(St(stmts[0]), env, r0);
        GoneStays(env, r0.env, |env| - 1, k.w.d, k.w.x);
      }
      assert Lands(Sts(stmts[1..]), r0.env, goal);
    }
    Onwards(Sts(stmts), Sts(stmts[1..]), env, r0, goal);
  }

  lemma {:induction false} HarmStmt(s: Stmt, c: Ctx, straight: bool) returns (k: Clue)
    requires c.Ok() && |c.scopes| > 0 && FloorOk(c, |c.scopes| - 1) && Final(s)
    requires (straight && StraightStmt(s)) || (!straight && (GentleStmt(s, None) || c.floors == []))
    requires |WalkStmt(c, s).diags| > |c.diags|
    ensures Grounded(c, k) && Harms(St(s), c, k) && (GentleStmt(s, None) ==> !k.round) && (!straight ==> !k.round)
    decreases s, 1
  {
    hide Kept, Depth, Ctx.Bound, Harms, Grounded, Walk, MoveSource, SourceOf, Returning;
    JumpSilent(c);
    match s
    case Let(x, Some(init)) =>
      LetIs(c, x, init);
      BindSilent(c, x, init);
      k := HarmExpr(init, c);
      RoundNeedsLoop(c, k);
      HarmLet(x, init, c, k);
    case Return(Some(value)) =>
      ReturningMarks(Walk(c, value), value, None);
      k := HarmExpr(value, c);
      RoundNeedsLoop(c, k);
      HarmReturn(value, c, k);
    case Do(e) =>
      k := HarmExpr(e, c);
      RoundNeedsLoop(c, k);
      HarmDo(e, c, k);
    case _ =>
  }

  lemma JumpSilent(c: Ctx)
    requires c.Ok()
    ensures Walk(c, Jump).diags == c.diags
  {
  }

  lemma BindSilent(c: Ctx, x: Ident, init: Expr)
    requires c.Ok() && |c.scopes| > 0
    ensures WalkStmt(c, Let(x, Some(init))).diags == Walk(c, init).diags
  {
    hide Depth, Walk, Yields, Doubts, Ctx.HasParts, SourceOf;
    LetIs(c, x, init);
  }

  lemma HarmDo(e: Expr, c: Ctx, k: Clue)
    requires c.Ok() && |c.scopes| > 0 && Harms(Ex(e), c, k)
    ensures Harms(St(Do(e)), c, k)
  {
    hide Kept, Depth, Ctx.Bound, Harms, Paired;
    forall env | Paired(c, env) ensures |env| > 0 {
      PairedOk(c, env);
    }
    HarmInside(St(Do(e)), c, k);
  }

  lemma HarmReturn(value: Expr, c: Ctx, k: Clue)
    requires c.Ok() && |c.scopes| > 0 && Harms(Ex(value), c, k) && !k.round
    ensures Harms(St(Return(Some(value))), c, k)
  {
    hide Kept, Depth, Ctx.Bound, Paired, Lands, Met0;
    forall env | Paired(c, env) && Met0(env, k.w) ensures Lands(St(Return(Some(value))), env, Harm) {
      PairedOk(c, env);
      BadFirst(St(Return(Some(value))), env, Harm);
    }
  }

  lemma HarmLet(x: Ident, init: Expr, c: Ctx, k: Clue)
    requires c.Ok() && |c.scopes| > 0 && FloorOk(c, |c.scopes| - 1) && Grounded(c, k) && Harms(Ex(init), c, k)
    ensures Harms(St(Let(x, Some(init))), c, k)
  {
    hide Kept, Depth, Ctx.Bound, Paired, Lands, GoneAt, MarkedAt;
    var s := Let(x, Some(init));
    forall env | Paired(c, env) && Met0(env, k.w) ensures Lands(St(s), env, Harm) {
      PairedOk(c, env);
      BadFirst(St(s), env, Harm);
    }
    if k.round {
      forall env | Paired(c, env) ensures Lands(St(s), env, k.w) {
        HarmLetAt(x, init, c, k, env);
      }
    }
  }

  lemma HarmLetAt(x: Ident, init: Expr, c: Ctx, k: Clue, env: Env)
    requires Paired(c, env) && |c.scopes| > 0 && FloorOk(c, |c.scopes| - 1) && Grounded(c, k) && k.round && Lands(Ex(init), env, k.w)
    ensures Lands(St(Let(x, Some(init))), env, k.w)
  {
    hide Kept, Depth, Ctx.Bound, Paired, Possible, GoneAt, MarkedAt, Steady, LetMoves, BindCell;
    PairedOk(c, env);
    var s := Let(x, Some(init));
    var r0 :| Possible(Ex(init), env, r0) && Met(r0.out, r0.env, k.w);
    if r0.out == Bad {
      SpoilLands(Ex(init), env, r0);
      BadFirst(St(s), env, k.w);
    } else {
      ExprSteady(c, init, env, r0);
      LetRuns(x, init, env, r0);
      LetSteady(init, r0);
      var moved := LetMoves(init, r0);
      GoneStays(r0.env, moved, |r0.env|, k.w.d, k.w.x);
      BindKeepsGone(moved, x, BorrowedHere(r0.env, init), SourceFrom(r0.value), k.w.d, k.w.x);
      var r := Run(Next, BindCell(moved, x, BorrowedHere(r0.env, init), SourceFrom(r0.value)), [], New);
      assert Met(r.out, r.env, k.w);
    }
  }

  // ----- reports in loops -----

  predicate Looping(e: Expr) { e.Loop? && (e.head.Infinite? || StraightHead(e.head)) && StraightStmts(e.body) }

  lemma {:induction false} HarmLoop(e: Expr, c: Ctx) returns (k: Clue)
    requires e.Loop? && c.Ok() && FloorOk(c, |c.scopes|) && (Straight(e) || Endless(e)) && |Walk(c, e).diags| > |c.diags|
    ensures Grounded(c, k) && Harms(Ex(e), c, k) && (Gentle(e, None) ==> !k.round)
    decreases e, 4
  {
    hide Kept, Depth, Ctx.Bound, Harms, Grounded, Completes, WalkLoop, WalkBlock, Back;
    var c1 := WalkLoop(c, e);
    EmptySilent(c1);
    if |c1.diags| > |c.diags| {
      k := HarmEnter(e, c);
      HarmFirst(Ex(e), Blk(e.after), c, k);
    } else if Straight(e) {
      StraightUpToLast(e.after);
      var k1 := HarmBlock(e.after, c1);
      LoopReached(e, c, k1);
      HarmSecond(Ex(e), Blk(e.after), c, c1, k1);
      k := Back(c, k1);
      BackGentle(c, k1);
    }
  }

  lemma EmptySilent(c: Ctx)
    requires c.Ok()
    ensures WalkBlock(c, []).diags == c.diags
  {
    hide Depth;
  }

  lemma LoopReached(e: Expr, c: Ctx, k: Clue)
    requires e.Loop? && c.Ok() && Straight(e) && Grounded(WalkLoop(c, e), k)
    ensures forall env :: Paired(c, env) && (k.round || Met0(env, Back(c, k).w)) ==>
      Lands(Enter(e), env, if k.round then Passed else k.w)
  {
    hide Lands, Paired, GoneAt, WalkLoop, MarkedAt, Ctx.BelowFloor;
    forall env | Paired(c, env) && (k.round || Met0(env, Back(c, k).w))
      ensures Lands(Enter(e), env, if k.round then Passed else k.w)
    {
      ReachEnter(e, c, env, if k.round then Passed else k.w);
    }
  }

  /** What a report within a loop needs before the loop: nothing, when it is about its rounds. */
  function Outwards(c: Ctx, k: Clue): Clue { if k.round then Clue(Passed, false) else Back(c, k) }

  lemma {:induction false} HarmEnter(e: Expr, c: Ctx) returns (k: Clue)
    requires Looping(e) && c.Ok() && FloorOk(c, |c.scopes|) && |WalkLoop(c, e).diags| > |c.diags|
    ensures Grounded(c, k) && Harms(Enter(e), c, k) && !k.round
    decreases e, 3
  {
    hide Kept, Depth, Ctx.Bound, Harms, Grounded, WalkLoop, WalkBlock, WalkHead, Walk, WalkAll, Floored, Sourced, Outwards;
    FlooredIs(c);
    LoopMarks(c, e, None);
    var c1 := Floored(c);
    var cs := Sourced(c1, e.head);
    var ch := WalkHead(c1, e.head);
    HeadSilent(c1, e.head);
    if |cs.diags| > |c1.diags| {
      k := HarmAll(SourcesOf(e.head), c1);
      HarmSources(e, c, k);
    } else if |ch.diags| > |cs.diags| {
      var k1 := HarmExpr(e.head.cond, c1);
      HarmCond(e, c, k1);
      OutwardsOnce(c, k1);
      k := Outwards(c, k1);
    } else {
      StraightUpToLast(e.body);
      var k1 := HarmBlock(e.body, ch);
      HarmRounds(e, c, k1);
      OutwardsOnce(c, k1);
      k := Outwards(c, k1);
    }
  }

  function SourcesOf(head: Head): seq<Expr> { if head.Iter? then head.sources else [] }

  lemma OutwardsOnce(c: Ctx, k: Clue)
    ensures !Outwards(c, k).round
  {
  }

  lemma FlooredIs(c: Ctx)
    requires c.Ok()
    ensures Floored(c).Ok() && |Floored(c).scopes| == |c.scopes| + 1 && FloorOk(Floored(c), |c.scopes|)
    ensures Floored(c).diags == c.diags && Floored(c).floors != []
    ensures Floored(c).floors[|Floored(c).floors| - 1] == |c.scopes|
    ensures forall d: nat, x :: MarkedAt(Floored(c), d, x) ==> d < |c.scopes| && MarkedAt(c, d, x)
  {
    FlooredOk(c);
  }

  lemma HeadSilent(c: Ctx, head: Head)
    requires c.Ok() && |c.scopes| > 0
    ensures |WalkHead(c, head).diags| > |Sourced(c, head).diags| ==> head.While? && WalkHead(c, head) == Walk(c, head.cond)
    ensures |WalkHead(c, head).diags| > |Sourced(c, head).diags| ==> Sourced(c, head) == c
    ensures |Sourced(c, head).diags| > |c.diags| ==> head.Iter? && Sourced(c, head) == WalkAll(c, head.sources)
  {
    hide Kept, Depth, Walk, WalkAll;
    if head.Iter? {
      BindEachMarks(WalkAll(c, head.sources), head.binds, None);
    }
  }

  /** No mark of a loop's own scope is there when its body begins. */
  lemma HeadMarks(c: Ctx, head: Head, d: nat, x: Ident)
    requires c.Ok() && Floored(c).Ok() && |Floored(c).scopes| == |c.scopes| + 1 && MarkedAt(WalkHead(Floored(c), head), d, x)
    ensures d < |c.scopes|
  {
    hide Kept, Depth, Walk, WalkAll, MarkedAt;
    var c1 := Floored(c);
    match head
    case Infinite => EmptyScope(c, c1, d, x);
    case While(cond) => EmptyScope(c, Walk(c1, cond), d, x);
    case Iter(binds, sources, _) =>
      BindEachMarks(WalkAll(c1, sources), binds, None);
      InScopes(WalkHead(c1, head), d, x);
      EmptyScope(c, WalkAll(c1, sources), d, x);
  }

  lemma InScopes(c: Ctx, d: nat, x: Ident)
    requires c.Ok()
    ensures MarkedAt(c, d, x) ==> d < |c.scopes|
  {
  }

  lemma EmptyScope(c: Ctx, c': Ctx, d: nat, x: Ident)
    requires c.Ok() && c'.Ok() && c'.scopes == Floored(c).scopes && MarkedAt(c', d, x)
    ensures d < |c.scopes|
  {
  }

  lemma {:induction false} HarmSources(e: Expr, c: Ctx, k: Clue)
    requires Looping(e) && e.head.Iter? && c.Ok() && Floored(c).Ok() && !k.round
    requires Grounded(Floored(c), k) && Harms(All(e.head.sources), Floored(c), k)
    ensures Grounded(c, k) && Harms(Enter(e), c, k)
    decreases e, 0
  {
    hide Kept, Depth, Ctx.Bound, Paired, Lands, GoneAt, MarkedAt, Floored;
    FlooredIs(c);
    forall env | Paired(c, env) && Met0(env, k.w) ensures Lands(Enter(e), env, Harm) {
      HarmSourcesAt(e, c, k, env);
    }
  }

  lemma HarmSourcesAt(e: Expr, c: Ctx, k: Clue, env: Env)
    requires Looping(e) && e.head.Iter? && Paired(c, env) && Floored(c).Ok() && !k.round && Met0(env, k.w)
    requires Grounded(c, k) && Harms(All(e.head.sources), Floored(c), k)
    ensures Lands(Enter(e), env, Harm)
  {
    hide Kept, Depth, Ctx.Bound, Paired, Possible, GoneAt, MarkedAt, Floored;
    PairedOk(c, env);
    FlooredPaired(c, env);
    InnerMet(env, k.w);
    var inner := env + [map[]];
    assert Lands(All(e.head.sources), inner, Harm);
    var r0 :| Possible(All(e.head.sources), inner, r0) && Met(r0.out, r0.env, Harm);
    PossibleLength(All(e.head.sources), inner, r0);
    SourcesRun(e, env, r0, Harm);
  }

  /** A report of the condition, that is evaluated in every round. */
  lemma HarmCond(e: Expr, c: Ctx, k: Clue)
    requires Looping(e) && e.head.While? && c.Ok() && Floored(c).Ok()
    requires Grounded(Floored(c), k) && Harms(Ex(e.head.cond), Floored(c), k)
    ensures Grounded(c, Outwards(c, k)) && Harms(Enter(e), c, Outwards(c, k))
  {
    hide Kept, Depth, Ctx.Bound, Paired, Lands, GoneAt, MarkedAt, Floored, Harms;
    FlooredIs(c);
    var o := Outwards(c, k);
    forall env | Paired(c, env) && Met0(env, o.w) ensures Lands(Enter(e), env, Harm) {
      PairedOk(c, env);
      if k.round {
        CondTwice(e, c, k, env);
      } else {
        CondOnce(e, c, k, env);
      }
      BadFirst(Enter(e), env, Harm);
    }
    HarmsBy(Enter(e), c, o);
  }

  lemma CondOnce(e: Expr, c: Ctx, k: Clue, env: Env)
    requires Looping(e) && e.head.While? && Paired(c, env) && Floored(c).Ok() && Outlives(k.w, |env|) && Met0(env, k.w)
    requires Harms(Ex(e.head.cond), Floored(c), k)
    ensures Lands(Rounds(e), env, Harm)
  {
    hide Kept, Depth, Ctx.Bound, Paired, Possible, GoneAt, MarkedAt, Floored;
    PairedOk(c, env);
    FlooredPaired(c, env);
    InnerMet(env, k.w);
    var inner := env + [map[]];
    assert Lands(Ex(e.head.cond), inner, Harm);
    BadFirst(Front(e.head), inner, Harm);
    var h :| Possible(Front(e.head), inner, h) && Met(h.out, h.env, Harm);
    PossibleLength(Front(e.head), inner, h);
    RoundsEnd(e, env, h, Harm);
  }

  /** The condition takes the value in the first round and misses it in the second. */
  lemma CondTwice(e: Expr, c: Ctx, k: Clue, env: Env)
    requires Looping(e) && e.head.While? && Paired(c, env) && Floored(c).Ok() && k.round && k.w.Moved? && Outlives(k.w, |env|)
    requires Harms(Ex(e.head.cond), Floored(c), k)
    ensures Lands(Rounds(e), env, Harm)
  {
    hide Kept, Depth, Ctx.Bound, Paired, Possible, GoneAt, MarkedAt, Floored, Steady, WalkHead;
    PairedOk(c, env);
    FlooredPaired(c, env);
    var inner := env + [map[]];
    assert Lands(Ex(e.head.cond), inner, k.w);
    StopsAfter(Front(e.head), inner, k.w);
    var h :| Possible(Front(e.head), inner, h) && Met(h.out, h.env, k.w);
    PossibleSteady(Front(e.head), inner, h);
    if h.out == Bad {
      RoundsEnd(e, env, h, Harm);
    } else {
      CondSteady(e.head.cond, Floored(c), inner, h);
      RoundThen(e, c, k, env, h);
    }
  }

  /** After a round in which the value has gone, the condition goes bad. */
  lemma RoundThen(e: Expr, c: Ctx, k: Clue, env: Env, h: Run)
    requires Looping(e) && e.head.While? && Paired(c, env) && Floored(c).Ok() && |Floored(c).scopes| > 0
    requires k.round && k.w.Moved? && Outlives(k.w, |env|) && Harms(Ex(e.head.cond), Floored(c), k)
    requires Possible(Front(e.head), env + [map[]], h) && h.out == Next && Met0(h.env, k.w) && |h.env| == |env| + 1
    requires Paired(WalkHead(Floored(c), e.head), h.env)
    ensures Lands(Rounds(e), env, Harm)
  {
    hide Kept, Depth, Ctx.Bound, Paired, Possible, GoneAt, MarkedAt, Floored, Steady, WalkHead, WalkBlock, Harms;
    var ch := WalkHead(Floored(c), e.head);
    PairedOk(ch, h.env);
    ReachBlock(e.body, ch, h.env, Passed);
    var b :| Possible(Blk(e.body), h.env, b) && Met(b.out, b.env, Passed);
    if b.out == Bad {
      RoundGoesOn(e, env, h, b, b, Harm);
    } else {
      LevelSteady(Blk(e.body), ch, h.env, b);
      GoneStays(h.env, b.env, |h.env|, k.w.d, k.w.x);
      var s := NextRound(e, c, ch, env, h, b, k.w);
      if s.out == Next {
        CondOnce(e, c, k, s.env[..|env|]);
      }
      RoundGoesOn(e, env, h, b, s, Harm);
    }
  }

  /** A report of the body. */
  lemma HarmRounds(e: Expr, c: Ctx, k: Clue)
    requires Looping(e) && c.Ok() && Floored(c).Ok() && |Floored(c).scopes| > 0
    requires Grounded(WalkHead(Floored(c), e.head), k) && Harms(Blk(e.body), WalkHead(Floored(c), e.head), k)
    ensures Grounded(c, Outwards(c, k)) && Harms(Enter(e), c, Outwards(c, k))
  {
    hide Kept, Depth, Ctx.Bound, Paired, Lands, GoneAt, MarkedAt, Floored, Harms, WalkHead;
    FlooredIs(c);
    ClueOutlives(c, e.head, k);
    var o := Outwards(c, k);
    forall env | Paired(c, env) && Met0(env, o.w) ensures Lands(Enter(e), env, Harm) {
      PairedOk(c, env);
      HarmRoundsAt(e, c, k, env);
    }
    HarmsBy(Enter(e), c, o);
  }

  lemma ClueOutlives(c: Ctx, head: Head, k: Clue)
    requires c.Ok() && Floored(c).Ok() && |Floored(c).scopes| == |c.scopes| + 1 && Grounded(WalkHead(Floored(c), head), k)
    ensures Outlives(k.w, |c.scopes|)
  {
    hide Kept, Depth, MarkedAt, WalkHead;
    FlooredIs(c);
    if k.w.Moved? && !k.round {
      HeadMarks(c, head, k.w.d, k.w.x);
    }
  }

  lemma HarmRoundsAt(e: Expr, c: Ctx, k: Clue, env: Env)
    requires Looping(e) && Paired(c, env) && Floored(c).Ok() && |Floored(c).scopes| > 0
    requires Grounded(WalkHead(Floored(c), e.head), k) && Harms(Blk(e.body), WalkHead(Floored(c), e.head), k)
    requires Outlives(k.w, |env|) && Met0(env, Outwards(c, k).w)
    ensures Lands(Enter(e), env, Harm)
  {
    hide Kept, Depth, Ctx.Bound, Paired, Possible, GoneAt, MarkedAt, Floored, Harms, WalkHead, WalkAll, Steady, Grounded;
    PairedOk(c, env);
    FlooredPaired(c, env);
    var c1 := Floored(c);
    GroundedNot(c1, e.head, k);
    if e.head.Iter? {
      var cs := WalkAll(c1, e.head.sources);
      var inner := env + [map[]];
      var first := if k.round then Passed else Early(cs, k.w);
      InnerMet(env, k.w);
      OutwardsMet(c, k);
      ReachAll(e.head.sources, c1, inner, first);
      var r0 :| Possible(All(e.head.sources), inner, r0) && Met(r0.out, r0.env, first);
      PossibleSteady(All(e.head.sources), inner, r0);
      if r0.out == Next {
        SteadyFewer(inner, r0.env, |env|, |env| + 1);
        BackOutside(c, env, r0.env, k.w);
        RoundsHarm(e, c, k, r0.env[..|env|]);
      }
      SourcesRun(e, env, r0, Harm);
    } else {
      OutwardsMet(c, k);
      RoundsHarm(e, c, k, env);
      BadFirst(Enter(e), env, Harm);
    }
  }

  lemma GroundedNot(c: Ctx, head: Head, k: Clue)
    requires c.Ok() && |c.scopes| > 0 && Grounded(WalkHead(c, head), k)
    ensures k.w != Harm && (k.round ==> k.w.Moved?) && (!k.round ==> Marked(WalkHead(c, head), k.w))
  {
    hide WalkHead, MarkedAt;
  }

  lemma OutwardsMet(c: Ctx, k: Clue)
    ensures !k.round && Marked(c, k.w) ==> Outwards(c, k).w == k.w
  {
    hide MarkedAt;
  }

  lemma RoundsHarm(e: Expr, c: Ctx, k: Clue, env: Env)
    requires Looping(e) && Paired(c, env) && Floored(c).Ok() && |Floored(c).scopes| > 0 && Outlives(k.w, |env|)
    requires Grounded(WalkHead(Floored(c), e.head), k) && Harms(Blk(e.body), WalkHead(Floored(c), e.head), k)
    requires !k.round && Marked(Sourced(Floored(c), e.head), k.w) ==> Met0(env, k.w)
    ensures Lands(Rounds(e), env, Harm)
  {
    hide Kept, Depth, Ctx.Bound, Paired, Possible, GoneAt, MarkedAt, Floored, Harms, WalkHead, Steady, Grounded, Sourced;
    GroundedNot(Floored(c), e.head, k);
    if k.round {
      BodyTwice(e, c, k, env);
    } else {
      BodyOnce(e, c, k, env, k.w);
    }
  }

  lemma BodyOnce(e: Expr, c: Ctx, k: Clue, env: Env, goal: Goal)
    requires Looping(e) && Paired(c, env) && Floored(c).Ok() && |Floored(c).scopes| > 0 && Outlives(k.w, |env|) && k.w != Harm
    requires Harms(Blk(e.body), WalkHead(Floored(c), e.head), k)
    requires if goal == Passed then Met0(env, k.w) else goal == k.w && Marked(WalkHead(Floored(c), e.head), goal)
    requires goal == k.w && Marked(Sourced(Floored(c), e.head), goal) ==> Met0(env, goal)
    ensures Lands(Rounds(e), env, Harm)
  {
    hide Kept, Depth, Ctx.Bound, Paired, Possible, GoneAt, MarkedAt, Floored, WalkHead, Steady, Sourced;
    PairedOk(c, env);
    var h := ReachFront(e, c, env, goal);
    PossibleSteady(Front(e.head), env + [map[]], h);
    if h.out == Bad {
      RoundsEnd(e, env, h, Harm);
    } else {
      BackOutside(c, env, h.env, k.w);
      assert Lands(Blk(e.body), h.env, Harm);
      var b :| Possible(Blk(e.body), h.env, b) && Met(b.out, b.env, Harm);
      RoundGoesOn(e, env, h, b, b, Harm);
    }
  }

  /** The body takes the value in the first round and misses it in the second. */
  lemma BodyTwice(e: Expr, c: Ctx, k: Clue, env: Env)
    requires Looping(e) && Paired(c, env) && Floored(c).Ok() && |Floored(c).scopes| > 0 && k.round && k.w.Moved? && Outlives(k.w, |env|)
    requires Harms(Blk(e.body), WalkHead(Floored(c), e.head), k)
    ensures Lands(Rounds(e), env, Harm)
  {
    hide Kept, Depth, Ctx.Bound, Paired, Possible, GoneAt, MarkedAt, Floored, WalkHead, Steady, Sourced;
    PairedOk(c, env);
    var ch := WalkHead(Floored(c), e.head);
    var h := ReachFront(e, c, env, Passed);
    if h.out == Bad {
      RoundsEnd(e, env, h, Harm);
    } else {
      assert Lands(Blk(e.body), h.env, k.w);
      var b :| Possible(Blk(e.body), h.env, b) && Met(b.out, b.env, k.w);
      if b.out == Bad {
        RoundGoesOn(e, env, h, b, b, Harm);
      } else {
        var s := NextRound(e, c, ch, env, h, b, k.w);
        if s.out == Next {
          BodyOnce(e, c, k, s.env[..|env|], Passed);
        }
        RoundGoesOn(e, env, h, b, s, Harm);
      }
    }
  }

  // ----- the theorem -----

  /** Clauses and body come to their ends, but for branches that leave and give nothing away. */
  predicate Straightforward(f: Function) { StraightAll(f.demands) && UpToLast(f.body) }

  lemma {:induction false} EntryIs(c: Ctx, env: Env, xs: seq<(Ident, bool)>)
    requires c.Ok() && |c.scopes| > 0 && Paired(c, env)
    ensures BindEach(c, xs).floors == c.floors && BindEach(c, xs).diags == c.diags
    ensures NoneNew(c, BindEach(c, xs), |c.scopes|, None) && Paired(BindEach(c, xs), BindPairs(env, xs))
  {
    BindEachMarks(c, xs, None);
    PairedBindEach(c, env, xs);
  }

  lemma Unmarked(d: nat, x: Ident)
    ensures !MarkedAt(NOTHING.Push(), d, x)
  {
  }

  lemma EntryFacts(f: Function)
    ensures Entry(f).diags == [] && Entry(f).floors == [] && Paired(Entry(f), BindPairs([map[]], f.params))
    ensures forall d: nat, x :: !MarkedAt(Entry(f), d, x)
  {
    hide Kept, Depth, BindEach, BindPairs;
    var c := NOTHING.Push();
    assert c.Ok() && |c.scopes| == 1 && Paired(c, [map[]]);
    EntryIs(c, [map[]], f.params);
    forall d: nat, x
      ensures !MarkedAt(Entry(f), d, x)
    {
      InScopes(Entry(f), d, x);
      Unmarked(d, x);
    }
  }

  /** Reports are right: in a straightforward function the first thing that the checker reports
      has a run in which a binding is used after its value was moved away, or a part of what a
      binding still owns is given away. */
  lemma ReportsAreReal(f: Function) returns (fuel: nat, tape: seq<nat>)
    requires Straightforward(f) && Check(f).diags != []
    ensures RunOf(f, fuel, tape).out == Bad
  {
    hide Kept, Depth, Ctx.Bound, Paired, Possible, WalkBlock, MarkedAt, Entry, EvalAll, EvalBlock, BindPairs;
    EntryFacts(f);
    var c0, env := Entry(f), BindPairs([map[]], f.params);
    BodyReports(f);
    var k := HarmBlock(f.body, c0);
    ReachAll(f.demands, c0, env, Passed);
    var q :| Possible(All(f.demands), env, q) && Met(q.out, q.env, Passed);
    if q.out == Bad {
      fuel, tape := DemandsGoBad(f, env, q);
    } else {
      LevelSteady(All(f.demands), c0, env, q);
      assert Lands(Blk(f.body), q.env, Harm);
      var b :| Possible(Blk(f.body), q.env, b) && Met(b.out, b.env, Harm);
      fuel, tape := BodyGoesBad(f, env, q, b);
    }
  }

  lemma BodyReports(f: Function)
    ensures Check(f).diags == WalkBlock(Entry(f), f.body).diags
  {
    hide Doubted, WalkBlock, Entry;
  }

  /** In any function whatever, a report is about a name of which the body gives something away. */
  lemma ReportsNameGiven(f: Function, who: Option<Ident>)
    requires GentleStmts(f.body, who)
    ensures forall r :: r in Check(f).diags ==> !Blames(r, who)
  {
    hide Kept, Depth, Ctx.Bound, WalkBlock, MarkedAt, Entry, Blames;
    EntryFacts(f);
    BodyReports(f);
    GentleBlock(Entry(f), f.body, who);
    assert Clear(Entry(f), who);
  }

  /** Where nothing is given away, nothing is reported. */
  lemma GentleIsAccepted(f: Function)
    requires GentleStmts(f.body, None)
    ensures Check(f).diags == []
  {
    hide GentleStmts, Check;
    ReportsNameGiven(f, None);
    var rs := Check(f).diags;
    forall r: Diag ensures Blames(r, None) {
    }
    HasFirst(rs);
  }

  lemma HasFirst(rs: seq<Diag>)
    ensures rs != [] ==> exists r :: r in rs
  {
    if rs != [] {
      assert rs[0] in rs;
    }
  }

  lemma DemandsGoBad(f: Function, env: Env, q: Run) returns (fuel: nat, tape: seq<nat>)
    requires env == BindPairs([map[]], f.params) && Possible(All(f.demands), env, q) && q.out == Bad
    ensures RunOf(f, fuel, tape).out == Bad
  {
    hide EvalAll, EvalBlock, BindPairs;
    fuel :| Can(fuel, All(f.demands), env, q);
    assert Leads(fuel, All(f.demands), env, q.(tape := []));
    tape :| Exec(fuel, All(f.demands), env, tape) == q.(tape := []);
  }

  lemma BodyGoesBad(f: Function, env: Env, q: Run, b: Run) returns (fuel: nat, tape: seq<nat>)
    requires env == BindPairs([map[]], f.params) && Possible(All(f.demands), env, q) && q.out == Next
    requires Possible(Blk(f.body), q.env, b) && b.out == Bad
    ensures RunOf(f, fuel, tape).out == Bad
  {
    hide EvalAll, EvalBlock, BindPairs;
    var n: nat :| Can(n, All(f.demands), env, q);
    var m: nat :| Can(m, Blk(f.body), q.env, b);
    fuel := n + m;
    assert Leads(fuel, Blk(f.body), q.env, b.(tape := []));
    var mid :| Exec(fuel, Blk(f.body), q.env, mid) == b.(tape := []);
    assert Leads(fuel, All(f.demands), env, q.(tape := mid));
    tape :| Exec(fuel, All(f.demands), env, tape) == q.(tape := mid);
  }

  /** The checker decides whether a straightforward function can go bad, where it meets none of
      the shapes that it accepts wrongly. */
  lemma CheckIsExact(f: Function)
    requires Straightforward(f) && Check(f).hazards == []
    ensures Check(f).diags == [] <==> forall fuel: nat, tape: seq<nat> :: RunOf(f, fuel, tape).out != Bad
  {
    hide Straightforward, Check, RunOf;
    if Check(f).diags != [] {
      var fuel, tape := ReportsAreReal(f);
      assert RunOf(f, fuel, tape).out == Bad;
    } else {
      forall fuel: nat, tape: seq<nat> ensures RunOf(f, fuel, tape).out != Bad {
        AcceptedNeverBad(f, fuel, tape);
      }
    }
  }
}
