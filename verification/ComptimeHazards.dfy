/** Code on which the flag interpreter and the structured semantics part: one program for
    each condition that tidy programs meet. */
module ComptimeHazards {
  import opened Wrappers
  import opened ComptimeValues
  import opened Comptime
  import opened ComptimeMeaning
  import opened ComptimeRefinement

  /** The state in which the body of a function called at the top runs. */
  function Entered(fuel: nat): State { State([[], []], fuel, 1, None, None, {}) }

  /** A parameterless function called at the top yields what its body leaves behind. */
  lemma TopCall(p: Program, f: Ident)
    requires f in p.fns && p.fns[f].params == [] && !p.fns[f].erased
    ensures var (v, s) := EvalStmts(p, p.fns[f].body, Unit, Entered(FUEL - 1));
      EvalTop(p, Call(f, [])) == if v.Ok? && s.returning.Some? then Ok(s.returning.value) else v
    ensures Meaning(p, Call(f, [])) ==
      match OfFrame(ExecStmts(p, p.fns[f].body, [[], []], FUEL - 1, Frame(1, {})).sig)
      case Normal(v) => Ok(v)
      case Failed(e) => Err(e)
      case _ => Err(NotConstant)
  {
    hide EvalStmts, ExecStmts, EvalName, EvalRepeat, EvalBoth, EvalLogic, EvalAssign, EvalIf, EvalFor;
    hide ExecName, ExecRepeat, ExecBoth, ExecLogic, ExecAssign, ExecIf, ExecFor;
    var s := Fresh([[]]).Spent();
    var callee := s.(env := [[]], depth := 1);
    assert Bound([], []) == [];
    assert callee.Push().env == [[], []];
    assert callee.Push() == Entered(FUEL - 1);
    assert EvalAll(p, [], s) == (Ok([]), s);
    assert ExecAll(p, [], [[]], FUEL - 1, Frame(0, {})) == Run(Normal([]), [[]], FUEL - 1);
  }

  // ----- a `return` out of a loop that has an `else` -----

  function ReturnsFromLoop(): Program {
    Program(map[], map["f" := Fn([], false, [Do(LoopWithElse())])])
  }

  lemma ReturnStep(p: Program, n: int, s: State)
    requires s.fuel >= 1 && Quiet(s) && |s.env| > 0 && MIN <= n <= MAX
    ensures EvalStmts(p, [Return(Some(Num(n)))], Unit, s) == (Ok(Int(n)), s.Spent().(returning := Some(Int(n))))
    ensures ExecStmts(p, [Return(Some(Num(n)))], s.env, s.fuel, FrameOf(s)) == Run(Returned(Int(n)), s.env, s.fuel - 1)
  {
    assert Eval(p, Num(n), s) == (Ok(Int(n)), s.Spent());
    assert ExecStmt(p, Return(Some(Num(n))), s.env, s.fuel, FrameOf(s)) == Run(Returned(Int(n)), s.env, s.fuel - 1);
  }

  lemma BlockReturns(p: Program, n: int, s: State)
    requires s.fuel >= 1 && Quiet(s) && |s.env| > 0 && MIN <= n <= MAX
    ensures EvalBlock(p, [Return(Some(Num(n)))], s) == (Ok(Int(n)), s.Spent().(returning := Some(Int(n))))
    ensures ExecBlock(p, [Return(Some(Num(n)))], s.env, s.fuel, FrameOf(s)) == Run(Returned(Int(n)), s.env, s.fuel - 1)
  {
    hide EvalStmts, ExecStmts;
    ReturnStep(p, n, s.Push());
    assert (s.env + [[]])[..|s.env|] == s.env;
  }

  /** A loop whose body returns at once reports that it ran out. */
  lemma LoopReturns(p: Program, n: int, s: State)
    requires s.fuel >= 2 && Quiet(s) && |s.env| > 0 && MIN <= n <= MAX
    ensures LoopForever(p, None, [Return(Some(Num(n)))], s)
      == (Ok(false), s.(fuel := s.fuel - 2, returning := Some(Int(n))))
    ensures ExecForever(p, None, [Return(Some(Num(n)))], s.env, s.fuel, FrameOf(s)).sig == Returned(Int(n))
  {
    hide EvalBlock, ExecBlock;
    BlockReturns(p, n, s.Spent());
  }

  /** After a `return` from a loop the interpreter still runs the `else`, up to its first
      statement: here that turns the result into an error. */
  lemma ElseRunsAfterReturn()
    ensures EvalTop(ReturnsFromLoop(), Call("f", [])) == Err(NotConstant)
    ensures Meaning(ReturnsFromLoop(), Call("f", [])) == Ok(Int(1))
  {
    hide EvalTop, Meaning, Eval, Exec, EvalStmts, ExecStmts;
    var p := ReturnsFromLoop();
    TopCall(p, "f");
    LoopThenElse(p, Entered(FUEL - 1));
    OneStatement(p, LoopWithElse(), Entered(FUEL - 1));
  }

  function LoopWithElse(): Expr { For(None, Infinite, [Return(Some(Num(1)))], Else([Do(Other)])) }

  lemma LoopThenElse(p: Program, s: State)
    requires s.fuel >= 4 && Quiet(s) && |s.env| > 0
    ensures Eval(p, LoopWithElse(), s).0 == Err(NotConstant)
    ensures Exec(p, LoopWithElse(), s.env, s.fuel, FrameOf(s)).sig == Returned(Int(1))
  {
    hide LoopForever, ExecForever, EvalBlock;
    var t := s.Spent();
    LoopReturns(p, 1, t);
    ElseFails(p, t.(fuel := t.fuel - 2, returning := Some(Int(1))));
    var loop := LoopWithElse();
    assert EvalFor(p, None, Infinite, loop.body, loop.after, t).0 == Err(NotConstant);
    assert ExecFor(p, None, Infinite, loop.body, loop.after, t.env, t.fuel, FrameOf(t)).sig == Returned(Int(1));
  }

  lemma ElseFails(p: Program, s: State)
    requires s.fuel >= 1 && |s.env| > 0
    ensures EvalBlock(p, [Do(Other)], s).0 == Err(NotConstant)
  {
    assert Eval(p, Other, s.Push()).0 == Err(NotConstant);
  }

  /** A body of one expression fails with it, and returns with it. */
  lemma OneStatement(p: Program, e: Expr, s: State)
    requires |s.env| > 0
    ensures Eval(p, e, s).0.Err? ==> EvalStmts(p, [Do(e)], Unit, s).0 == Eval(p, e, s).0
    ensures var sig := Exec(p, e, s.env, s.fuel, FrameOf(s)).sig;
            sig.Returned? ==> ExecStmts(p, [Do(e)], s.env, s.fuel, FrameOf(s)).sig == sig
  {
    hide Eval, Exec;
  }

  // ----- a `return` in a constant's initialiser -----

  function ReturnsFromConstant(): Program {
    Program(map["A" := Block([Return(Some(Num(1)))])], map["f" := Fn([], false, [Do(Name("A")), Return(Some(Num(2)))])])
  }

  lemma InitialiserReturns(c: State)
    requires c == State([[]], FUEL - 2, 1, None, None, {"A"})
    ensures Eval(ReturnsFromConstant(), ReturnsFromConstant().consts["A"], c)
      == (Ok(Int(1)), c.(fuel := FUEL - 4, returning := Some(Int(1))))
    ensures Exec(ReturnsFromConstant(), ReturnsFromConstant().consts["A"], c.env, c.fuel, FrameOf(c))
      == Run(Returned(Int(1)), [[]], FUEL - 4)
  {
    hide EvalBlock, ExecBlock;
    BlockReturns(ReturnsFromConstant(), 1, c.Spent());
  }

  lemma ReadsConstant(s: State)
    requires s == Entered(FUEL - 2)
    ensures EvalName(ReturnsFromConstant(), "A", s) == (Ok(Int(1)), s.(fuel := s.fuel - 2, returning := Some(Int(1))))
    ensures ExecName(ReturnsFromConstant(), "A", s.env, s.fuel, FrameOf(s)) == Run(Normal(Int(1)), s.env, s.fuel - 2)
  {
    hide Eval, Exec;
    InitialiserReturns(s.(env := [[]], inProgress := {"A"}));
    assert Lookup([[], []], "A") == None;
    assert {} + {"A"} == {"A"};
  }

  /** It returns from the function that reads the constant. */
  lemma ConstantReturnsForItsReader()
    ensures EvalTop(ReturnsFromConstant(), Call("f", [])) == Ok(Int(1))
    ensures Meaning(ReturnsFromConstant(), Call("f", [])) == Ok(Int(2))
  {
    hide EvalName, ExecName, EvalTop, Meaning;
    var p := ReturnsFromConstant();
    TopCall(p, "f");
    var body := p.fns["f"].body;
    var s := Entered(FUEL - 2);
    ReadsConstant(s);
    var s1 := s.(fuel := s.fuel - 2);
    assert body[1..] == [Return(Some(Num(2)))];
    ReturnStep(p, 2, s1);
    assert ExecStmt(p, body[0], s.env, s.fuel + 1, FrameOf(s)) == Run(Normal(Int(1)), s.env, s.fuel - 2);
  }

  // ----- a `break` outside any loop of its function -----

  function BreaksOutOfCallee(): Program {
    Program(map[], map["g" := Fn([], false, [Do(Break(None))]), "f" := Fn([], false, [Do(Call("g", [])), Return(Some(Num(1)))])])
  }

  lemma CallsBreaker(s: State)
    requires s == Entered(FUEL - 2)
    ensures EvalCall(BreaksOutOfCallee(), "g", [], s) == (Ok(Unit), s.Spent().(loopCtl := Some(BreakTo(None))))
    ensures ExecCall(BreaksOutOfCallee(), "g", [], s.env, s.fuel, FrameOf(s)) == Run(Normal(Unit), s.env, s.fuel - 1)
  {
    hide EvalStmts, ExecStmts;
    var p := BreaksOutOfCallee();
    var c := State([[]], s.fuel, 2, None, None, {});
    assert Bound([], []) == [] && Bound(p.fns["g"].params, []) == [];
    assert EvalAll(p, [], s) == (Ok([]), s);
    assert ExecAll(p, [], s.env, s.fuel, FrameOf(s)) == Run(Normal([]), s.env, s.fuel);
    BreakStep(p, c.Push());
    var out := c.Spent().(loopCtl := Some(BreakTo(None)));
    assert c.Push().Spent().(loopCtl := Some(BreakTo(None))).Pop() == out;
    assert EvalBlock(p, p.fns["g"].body, c) == (Ok(Unit), out);
  }

  /** It stops the function's caller. */
  lemma CalleeStopsItsCaller()
    ensures EvalTop(BreaksOutOfCallee(), Call("f", [])) == Ok(Unit)
    ensures Meaning(BreaksOutOfCallee(), Call("f", [])) == Ok(Int(1))
  {
    hide EvalCall, ExecCall, EvalTop, Meaning;
    var p := BreaksOutOfCallee();
    TopCall(p, "f");
    var body := p.fns["f"].body;
    var s := Entered(FUEL - 2);
    CallsBreaker(s);
    assert body[1..] == [Return(Some(Num(1)))];
    ReturnStep(p, 1, s.Spent());
    assert ExecStmt(p, body[0], s.env, s.fuel + 1, FrameOf(s)) == Run(Normal(Unit), s.env, s.fuel - 1);
  }

  lemma BreakStep(p: Program, s: State)
    requires s.fuel >= 1 && Quiet(s) && |s.env| > 0
    ensures EvalStmts(p, [Do(Break(None))], Unit, s) == (Ok(Unit), s.Spent().(loopCtl := Some(BreakTo(None))))
    ensures ExecStmts(p, [Do(Break(None))], s.env, s.fuel, FrameOf(s)) == Run(Jumped(BreakTo(None)), s.env, s.fuel - 1)
  {
    assert Eval(p, Break(None), s) == (Ok(Unit), s.Spent().(loopCtl := Some(BreakTo(None))));
    assert ExecStmt(p, Do(Break(None)), s.env, s.fuel, FrameOf(s)) == Run(Jumped(BreakTo(None)), s.env, s.fuel - 1);
  }

  // ----- a `return` inside an operand -----

  function ReturnsFromOperand(): Program {
    Program(map[], map["f" := Fn([], false, [Do(ReturningSum())])])
  }

  /** The other operand is evaluated all the same. */
  lemma OperandRunsAfterReturn()
    ensures EvalTop(ReturnsFromOperand(), Call("f", [])) == Err(NotConstant)
    ensures Meaning(ReturnsFromOperand(), Call("f", [])) == Ok(Int(1))
  {
    hide EvalTop, Meaning, Eval, Exec, EvalStmts, ExecStmts;
    var p := ReturnsFromOperand();
    TopCall(p, "f");
    SumReturns(p, Entered(FUEL - 1));
    OneStatement(p, ReturningSum(), Entered(FUEL - 1));
  }

  function ReturningSum(): Expr { Arith(Add, Block([Return(Some(Num(1)))]), Other) }

  lemma SumReturns(p: Program, s: State)
    requires s.fuel >= 4 && Quiet(s) && |s.env| > 0
    ensures Eval(p, ReturningSum(), s).0 == Err(NotConstant)
    ensures Exec(p, ReturningSum(), s.env, s.fuel, FrameOf(s)).sig == Returned(Int(1))
  {
    hide EvalBlock, ExecBlock;
    var left := Block([Return(Some(Num(1)))]);
    var t := s.Spent();
    BlockReturns(p, 1, t.Spent());
    assert Eval(p, left, t) == (Ok(Int(1)), t.Spent().Spent().(returning := Some(Int(1))));
    assert Exec(p, left, t.env, t.fuel, FrameOf(t)).sig == Returned(Int(1));
    assert EvalBoth(p, left, Other, t).0 == Err(NotConstant);
    assert ExecBoth(p, left, Other, t.env, t.fuel, FrameOf(t)).sig == Returned(Int(1));
  }
}
