/** Fuel is only a budget: whatever the interpreter does within it, it does the same with
    more, and leaves the extra over. */
module ComptimeFuel {
  import opened Wrappers
  import opened ComptimeValues
  import opened Comptime

  function More(s: State, d: nat): State { s.(fuel := s.fuel + d) }

  /** `b` ends as `a` does with `d` more steps left, unless `a` ran out of them. */
  predicate Stretches<T(==)>(a: Out<T>, b: Out<T>, d: nat) {
    match a.0
    case Ok(v) => b.0.Ok? && b.0.value == v && b.1 == More(a.1, d)
    case Err(e) => e == OutOfFuel || (b.0.Err? && b.0.error == e && b.1 == More(a.1, d))
  }

  predicate StretchesBoth(a: Out<(Value, Value)>, b: Out<(Value, Value)>, d: nat) {
    match a.0
    case Ok(v) => b.0.Ok? && b.0.value.0 == v.0 && b.0.value.1 == v.1 && b.1 == More(a.1, d)
    case Err(e) => e == OutOfFuel || (b.0.Err? && b.0.error == e && b.1 == More(a.1, d))
  }

  lemma {:induction false} MoreFuel(p: Program, e: Expr, s: State, d: nat)
    requires |s.env| > 0
    ensures Stretches(Eval(p, e, s), Eval(p, e, More(s, d)), d)
    decreases s.fuel, 0, 1
  {
    hide EvalName, EvalAll, EvalRepeat, EvalBoth, EvalLogic, EvalAssign, EvalIf, EvalBlock, EvalFor, EvalCall;
    if s.fuel > 0 {
      var t := s.Spent();
      assert More(s, d).Spent() == More(t, d);
      match e
      case Name(x) => MoreFuelName(p, x, t, d);
      case ArrayLit(_) => MoreFuelOperator(p, e, s, d);
      case Repeat(value, count) => MoreFuelRepeat(p, value, count, t, d);
      case Index(_, _) => MoreFuelOperator(p, e, s, d);
      case Len(_) => MoreFuelOperator(p, e, s, d);
      case Unary(_, _) => MoreFuelOperator(p, e, s, d);
      case Arith(_, _, _) => MoreFuelOperator(p, e, s, d);
      case Logic(and, a, b) => MoreFuelLogic(p, and, a, b, t, d);
      case Assign(op, target, value) => MoreFuelAssign(p, op, target, value, t, d);
      case If(cond, thn, els) => MoreFuelIf(p, cond, thn, els, t, d);
      case Block(stmts) => MoreFuelBlock(p, stmts, t, d);
      case For(tag, head, body, after) => MoreFuelFor(p, tag, head, body, after, t, d);
      case Call(f, args) => MoreFuelCall(p, f, args, t, d);
      case _ =>
    }
  }

  lemma {:induction false} MoreFuelOperator(p: Program, e: Expr, s: State, d: nat)
    requires |s.env| > 0 && s.fuel > 0 && (e.ArrayLit? || e.Index? || e.Len? || e.Unary? || e.Arith?)
    ensures Stretches(Eval(p, e, s), Eval(p, e, More(s, d)), d)
    decreases s.fuel, 0, 0
  {
    hide EvalAll, EvalBoth, Element, Length, Binary, ComptimeValues.Unary;
    var t := s.Spent();
    assert More(s, d).Spent() == More(t, d);
    match e
    case ArrayLit(elems) => MoreFuelAll(p, elems, t, d);
    case Index(base, index) => MoreFuelBoth(p, base, index, t, d);
    case Len(base) => MoreFuel(p, base, t, d);
    case Unary(_, rhs) => MoreFuel(p, rhs, t, d);
    case Arith(_, a, b) => MoreFuelBoth(p, a, b, t, d);
    case _ =>
  }

  lemma {:induction false} MoreFuelName(p: Program, x: Ident, s: State, d: nat)
    requires |s.env| > 0
    ensures Stretches(EvalName(p, x, s), EvalName(p, x, More(s, d)), d)
    decreases s.fuel, 1, 0
  {
    hide Eval;
    if Lookup(s.env, x).None? && x in p.consts && x !in s.inProgress {
      var t := s.(env := [[]], inProgress := s.inProgress + {x});
      assert More(s, d).(env := [[]], inProgress := s.inProgress + {x}) == More(t, d);
      MoreFuel(p, p.consts[x], t, d);
    }
  }

  lemma {:induction false} MoreFuelAll(p: Program, es: seq<Expr>, s: State, d: nat)
    requires |s.env| > 0
    ensures Stretches(EvalAll(p, es, s), EvalAll(p, es, More(s, d)), d)
    decreases s.fuel, 1, |es|
  {
    hide Eval;
    if es != [] {
      MoreFuel(p, es[0], s, d);
      var (r, s1) := Eval(p, es[0], s);
      if r.Ok? { MoreFuelAll(p, es[1..], s1, d); }
    }
  }

  lemma {:induction false} MoreFuelBoth(p: Program, a: Expr, b: Expr, s: State, d: nat)
    requires |s.env| > 0
    ensures StretchesBoth(EvalBoth(p, a, b, s), EvalBoth(p, a, b, More(s, d)), d)
    decreases s.fuel, 1, 0
  {
    hide Eval;
    MoreFuel(p, a, s, d);
    var (x, s1) := Eval(p, a, s);
    if x.Ok? { MoreFuel(p, b, s1, d); }
  }

  lemma {:induction false} MoreFuelRepeat(p: Program, value: Expr, count: Expr, s: State, d: nat)
    requires |s.env| > 0
    ensures Stretches(EvalRepeat(p, value, count, s), EvalRepeat(p, value, count, More(s, d)), d)
    decreases s.fuel, 1, 0
  {
    hide Eval;
    MoreFuel(p, count, s, d);
    var (x, s1) := Eval(p, count, s);
    if x.Ok? { MoreFuel(p, value, s1, d); }
  }

  lemma {:induction false} MoreFuelLogic(p: Program, and: bool, a: Expr, b: Expr, s: State, d: nat)
    requires |s.env| > 0
    ensures Stretches(EvalLogic(p, and, a, b, s), EvalLogic(p, and, a, b, More(s, d)), d)
    decreases s.fuel, 1, 0
  {
    hide Eval;
    MoreFuel(p, a, s, d);
    var (x, s1) := Eval(p, a, s);
    if x.Ok? { MoreFuel(p, b, s1, d); }
  }

  lemma {:induction false} MoreFuelIf(p: Program, cond: Expr, thn: seq<Stmt>, els: Option<Expr>, s: State, d: nat)
    requires |s.env| > 0
    ensures Stretches(EvalIf(p, cond, thn, els, s), EvalIf(p, cond, thn, els, More(s, d)), d)
    decreases s.fuel, 3, 0
  {
    hide Eval, EvalBlock;
    MoreFuel(p, cond, s, d);
    var (c, s1) := Eval(p, cond, s);
    if c.Ok? {
      MoreFuelBlock(p, thn, s1, d);
      if els.Some? { MoreFuel(p, els.value, s1, d); }
    }
  }

  lemma {:induction false} MoreFuelPlace(p: Program, target: Expr, s: State, d: nat)
    requires |s.env| > 0
    ensures Stretches(EvalPlace(p, target, s), EvalPlace(p, target, More(s, d)), d)
    decreases s.fuel, 1, PlaceDepth(target)
  {
    hide Eval;
    if target.Index? {
      MoreFuelPlace(p, target.base, s, d);
      var (place, s1) := EvalPlace(p, target.base, s);
      if place.Ok? { MoreFuel(p, target.index, s1, d); }
    }
  }

  lemma {:induction false} MoreFuelAssign(p: Program, op: Option<BinOp>, target: Expr, value: Expr, s: State, d: nat)
    requires |s.env| > 0
    ensures Stretches(EvalAssign(p, op, target, value, s), EvalAssign(p, op, target, value, More(s, d)), d)
    decreases s.fuel, 3, 0
  {
    hide Eval, EvalPlace, Update;
    MoreFuel(p, value, s, d);
    var (v, s1) := Eval(p, value, s);
    if v.Ok? { MoreFuelPlace(p, target, s1, d); }
  }

  lemma {:induction false} MoreFuelBlock(p: Program, stmts: seq<Stmt>, s: State, d: nat)
    requires |s.env| > 0
    ensures Stretches(EvalBlock(p, stmts, s), EvalBlock(p, stmts, More(s, d)), d)
    decreases s.fuel, 2, 0
  {
    hide EvalStmts;
    assert More(s, d).Push() == More(s.Push(), d);
    MoreFuelStmts(p, stmts, Unit, s.Push(), d);
  }

  lemma {:induction false} MoreFuelStmts(p: Program, stmts: seq<Stmt>, tail: Value, s: State, d: nat)
    requires |s.env| > 0
    ensures Stretches(EvalStmts(p, stmts, tail, s), EvalStmts(p, stmts, tail, More(s, d)), d)
    decreases s.fuel, 1, 2 * |stmts|
  {
    hide Eval, Proceed;
    if stmts != [] {
      match stmts[0]
      case Let(x, init) =>
        if init.Some? {
          MoreFuel(p, init.value, s, d);
          var (v, s1) := Eval(p, init.value, s);
          if v.Ok? {
            assert More(s1, d).Bind(x, v.value) == More(s1.Bind(x, v.value), d);
            MoreFuelRest(p, stmts[1..], Unit, s1.Bind(x, v.value), d);
          }
        }
      case Return(result) =>
        if result.Some? { MoreFuel(p, result.value, s, d); }
      case Do(e) =>
        MoreFuel(p, e, s, d);
        var (v, s1) := Eval(p, e, s);
        if v.Ok? { MoreFuelRest(p, stmts[1..], if |stmts| == 1 then v.value else Unit, s1, d); }
    }
  }

  lemma {:induction false} MoreFuelRest(p: Program, rest: seq<Stmt>, tail: Value, s: State, d: nat)
    requires |s.env| > 0
    ensures Stretches(Proceed(p, rest, tail, s), Proceed(p, rest, tail, More(s, d)), d)
    decreases s.fuel, 1, 2 * |rest| + 1
  {
    hide EvalStmts;
    MoreFuelStmts(p, rest, tail, s, d);
  }

  lemma {:induction false} MoreFuelFor(p: Program, tag: Option<Ident>, head: Head, body: seq<Stmt>, after: Else, s: State, d: nat)
    requires |s.env| > 0
    ensures Stretches(EvalFor(p, tag, head, body, after, s), EvalFor(p, tag, head, body, after, More(s, d)), d)
    decreases s.fuel, 5, 0
  {
    hide EvalLoop, EvalBlock;
    MoreFuelLoop(p, tag, head, body, s, d);
    var (broke, s1) := EvalLoop(p, tag, head, body, s);
    if broke.Ok? && after.Else? { MoreFuelBlock(p, after.stmts, s1, d); }
  }

  lemma {:induction false} MoreFuelLoop(p: Program, tag: Option<Ident>, head: Head, body: seq<Stmt>, s: State, d: nat)
    requires |s.env| > 0
    ensures Stretches(EvalLoop(p, tag, head, body, s), EvalLoop(p, tag, head, body, More(s, d)), d)
    decreases s.fuel, 4, 0
  {
    hide LoopForever, LoopWhile, LoopItems, EvalItems;
    match head
    case Infinite => MoreFuelForever(p, tag, body, s, d);
    case While(cond) => MoreFuelWhile(p, tag, cond, body, s, d);
    case Iter(binds, sources, step) =>
      MoreFuelSource(p, binds, sources, step, s, d);
      var (items, s1) := EvalItems(p, binds, sources, step, s);
      if items.Ok? { MoreFuelItems(p, tag, binds, items.value, 0, body, s1, d); }
  }

  lemma {:induction false} MoreFuelBody(p: Program, tag: Option<Ident>, body: seq<Stmt>, s: State, d: nat)
    requires |s.env| > 0
    ensures Stretches(RunBody(p, tag, body, s), RunBody(p, tag, body, More(s, d)), d)
    decreases s.fuel, 3, 0
  {
    hide EvalBlock;
    MoreFuelBlock(p, body, s, d);
  }

  lemma {:induction false} MoreFuelForever(p: Program, tag: Option<Ident>, body: seq<Stmt>, s: State, d: nat)
    requires |s.env| > 0
    ensures Stretches(LoopForever(p, tag, body, s), LoopForever(p, tag, body, More(s, d)), d)
    decreases s.fuel, 1, 0
  {
    hide RunBody;
    if s.fuel > 0 {
      assert More(s, d).Spent() == More(s.Spent(), d);
      MoreFuelBody(p, tag, body, s.Spent(), d);
      var (turn, s1) := RunBody(p, tag, body, s.Spent());
      if turn.Ok? { MoreFuelForever(p, tag, body, s1, d); }
    }
  }

  lemma {:induction false} MoreFuelWhile(p: Program, tag: Option<Ident>, cond: Expr, body: seq<Stmt>, s: State, d: nat)
    requires |s.env| > 0
    ensures Stretches(LoopWhile(p, tag, cond, body, s), LoopWhile(p, tag, cond, body, More(s, d)), d)
    decreases s.fuel, 1, 0
  {
    hide RunBody, Eval;
    if s.fuel > 0 {
      assert More(s, d).Spent() == More(s.Spent(), d);
      MoreFuel(p, cond, s.Spent(), d);
      var (c, s1) := Eval(p, cond, s.Spent());
      if c.Ok? {
        MoreFuelBody(p, tag, body, s1, d);
        var (turn, s2) := RunBody(p, tag, body, s1);
        if turn.Ok? { MoreFuelWhile(p, tag, cond, body, s2, d); }
      }
    }
  }

  lemma {:induction false} MoreFuelItems(p: Program, tag: Option<Ident>, binds: seq<Ident>, items: seq<Value>, i: nat,
                                         body: seq<Stmt>, s: State, d: nat)
    requires |s.env| > 0 && i <= |items|
    ensures Stretches(LoopItems(p, tag, binds, items, i, body, s), LoopItems(p, tag, binds, items, i, body, More(s, d)), d)
    decreases s.fuel, 1, 0
  {
    hide RunBody, Opened;
    if i < |items| && s.fuel > 0 {
      var t := Opened(binds, items, i, s.Spent());
      OpenedStretches(binds, items, i, s, d);
      MoreFuelBody(p, tag, body, t, d);
      var (turn, s1) := RunBody(p, tag, body, t);
      if turn.Ok? {
        assert More(s1, d).Pop() == More(s1.Pop(), d);
        MoreFuelItems(p, tag, binds, items, i + 1, body, s1.Pop(), d);
      }
    }
  }

  lemma {:induction false} MoreFuelSource(p: Program, binds: seq<Ident>, sources: seq<Source>, step: Option<Expr>, s: State, d: nat)
    requires |s.env| > 0
    ensures Stretches(EvalItems(p, binds, sources, step, s), EvalItems(p, binds, sources, step, More(s, d)), d)
    decreases s.fuel, 2, 0
  {
    hide Eval, EvalInt, EvalStride, RangeItems;
    MoreFuelStride(p, step, s, d);
    var (stride, s1) := EvalStride(p, step, s);
    if |sources| == 1 && stride.Ok? {
      match sources[0]
      case Range(lo, hi, inclusive) =>
        if lo.Some? && hi.Some? {
          MoreFuelInt(p, lo.value, s1, d);
          var (a, s2) := EvalInt(p, lo.value, s1);
          if a.Ok? {
            MoreFuelInt(p, hi.value, s2, d);
            var (b, s3) := EvalInt(p, hi.value, s2);
            if b.Ok? { RangeStretches(a.value, b.value, stride.value, inclusive, s3, d); }
          }
        }
      case Values(e) => MoreFuel(p, e, s1, d);
    }
  }

  lemma {:induction false} MoreFuelStride(p: Program, step: Option<Expr>, s: State, d: nat)
    requires |s.env| > 0
    ensures Stretches(EvalStride(p, step, s), EvalStride(p, step, More(s, d)), d)
    decreases s.fuel, 1, 1
  {
    hide EvalInt;
    if step.Some? { MoreFuelInt(p, step.value, s, d); }
  }

  lemma {:induction false} MoreFuelInt(p: Program, e: Expr, s: State, d: nat)
    requires |s.env| > 0
    ensures Stretches(EvalInt(p, e, s), EvalInt(p, e, More(s, d)), d)
    decreases s.fuel, 1, 0
  {
    hide Eval;
    MoreFuel(p, e, s, d);
  }

  lemma {:induction false} MoreFuelCall(p: Program, f: Ident, args: seq<Expr>, s: State, d: nat)
    requires |s.env| > 0
    ensures Stretches(EvalCall(p, f, args, s), EvalCall(p, f, args, More(s, d)), d)
    decreases s.fuel, 4, 0
  {
    hide EvalAll, EvalBlock;
    if Callable(p, f, |args|, s.depth).None? {
      MoreFuelAll(p, args, s, d);
      var (vs, s1) := EvalAll(p, args, s);
      if vs.Ok? {
        var callee := s1.(env := [Bound(p.fns[f].params, vs.value)], returning := None, depth := s1.depth + 1);
        MoreFuelBlock(p, p.fns[f].body, callee, d);
      }
    }
  }

  lemma {:induction false} RangeStretches(i: int, hi: int, stride: int, inclusive: bool, s: State, d: nat)
    ensures Stretches(RangeItems(i, hi, stride, inclusive, s), RangeItems(i, hi, stride, inclusive, More(s, d)), d)
    decreases s.fuel
  {
    if InRange(i, hi, stride, inclusive) && s.fuel > 0 && MIN <= i + stride <= MAX {
      assert More(s, d).Spent() == More(s.Spent(), d);
      RangeStretches(i + stride, hi, stride, inclusive, s.Spent(), d);
    }
  }

  lemma OpenedStretches(binds: seq<Ident>, items: seq<Value>, i: nat, s: State, d: nat)
    requires i < |items| && s.fuel > 0
    ensures Opened(binds, items, i, More(s, d).Spent()) == More(Opened(binds, items, i, s.Spent()), d)
  {
  }

  /** A constant that evaluates within the budget keeps its value under any larger one. */
  lemma BudgetDoesNotMatter(p: Program, e: Expr, fuel: nat, more: nat)
    requires fuel <= more
    ensures var small := Eval(p, e, Fresh([[]]).(fuel := fuel)).0;
      small != Err(OutOfFuel) ==> Eval(p, e, Fresh([[]]).(fuel := more)).0 == small
  {
    hide Eval;
    var s := Fresh([[]]).(fuel := fuel);
    assert More(s, more - fuel) == Fresh([[]]).(fuel := more);
    MoreFuel(p, e, s, more - fuel);
  }
}
