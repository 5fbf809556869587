/** What the forms of the compile-time language yield, read off whole evaluations: short
    circuits, ranges, list literals, parameters, the step budget and the call depth. */
module ComptimeForms {
  import opened Wrappers
  import opened Scattering
  import opened ComptimeValues
  import opened Comptime
  import opened ComptimeOperators

  // ----- short circuits -----

  /** `and` and `or` are the connectives of logic; the right side is evaluated exactly when
      the left one leaves the answer open. */
  lemma LogicMeans(p: Program, and: bool, l: Expr, r: Expr, s: State)
    requires |s.env| > 0 && s.fuel > 0
    ensures var (a, s1) := Eval(p, l, s.Spent());
      var (o, end) := Eval(p, Logic(and, l, r), s);
      if a.Err? then o == a && end == s1
      else if !a.value.Bool? then o == Err(WrongType) && end == s1
      else
        var open := exists y, z :: Connects(and, a.value.b, y) != Connects(and, a.value.b, z);
        var (b, s2) := Eval(p, r, s1);
        if !open then o == Ok(Bool(Connects(and, a.value.b, true))) && end == s1
        else
          && end == s2
          && (b.Err? ==> o == b)
          && (b.Ok? && !b.value.Bool? ==> o == Err(WrongType))
          && (b.Ok? && b.value.Bool? ==> o == Ok(Bool(Connects(and, a.value.b, b.value.b))))
  {
    hide Eval;
    LogicIs(p, and, l, r, s);
    var a := Eval(p, l, s.Spent()).0;
    if a.Ok? && a.value.Bool? && a.value.b == and {
      assert Connects(and, and, true) != Connects(and, and, false);
    }
  }

  predicate Connects(and: bool, x: bool, y: bool) { if and then x && y else x || y }

  lemma LogicIs(p: Program, and: bool, l: Expr, r: Expr, s: State)
    requires |s.env| > 0 && s.fuel > 0
    ensures Eval(p, Logic(and, l, r), s) == EvalLogic(p, and, l, r, s.Spent())
  {
    hide EvalName, EvalAll, EvalRepeat, EvalBoth, EvalLogic, EvalAssign, EvalIf, EvalBlock, EvalFor, EvalCall;
  }

  // ----- ranges -----

  function At(i: int, stride: int, k: int): int { i + k * stride }

  lemma AtNext(i: int, stride: int, k: int)
    ensures At(i, stride, 0) == i
    ensures At(i + stride, stride, k) == At(i, stride, k + 1)
  {
  }

  /** `i` has not gone past the end, in the direction of the stride. */
  predicate Within(i: int, hi: int, stride: int, inclusive: bool) {
    (i < hi && stride > 0) || (i > hi && stride < 0) || (i == hi && inclusive)
  }

  /** A range yields `i`, `i + stride` and so on for as long as these are within the end, for
      one step each. It fails where the budget ends before the range does, or behind the item
      whose successor is no word. */
  lemma {:induction false} RangeMeans(i: int, hi: int, stride: int, inclusive: bool, s: State)
    requires stride != 0
    ensures var (o, end) := RangeItems(i, hi, stride, inclusive, s);
      var n := s.fuel - end.fuel;
      && (forall k :: 0 <= k < n ==> Within(At(i, stride, k), hi, stride, inclusive))
      && match o
         case Ok(items) =>
           && |items| == n
           && (forall k :: 0 <= k < n ==> items[k] == Int(At(i, stride, k)))
           && !Within(At(i, stride, n), hi, stride, inclusive)
         case Err(e) =>
           if end.fuel == 0 && e == OutOfFuel then Within(At(i, stride, n), hi, stride, inclusive)
           else e == Overflow && n > 0 && !(MIN <= At(i, stride, n) <= MAX)
    decreases s.fuel
  {
    hide At;
    AtNext(i, stride, 0);
    if InRange(i, hi, stride, inclusive) && s.fuel > 0 && MIN <= i + stride <= MAX {
      RangeMeans(i + stride, hi, stride, inclusive, s.Spent());
      var (o, end) := RangeItems(i + stride, hi, stride, inclusive, s.Spent());
      var n := s.fuel - end.fuel;
      AtNext(i, stride, n - 1);
      forall k | 0 <= k < n
        ensures Within(At(i, stride, k), hi, stride, inclusive)
        ensures o.Ok? ==> ([Int(i)] + o.value)[k] == Int(At(i, stride, k))
      {
        AtNext(i, stride, k - 1);
      }
    } else if InRange(i, hi, stride, inclusive) && s.fuel > 0 {
      AtNext(i, stride, 0);
      AtNext(i + stride, stride, 0);
    }
  }

  /** In each iteration the first binding is the item and the second one its position, cast to
      a word; other names mean what they did. */
  lemma OpenedReads(binds: seq<Ident>, items: seq<Value>, i: nat, s: State, x: Ident)
    requires i < |items| && 1 <= |binds| <= 2 && (|binds| == 2 ==> binds[0] != binds[1])
    ensures var env := Opened(binds, items, i, s).env;
      && Lookup(env, binds[0]) == Some(items[i])
      && (|binds| == 2 && i <= MAX ==> Lookup(env, binds[1]) == Some(Int(i)))
      && (x !in binds ==> Lookup(env, x) == Lookup(s.env, x))
  {
    hide FindIn, Wrapped;
    var env := Opened(binds, items, i, s).env;
    CountedIs(i);
    var names := if |binds| == 2 then [(binds[0], items[i]), (binds[1], Counted(i))] else [(binds[0], items[i])];
    assert env[|env| - 1] == names;
    assert env[..|env| - 1] == s.env;
    LastReads(names, binds[0], 0);
    if |binds| == 2 {
      LastReads(names, binds[1], 1);
    }
    if x !in binds {
      var at := FindIn(names, x);
      assert at.None?;
    }
  }

  lemma CountedIs(n: nat)
    ensures n <= MAX ==> Counted(n) == Int(n)
  {
  }

  /** A name bound once in a scope is found where it is bound. */
  lemma LastReads(scope: Scope, x: Ident, i: nat)
    requires i < |scope| && scope[i].0 == x && forall k :: 0 <= k < |scope| && k != i ==> scope[k].0 != x
    ensures FindIn(scope, x) == Some(i)
  {
    var at := FindIn(scope, x);
  }

  // ----- literals, parameters and the budget -----

  function Nums(ns: seq<int>): seq<Expr> { seq(|ns|, i requires 0 <= i < |ns| => Num(ns[i])) }

  function Ints(ns: seq<int>): seq<Value> { seq(|ns|, i requires 0 <= i < |ns| => Int(ns[i])) }

  predicate Words(ns: seq<int>) { forall i :: 0 <= i < |ns| ==> MIN <= ns[i] <= MAX }

  lemma {:induction false} NumsEvaluate(p: Program, ns: seq<int>, s: State)
    requires |s.env| > 0 && Words(ns)
    ensures var (o, end) := EvalAll(p, Nums(ns), s);
      if |ns| <= s.fuel then o == Ok(Ints(ns)) && end == s.(fuel := s.fuel - |ns|)
      else o == Err(OutOfFuel) && end.fuel == 0
    decreases |ns|
  {
    hide Nums, Ints, EvalName, EvalRepeat, EvalBoth, EvalLogic, EvalAssign, EvalIf, EvalBlock, EvalFor, EvalCall;
    NumsStep(ns);
    if ns != [] && s.fuel > 0 {
      NumsEvaluate(p, ns[1..], s.Spent());
    }
  }

  lemma NumsStep(ns: seq<int>)
    ensures |Nums(ns)| == |ns| == |Ints(ns)|
    ensures ns == [] ==> Nums(ns) == [] && Ints(ns) == []
    ensures ns != [] ==> Nums(ns)[0] == Num(ns[0]) && Nums(ns)[1..] == Nums(ns[1..]) && Ints(ns) == [Int(ns[0])] + Ints(ns[1..])
  {
  }

  /** Indexing a list literal of numbers yields the number at that position, or the error for
      the index; the whole takes three steps and one for each number, of 100 000. */
  lemma LiteralReads(p: Program, ns: seq<int>, k: int)
    requires Words(ns) && MIN <= k <= MAX
    ensures EvalTop(p, Index(ArrayLit(Nums(ns)), Num(k))) ==
      if |ns| > 99_997 then Err(OutOfFuel)
      else if k < 0 then Err(WrongType)
      else if k < |ns| then Ok(Int(ns[k]))
      else Err(OutOfRange)
  {
    hide EvalAll, Nums;
    var s := Fresh([[]]);
    var list := ArrayLit(Nums(ns));
    IndexIs(p, list, Num(k), s);
    ListIs(p, Nums(ns), s.Spent());
    NumsEvaluate(p, ns, s.Spent().Spent());
  }

  lemma IndexIs(p: Program, base: Expr, index: Expr, s: State)
    requires |s.env| > 0 && s.fuel > 0
    ensures var both := EvalBoth(p, base, index, s.Spent()).0;
      Eval(p, Index(base, index), s).0 == if both.Ok? then Element(both.value.0, both.value.1) else Err(both.error)
  {
    hide Element, EvalName, EvalAll, EvalRepeat, EvalBoth, EvalLogic, EvalAssign, EvalIf, EvalBlock, EvalFor, EvalCall;
  }

  lemma ListIs(p: Program, es: seq<Expr>, s: State)
    requires |s.env| > 0 && s.fuel > 0
    ensures var (all, end) := EvalAll(p, es, s.Spent());
      Eval(p, ArrayLit(es), s) == (if all.Ok? then Ok(List(all.value)) else Err(all.error), end)
  {
    hide EvalName, EvalAll, EvalRepeat, EvalBoth, EvalLogic, EvalAssign, EvalIf, EvalBlock, EvalFor, EvalCall;
  }

  /** `.len` of a list literal counts its elements; of a string its characters, as far as a word
      can hold the number. */
  lemma LengthReads(p: Program, ns: seq<int>, t: string)
    requires Words(ns)
    ensures EvalTop(p, Len(ArrayLit(Nums(ns)))) == if |ns| > 99_998 then Err(OutOfFuel) else Ok(Int(|ns|))
    ensures |t| <= MAX ==> EvalTop(p, Len(Text(t))) == Ok(Int(|t|))
  {
    hide Eval, EvalAll, Nums, Wrapped;
    var s := Fresh([[]]);
    LenIs(p, ArrayLit(Nums(ns)), s);
    ListIs(p, Nums(ns), s.Spent());
    NumsEvaluate(p, ns, s.Spent().Spent());
    CountedIs(|ns|);
    LenIs(p, Text(t), s);
    TextIs(p, t, s.Spent());
    CountedIs(|t|);
  }

  lemma LenIs(p: Program, base: Expr, s: State)
    requires |s.env| > 0 && s.fuel > 0
    ensures var r := Eval(p, base, s.Spent()).0; Eval(p, Len(base), s).0 == if r.Ok? then Length(r.value) else r
  {
    hide Length, EvalName, EvalAll, EvalRepeat, EvalBoth, EvalLogic, EvalAssign, EvalIf, EvalBlock, EvalFor, EvalCall;
  }

  lemma TextIs(p: Program, t: string, s: State)
    requires |s.env| > 0 && s.fuel > 0
    ensures Eval(p, Text(t), s) == (Ok(Str(t)), s.Spent())
  {
    hide EvalName, EvalAll, EvalRepeat, EvalBoth, EvalLogic, EvalAssign, EvalIf, EvalBlock, EvalFor, EvalCall;
  }

  /** `[v; n]` holds `v` in `n` places, each of which costs a step. */
  lemma RepeatReads(p: Program, v: int, n: int, k: int)
    requires Words([v, n, k])
    ensures EvalTop(p, Index(Repeat(Num(v), Num(n)), Num(k))) ==
      if n < 0 then Err(WrongType)
      else if n > 99_995 then Err(OutOfFuel)
      else if k < 0 then Err(WrongType)
      else if k < n then Ok(Int(v))
      else Err(OutOfRange)
  {
    hide Eval, EvalRepeat;
    assert Words([v, n, k]) && [v, n, k][0] == v && [v, n, k][1] == n && [v, n, k][2] == k;
    var s := Fresh([[]]);
    IndexIs(p, Repeat(Num(v), Num(n)), Num(k), s);
    CopiesAre(p, v, n, s.Spent());
    var (r, s1) := Eval(p, Repeat(Num(v), Num(n)), s.Spent());
    if r.Ok? && s1.fuel > 0 {
      NumIs(p, k, s1);
    } else if r.Ok? {
      NoSteps(p, Num(k), s1);
    }
  }

  lemma NoSteps(p: Program, e: Expr, s: State)
    requires |s.env| > 0 && s.fuel == 0
    ensures Eval(p, e, s) == (Err(OutOfFuel), s)
  {
  }

  lemma CopiesAre(p: Program, v: int, n: int, s: State)
    requires |s.env| > 0 && s.fuel >= 3 && MIN <= v <= MAX && MIN <= n <= MAX
    ensures var (r, s1) := Eval(p, Repeat(Num(v), Num(n)), s);
      if n < 0 then r == Err(WrongType)
      else if n + 3 > s.fuel then r == Err(OutOfFuel)
      else r == Ok(List(seq(n, i => Int(v)))) && s1 == s.(fuel := s.fuel - 3 - n)
  {
    hide Eval;
    RepeatIs(p, Num(v), Num(n), s);
    NumIs(p, n, s.Spent());
    NumIs(p, v, s.Spent().Spent());
  }

  lemma RepeatIs(p: Program, value: Expr, count: Expr, s: State)
    requires |s.env| > 0 && s.fuel > 0
    ensures Eval(p, Repeat(value, count), s) == EvalRepeat(p, value, count, s.Spent())
  {
    hide EvalName, EvalAll, EvalRepeat, EvalBoth, EvalLogic, EvalAssign, EvalIf, EvalBlock, EvalFor, EvalCall;
  }

  /** A callee sees its arguments under its parameters, in order. */
  lemma ParameterReads(p: Program, f: Ident, ns: seq<int>, i: nat)
    requires f in p.fns && !p.fns[f].erased && |p.fns[f].params| == |ns| && i < |ns| <= 99_998
    requires forall j, k :: 0 <= j < k < |ns| ==> p.fns[f].params[j] != p.fns[f].params[k]
    requires p.fns[f].body == [Do(Name(p.fns[f].params[i]))] && Words(ns)
    ensures EvalTop(p, Call(f, Nums(ns))) == Ok(Int(ns[i]))
  {
    hide Eval, EvalAll, EvalBlock, Nums, Bound;
    var params, x := p.fns[f].params, p.fns[f].params[i];
    var s := Fresh([[]]);
    CallIs(p, f, Nums(ns), s);
    NumsStep(ns);
    NumsEvaluate(p, ns, s.Spent());
    var s1 := s.Spent().(fuel := s.fuel - 1 - |ns|);
    var callee := s1.(env := [Bound(params, Ints(ns))], returning := None, depth := 1);
    BoundReads(params, Ints(ns), i);
    OneExpression(p, Name(x), callee);
    assert callee.Push().env == [Bound(params, Ints(ns)), []];
    NameIs(p, x, Int(ns[i]), callee.Push());
    assert EvalAll(p, Nums(ns), s.Spent()) == (Ok(Ints(ns)), s1);
    assert EvalBlock(p, p.fns[f].body, callee) == (Ok(Int(ns[i])), callee.Push().Spent().Pop());
    assert EvalCall(p, f, Nums(ns), s.Spent()).0 == Ok(Int(ns[i]));
  }

  lemma BoundReads(params: seq<Ident>, args: seq<Value>, i: nat)
    requires i < |params| == |args|
    requires forall j, k :: 0 <= j < k < |params| ==> params[j] != params[k]
    ensures Lookup([Bound(params, args), []], params[i]) == Some(args[i])
  {
    hide FindIn;
    var env := [Bound(params, args), []];
    LastReads(Bound(params, args), params[i], i);
    var at := Find(env, params[i]);
    assert env[0] == Bound(params, args) && env[1] == [];
    assert FindIn(env[1], params[i]).None? by { NothingBound(params[i]); }
  }

  lemma NothingBound(x: Ident)
    ensures FindIn([], x).None?
  {
  }

  lemma CallIs(p: Program, f: Ident, args: seq<Expr>, s: State)
    requires |s.env| > 0 && s.fuel > 0
    ensures Eval(p, Call(f, args), s) == EvalCall(p, f, args, s.Spent())
  {
    hide EvalName, EvalAll, EvalRepeat, EvalBoth, EvalLogic, EvalAssign, EvalIf, EvalBlock, EvalFor, EvalCall;
  }

  lemma NameIs(p: Program, x: Ident, v: Value, s: State)
    requires |s.env| > 0 && s.fuel > 0 && Lookup(s.env, x) == Some(v)
    ensures Eval(p, Name(x), s) == (Ok(v), s.Spent())
  {
    hide EvalAll, EvalRepeat, EvalBoth, EvalLogic, EvalAssign, EvalIf, EvalBlock, EvalFor, EvalCall;
    assert EvalName(p, x, s.Spent()) == (Ok(v), s.Spent());
  }

  /** A block of one expression has that expression's value. */
  lemma OneExpression(p: Program, e: Expr, s: State)
    requires |s.env| > 0
    ensures var (v, s1) := Eval(p, e, s.Push());
      v.Err? || (s1.returning.None? && s1.loopCtl.None?) ==> EvalBlock(p, [Do(e)], s) == (v, s1.Pop())
  {
    hide Eval;
    var (v, s1) := Eval(p, e, s.Push());
    assert [Do(e)][1..] == [];
    if v.Ok? && s1.returning.None? && s1.loopCtl.None? {
      assert EvalStmts(p, [], v.value, s1) == (v, s1);
      assert Proceed(p, [], v.value, s1) == (v, s1);
    }
    if v.Err? || (s1.returning.None? && s1.loopCtl.None?) {
      assert EvalStmts(p, [Do(e)], Unit, s.Push()) == (v, s1);
    }
  }

  // ----- places -----

  /** `x[n0][n1]...` */
  function Indexed(x: Ident, ns: seq<nat>): Expr
    decreases |ns|
  {
    if ns == [] then Name(x) else Index(Indexed(x, ns[..|ns| - 1]), Num(ns[|ns| - 1]))
  }

  lemma {:induction false} ReadFurther(v: Value, path: seq<nat>, i: nat)
    ensures ReadPath(v, path + [i]) == if ReadPath(v, path).Ok? then Element(ReadPath(v, path).value, Int(i)) else ReadPath(v, path)
    decreases |path|
  {
    if path != [] {
      assert (path + [i])[1..] == path[1..] + [i];
      if v.List? && path[0] < |v.items| {
        ReadFurther(v.items[path[0]], path[1..], i);
      }
    } else {
      assert [i][1..] == [] && path + [i] == [i];
    }
  }

  /** As a place, an indexed name is the name with its indices from left to right. */
  lemma {:induction false} PlaceIs(p: Program, x: Ident, ns: seq<nat>, s: State)
    requires |s.env| > 0 && Words(ns) && s.fuel >= |ns|
    ensures EvalPlace(p, Indexed(x, ns), s) == (Ok((x, ns)), s.(fuel := s.fuel - |ns|))
    decreases |ns|
  {
    hide Eval;
    if ns != [] {
      var n, init := ns[|ns| - 1], ns[..|ns| - 1];
      assert ns == init + [n];
      PlaceIs(p, x, init, s);
      NumIs(p, n, s.(fuel := s.fuel - |init|));
    }
  }

  /** As an expression it has the value that is read from that place. */
  lemma {:induction false} ValueIs(p: Program, x: Ident, ns: seq<nat>, s: State)
    requires |s.env| > 0 && Words(ns) && s.fuel > 2 * |ns| && Lookup(s.env, x).Some?
    ensures var (r, s1) := Eval(p, Indexed(x, ns), s);
      r == Read(s.env, x, ns) && (r.Ok? ==> s1 == s.(fuel := s.fuel - 2 * |ns| - 1))
    decreases |ns|
  {
    hide Eval, Lookup, ReadPath, Element;
    var v := Lookup(s.env, x).value;
    if ns == [] {
      NameIs(p, x, v, s);
      assert ReadPath(v, []) == Ok(v) by { ReadHere(v); }
    } else {
      var n, init := ns[|ns| - 1], ns[..|ns| - 1];
      assert ns == init + [n];
      ReadFurther(v, init, n);
      ValueIs(p, x, init, s.Spent());
      var (r, s1) := Eval(p, Indexed(x, init), s.Spent());
      if r.Ok? {
        NumIs(p, n, s1);
      }
      IndexRuns(p, Indexed(x, init), Num(n), s);
    }
  }

  lemma ReadHere(v: Value)
    ensures ReadPath(v, []) == Ok(v)
  {
  }

  lemma IndexRuns(p: Program, base: Expr, index: Expr, s: State)
    requires |s.env| > 0 && s.fuel > 0
    ensures var (both, end) := EvalBoth(p, base, index, s.Spent());
      Eval(p, Index(base, index), s) == (if both.Ok? then Element(both.value.0, both.value.1) else Err(both.error), end)
  {
    hide Element, EvalName, EvalAll, EvalRepeat, EvalBoth, EvalLogic, EvalAssign, EvalIf, EvalBlock, EvalFor, EvalCall;
  }

  /** What was assigned is what is read: behind `x[n0][n1]... = v` that same expression has the
      value, and every place apart from it reads as it did before the write. */
  lemma AssignedReads(p: Program, x: Ident, ns: seq<nat>, value: Expr, s: State, y: Ident, other: seq<nat>)
    requires |s.env| > 0 && s.fuel > 0 && Words(ns) && Words(other)
    ensures var (v, s1) := Eval(p, value, s.Spent());
      var (o, t) := Eval(p, Assign(None, Indexed(x, ns), value), s);
      o.Ok? && t.fuel > 2 * (|ns| + |other|) ==>
        && v.Ok? && Eval(p, Indexed(x, ns), t).0 == Ok(v.value)
        && (Lookup(s1.env, y).Some? && (y != x || Apart(ns, other)) ==>
          Eval(p, Indexed(y, other), t).0 == Eval(p, Indexed(y, other), s1).0)
  {
    hide Eval, Read, Write, EvalPlace, Apart, Lookup;
    AssignIs(p, None, Indexed(x, ns), value, s);
    var (v, s1) := Eval(p, value, s.Spent());
    var (o, t) := Eval(p, Assign(None, Indexed(x, ns), value), s);
    if o.Ok? && t.fuel > 2 * (|ns| + |other|) {
      PlaceIs(p, x, ns, s1);
      assert t.env == Write(s1.env, x, ns, v.value).value;
      WriteReads(s1.env, x, ns, v.value, y, other);
      WriteReads(s1.env, x, ns, v.value, y, []);
      WriteBinds(s1.env, x, ns, v.value, x);
      WriteBinds(s1.env, x, ns, v.value, y);
      ValueIs(p, x, ns, t);
      if Lookup(s1.env, y).Some? {
        ValueIs(p, y, other, t);
        ValueIs(p, y, other, s1);
      }
    }
  }

  /** A write binds no name and loses none. */
  lemma WriteBinds(env: Env, x: Ident, path: seq<nat>, v: Value, y: Ident)
    requires Write(env, x, path, v).Ok?
    ensures Lookup(env, x).Some?
    ensures Lookup(Write(env, x, path, v).value, y).Some? == Lookup(env, y).Some?
  {
    hide Find, WritePath;
    var at := Find(env, x).value;
    StoreFinds(env, at, WritePath(env[at.0][at.1].1, path, v).value, y);
  }

  // ----- call depth -----

  /** `if x == 0 { 0 } else { f(x - 1) }` */
  function Countdown(f: Ident, x: Ident): seq<Stmt> {
    [Do(If(Arith(Eq, Name(x), Num(0)), [Do(Num(0))], Some(Call(f, [Arith(Sub, Name(x), Num(1))]))))]
  }

  lemma CountdownTests(p: Program, op: BinOp, x: Ident, n: int, k: int, s: State)
    requires |s.env| > 0 && s.fuel >= 3 && Lookup(s.env, x) == Some(Int(n)) && MIN <= k <= MAX
    ensures Eval(p, Arith(op, Name(x), Num(k)), s) == (IntOp(op, n, k), s.(fuel := s.fuel - 3))
  {
    hide IntOp, EvalName, EvalAll, EvalRepeat, EvalLogic, EvalAssign, EvalIf, EvalBlock, EvalFor, EvalCall;
    NameIs(p, x, Int(n), s.Spent());
    NumIs(p, k, s.Spent().Spent());
    assert EvalBoth(p, Name(x), Num(k), s.Spent()) == (Ok((Int(n), Int(k))), s.(fuel := s.fuel - 3));
  }

  lemma NumIs(p: Program, i: int, s: State)
    requires |s.env| > 0 && s.fuel > 0 && MIN <= i <= MAX
    ensures Eval(p, Num(i), s) == (Ok(Int(i)), s.Spent())
  {
    hide EvalName, EvalAll, EvalRepeat, EvalBoth, EvalLogic, EvalAssign, EvalIf, EvalBlock, EvalFor, EvalCall;
  }

  lemma IfIs(p: Program, cond: Expr, thn: seq<Stmt>, els: Option<Expr>, s: State)
    requires |s.env| > 0 && s.fuel > 0
    ensures Eval(p, If(cond, thn, els), s) == EvalIf(p, cond, thn, els, s.Spent())
  {
    hide EvalName, EvalAll, EvalRepeat, EvalBoth, EvalLogic, EvalAssign, EvalIf, EvalBlock, EvalFor, EvalCall;
  }

  lemma CallRuns(p: Program, f: Ident, x: Ident, body: seq<Stmt>, e: Expr, v: Value, s: State, s1: State)
    requires f in p.fns && p.fns[f] == Fn([x], false, body)
    requires |s.env| > 0 && Eval(p, e, s) == (Ok(v), s1)
    ensures if s.depth >= 64 then EvalCall(p, f, [e], s) == (Err(TooDeep), s)
      else
        var (o, end) := EvalBlock(p, body, s1.(env := [[(x, v)]], returning := None, depth := s1.depth + 1));
        var (r, s2) := EvalCall(p, f, [e], s);
        (o.Ok? && end.returning.None? ==> r == o) && (o.Err? ==> r == o)
        && s2.returning == s1.returning && s2.loopCtl == end.loopCtl
  {
    hide Eval, EvalBlock, EvalAll;
    OneArgument(p, e, v, s, s1);
    assert Bound([x], [v]) == [(x, v)];
  }

  lemma OneArgument(p: Program, e: Expr, v: Value, s: State, s1: State)
    requires |s.env| > 0 && Eval(p, e, s) == (Ok(v), s1)
    ensures EvalAll(p, [e], s) == (Ok([v]), s1)
  {
    hide Eval;
    assert [e][1..] == [] && [v] + [] == [v];
    assert EvalAll(p, [e][1..], s1) == (Ok([]), s1);
  }

  /** Counting down from `n` succeeds exactly when no call gets deeper than 64. */
  lemma {:induction false} CountdownFrom(p: Program, f: Ident, x: Ident, n: int, s: State)
    requires f in p.fns && p.fns[f] == Fn([x], false, Countdown(f, x))
    requires |s.env| > 0 && Lookup(s.env + [[]], x) == Some(Int(n)) && 0 <= n <= MAX
    requires s.returning.None? && s.loopCtl.None? && 1 <= s.depth <= 64 && s.fuel >= 8 * (65 - s.depth)
    ensures var (o, end) := EvalBlock(p, Countdown(f, x), s);
      && o == (if n + s.depth <= 64 then Ok(Int(0)) else Err(TooDeep))
      && (o.Ok? ==> end.returning.None? && end.loopCtl.None?)
    decreases 64 - s.depth
  {
    hide Eval, EvalBlock, EvalCall, EvalAll, Bound, Lookup;
    var s0 := s.Push();
    var less := Arith(Sub, Name(x), Num(1));
    var test := Arith(Eq, Name(x), Num(0));
    OneExpression(p, If(test, [Do(Num(0))], Some(Call(f, [less]))), s);
    IfIs(p, test, [Do(Num(0))], Some(Call(f, [less])), s0);
    CountdownTests(p, Eq, x, n, 0, s0.Spent());
    var s1 := s0.(fuel := s0.fuel - 4);
    if n == 0 {
      OneExpression(p, Num(0), s1);
      NumIs(p, 0, s1.Push());
    } else {
      CallIs(p, f, [less], s1);
      CountdownTests(p, Sub, x, n, 1, s1.Spent());
      var s2 := s1.(fuel := s1.fuel - 4);
      CallRuns(p, f, x, Countdown(f, x), less, Int(n - 1), s1.Spent(), s2);
      if s.depth < 64 {
        var callee := s2.(env := [[(x, Int(n - 1))]], returning := None, depth := s2.depth + 1);
        OneBinding(x, Int(n - 1));
        CountdownFrom(p, f, x, n - 1, callee);
      }
    }
  }

  lemma OneBinding(x: Ident, v: Value)
    ensures Lookup([[(x, v)]] + [[]], x) == Some(v)
  {
    BoundReads([x], [v], 0);
    assert Bound([x], [v]) == [(x, v)];
    assert [[(x, v)]] + [[]] == [[(x, v)], []];
  }

  /** The call depth ends at 64. */
  lemma DepthIs64(p: Program, f: Ident, x: Ident, n: int)
    requires f in p.fns && p.fns[f] == Fn([x], false, Countdown(f, x)) && 0 <= n <= MAX
    ensures EvalTop(p, Call(f, [Num(n)])) == if n < 64 then Ok(Int(0)) else Err(TooDeep)
  {
    hide Eval, EvalBlock, EvalCall, Lookup;
    var s := Fresh([[]]);
    CallIs(p, f, [Num(n)], s);
    NumIs(p, n, s.Spent());
    var s1 := s.Spent().Spent();
    CallRuns(p, f, x, Countdown(f, x), Num(n), Int(n), s.Spent(), s1);
    OneBinding(x, Int(n));
    CountdownFrom(p, f, x, n, s1.(env := [[(x, Int(n))]], returning := None, depth := 1));
  }
}
