/** What every value of a run keeps, at any depth: an integer is a 64-bit word, and no list is
    longer than the fuel spent so far. */
module ComptimeSpace {
  import opened Wrappers
  import opened Scattering
  import opened ComptimeValues
  import opened Comptime

  predicate Small(v: Value, k: int)
    decreases v
  {
    && (v.Int? ==> MIN <= v.i <= MAX)
    && (v.List? ==> |v.items| <= k && forall i :: 0 <= i < |v.items| ==> Small(v.items[i], k))
  }

  predicate AllSmall(vs: seq<Value>, k: int) { forall i :: 0 <= i < |vs| ==> Small(vs[i], k) }

  predicate ScopeSmall(scope: Scope, k: int) { forall j :: 0 <= j < |scope| ==> Small(scope[j].1, k) }

  predicate EnvSmall(env: Env, k: int) { forall i :: 0 <= i < |env| ==> ScopeSmall(env[i], k) }

  /** Of `cap` steps in all, `cap - s.fuel` are spent, and what is held is as small as that. */
  predicate Within(s: State, cap: nat) {
    && s.fuel <= cap
    && EnvSmall(s.env, cap - s.fuel)
    && (s.returning.Some? ==> Small(s.returning.value, cap - s.fuel))
  }

  predicate Fits(o: Out<Value>, cap: nat) { o.0.Ok? ==> Within(o.1, cap) && Small(o.0.value, cap - o.1.fuel) }
  predicate FitsAll(o: Out<seq<Value>>, cap: nat) { o.0.Ok? ==> Within(o.1, cap) && AllSmall(o.0.value, cap - o.1.fuel) }
  predicate FitsBoth(o: Out<(Value, Value)>, cap: nat) {
    o.0.Ok? ==> Within(o.1, cap) && Small(o.0.value.0, cap - o.1.fuel) && Small(o.0.value.1, cap - o.1.fuel)
  }
  predicate FitsAny<T>(o: Out<T>, cap: nat) { o.0.Ok? ==> Within(o.1, cap) }

  lemma {:induction false} SmallGrows(v: Value, k: int, more: int)
    requires Small(v, k) && k <= more
    ensures Small(v, more)
    decreases v
  {
    if v.List? {
      forall i | 0 <= i < |v.items| ensures Small(v.items[i], more) { SmallGrows(v.items[i], k, more); }
    }
  }

  lemma AllSmallGrows(vs: seq<Value>, k: int, more: int)
    requires AllSmall(vs, k) && k <= more
    ensures AllSmall(vs, more)
  {
    forall i | 0 <= i < |vs| ensures Small(vs[i], more) { SmallGrows(vs[i], k, more); }
  }

  lemma EnvSmallGrows(env: Env, k: int, more: int)
    requires EnvSmall(env, k) && k <= more
    ensures EnvSmall(env, more)
  {
    forall i | 0 <= i < |env| ensures ScopeSmall(env[i], more) {
      forall j | 0 <= j < |env[i]| ensures Small(env[i][j].1, more) { SmallGrows(env[i][j].1, k, more); }
    }
  }

  /** Spending keeps within the cap. */
  lemma WithinShrinks(s: State, fuel: nat, cap: nat)
    requires Within(s, cap) && fuel <= s.fuel
    ensures Within(s.(fuel := fuel), cap)
  {
    hide Small, EnvSmall;
    EnvSmallGrows(s.env, cap - s.fuel, cap - fuel);
    if s.returning.Some? { SmallGrows(s.returning.value, cap - s.fuel, cap - fuel); }
  }

  lemma WithinBind(s: State, x: Ident, v: Value, cap: nat)
    requires |s.env| > 0 && Within(s, cap) && Small(v, cap - s.fuel)
    ensures Within(s.Bind(x, v), cap)
  {
    hide Small;
    var env, last := Bind(s.env, x, v), |s.env| - 1;
    assert ScopeSmall(env[last], cap - s.fuel) by {
      assert ScopeSmall(s.env[last], cap - s.fuel);
    }
  }

  lemma WithinPush(s: State, cap: nat)
    requires Within(s, cap)
    ensures Within(s.Push(), cap)
  {
    hide Small;
  }

  lemma WithinPop(s: State, cap: nat)
    requires |s.env| > 0 && Within(s, cap)
    ensures Within(s.Pop(), cap)
  {
    hide Small;
  }

  lemma {:induction false} ReadSmall(v: Value, path: seq<nat>, k: int)
    requires Small(v, k) && ReadPath(v, path).Ok?
    ensures Small(ReadPath(v, path).value, k)
    decreases |path|
  {
    if path != [] { ReadSmall(v.items[path[0]], path[1..], k); }
  }

  lemma {:induction false} WriteSmall(v: Value, path: seq<nat>, new_: Value, k: int)
    requires Small(v, k) && Small(new_, k) && WritePath(v, path, new_).Ok?
    ensures Small(WritePath(v, path, new_).value, k)
    decreases |path|
  {
    if path != [] {
      WriteSmall(v.items[path[0]], path[1..], new_, k);
      var w := WritePath(v, path, new_).value;
      forall i | 0 <= i < |w.items| ensures Small(w.items[i], k) {
        if i != path[0] { assert Small(v.items[i], k); }
      }
    }
  }

  lemma UpdateSmall(op: Option<BinOp>, place: (Ident, seq<nat>), v: Value, env: Env, k: int)
    requires EnvSmall(env, k) && Small(v, k) && Update(op, place, v, env).Ok?
    ensures EnvSmall(Update(op, place, v, env).value, k)
  {
    hide ReadPath, WritePath, FindIn, IntOp;
    var at := Find(env, place.0).value;
    var cur := env[at.0][at.1].1;
    assert ScopeSmall(env[at.0], k);
    var new_ := Compound(op, Read(env, place.0, place.1).value, v).value;
    assert Small(new_, k) by {
      ReadSmall(cur, place.1, k);
      CompoundSmall(op, Read(env, place.0, place.1).value, v, k);
    }
    var w := WritePath(cur, place.1, new_);
    WriteSmall(cur, place.1, new_, k);
    var scope := env[at.0][at.1 := (env[at.0][at.1].0, w.value)];
    forall j | 0 <= j < |scope| ensures Small(scope[j].1, k) {
      if j != at.1 { assert Small(env[at.0][j].1, k); }
    }
    assert Update(op, place, v, env).value == env[at.0 := scope];
  }

  lemma CompoundSmall(op: Option<BinOp>, cur: Value, v: Value, k: int)
    requires Small(cur, k) && Small(v, k)
    ensures Compound(op, cur, v).Ok? ==> Small(Compound(op, cur, v).value, k)
  {
    hide IntOp;
    if op.Some? && cur.Int? && v.Int? { IntOpSmall(op.value, cur.i, v.i, k); }
  }

  lemma IntOpSmall(op: BinOp, a: int, b: int, k: int)
    requires MIN <= a <= MAX && MIN <= b <= MAX
    ensures IntOp(op, a, b).Ok? ==> Small(IntOp(op, a, b).value, k)
  {
    IntOpStaysInRange(op, a, b);
    IntOpFlat(op, a, b);
  }

  lemma IntOpFlat(op: BinOp, a: int, b: int)
    ensures IntOp(op, a, b).Ok? ==> !IntOp(op, a, b).value.List?
  {
    hide Quotient, Wrapped, ShiftedRight, Bitwise, Pow2;
  }

  /** No operator makes a list, or an integer that is no word. */
  lemma BinarySmall(op: BinOp, l: Value, r: Value, k: int)
    requires Small(l, k) && Small(r, k)
    ensures Binary(op, l, r).Ok? ==> Small(Binary(op, l, r).value, k)
  {
    hide IntOp, StrLess;
    if l.Int? && r.Int? { IntOpSmall(op, l.i, r.i, k); }
  }

  lemma UnarySmall(op: UnOp, v: Value, k: int)
    requires Small(v, k)
    ensures ComptimeValues.Unary(op, v).Ok? ==> Small(ComptimeValues.Unary(op, v).value, k)
  {
  }

  lemma LengthSmall(v: Value, k: int)
    ensures Length(v).Ok? ==> Small(Length(v).value, k)
  {
    hide Wrapped;
  }

  lemma LookupSmall(env: Env, x: Ident, k: int)
    requires EnvSmall(env, k) && Lookup(env, x).Some?
    ensures Small(Lookup(env, x).value, k)
  {
    hide Small;
    var at := Find(env, x).value;
    assert ScopeSmall(env[at.0], k);
  }

  lemma {:induction false} Bounded(p: Program, e: Expr, s: State, cap: nat)
    requires |s.env| > 0 && Within(s, cap)
    ensures Fits(Eval(p, e, s), cap)
    decreases s.fuel, 0, 0
  {
    hide EvalName, EvalAll, EvalRepeat, EvalBoth, EvalLogic, EvalAssign, EvalIf, EvalBlock, EvalFor, EvalCall,
         EnvSmall, Binary, ComptimeValues.Unary, Length;
    if s.fuel > 0 {
      var t := s.Spent();
      WithinShrinks(s, s.fuel - 1, cap);
      match e
      case Name(x) => BoundedName(p, x, t, cap);
      case ArrayLit(elems) => BoundedArray(p, elems, t, cap);
      case Repeat(value, count) => BoundedRepeat(p, value, count, t, cap);
      case Index(base, index) => BoundedIndex(p, base, index, t, cap);
      case Len(base) =>
        Bounded(p, base, t, cap);
        var (r, s1) := Eval(p, base, t);
        if r.Ok? { LengthSmall(r.value, cap - s1.fuel); }
      case Unary(op, rhs) =>
        Bounded(p, rhs, t, cap);
        var (r, s1) := Eval(p, rhs, t);
        if r.Ok? { UnarySmall(op, r.value, cap - s1.fuel); }
      case Arith(op, a, b) =>
        BoundedBoth(p, a, b, t, cap);
        var (r, s1) := EvalBoth(p, a, b, t);
        if r.Ok? { BinarySmall(op, r.value.0, r.value.1, cap - s1.fuel); }
      case Logic(and, a, b) => BoundedLogic(p, and, a, b, t, cap);
      case Assign(op, target, value) => BoundedAssign(p, op, target, value, t, cap);
      case If(cond, thn, els) => BoundedIf(p, cond, thn, els, t, cap);
      case Block(stmts) => BoundedBlock(p, stmts, t, cap);
      case For(tag, head, body, after) => BoundedFor(p, tag, head, body, after, t, cap);
      case Call(f, args) => BoundedCall(p, f, args, t, cap);
      case _ =>
    }
  }

  lemma {:induction false} BoundedName(p: Program, x: Ident, s: State, cap: nat)
    requires |s.env| > 0 && Within(s, cap)
    ensures Fits(EvalName(p, x, s), cap)
    decreases s.fuel, 1, 0
  {
    hide Eval, Small;
    if Lookup(s.env, x).Some? {
      LookupSmall(s.env, x, cap - s.fuel);
    } else if x in p.consts && x !in s.inProgress {
      var t := s.(env := [[]], inProgress := s.inProgress + {x});
      assert EnvSmall([[]], cap - s.fuel);
      Bounded(p, p.consts[x], t, cap);
      var (r, s1) := Eval(p, p.consts[x], t);
      hide EnvSmall;
      EnvSmallGrows(s.env, cap - s.fuel, cap - s1.fuel);
    }
  }

  lemma {:induction false} BoundedAll(p: Program, es: seq<Expr>, s: State, cap: nat)
    requires |s.env| > 0 && Within(s, cap)
    ensures FitsAll(EvalAll(p, es, s), cap)
    decreases s.fuel, 1, |es|
  {
    hide Eval, Small, EnvSmall;
    if es != [] {
      Bounded(p, es[0], s, cap);
      var (r, s1) := Eval(p, es[0], s);
      if r.Ok? {
        BoundedAll(p, es[1..], s1, cap);
        var (rest, s2) := EvalAll(p, es[1..], s1);
        SmallGrows(r.value, cap - s1.fuel, cap - s2.fuel);
      }
    }
  }

  /** Evaluating each element costs at least one step. */
  lemma {:induction false} AllCosts(p: Program, es: seq<Expr>, s: State)
    requires |s.env| > 0
    ensures EvalAll(p, es, s).0.Ok? ==> EvalAll(p, es, s).1.fuel + |es| <= s.fuel
    decreases |es|
  {
    if es != [] {
      var (r, s1) := Eval(p, es[0], s);
      OneCosts(p, es[0], s);
      if r.Ok? { AllCosts(p, es[1..], s1); }
    }
  }

  lemma OneCosts(p: Program, e: Expr, s: State)
    requires |s.env| > 0
    ensures Eval(p, e, s).0.Ok? ==> Eval(p, e, s).1.fuel < s.fuel
  {
    hide EvalName, EvalAll, EvalRepeat, EvalBoth, EvalLogic, EvalAssign, EvalIf, EvalBlock, EvalFor, EvalCall;
  }

  lemma {:induction false} BoundedArray(p: Program, elems: seq<Expr>, s: State, cap: nat)
    requires |s.env| > 0 && Within(s, cap)
    ensures var (r, s1) := EvalAll(p, elems, s);
            Fits((if r.Ok? then Ok(List(r.value)) else Err(r.error), s1), cap)
    decreases s.fuel, 1, |elems| + 1
  {
    hide EvalAll, EnvSmall;
    AllCosts(p, elems, s);
    BoundedAll(p, elems, s, cap);
  }

  lemma {:induction false} BoundedBoth(p: Program, a: Expr, b: Expr, s: State, cap: nat)
    requires |s.env| > 0 && Within(s, cap)
    ensures FitsBoth(EvalBoth(p, a, b, s), cap)
    decreases s.fuel, 1, 0
  {
    hide Eval, Small, EnvSmall;
    Bounded(p, a, s, cap);
    var (x, s1) := Eval(p, a, s);
    if x.Ok? {
      Bounded(p, b, s1, cap);
      var (y, s2) := Eval(p, b, s1);
      SmallGrows(x.value, cap - s1.fuel, cap - s2.fuel);
    }
  }

  lemma {:induction false} BoundedIndex(p: Program, base: Expr, index: Expr, s: State, cap: nat)
    requires |s.env| > 0 && Within(s, cap)
    ensures Fits((if EvalBoth(p, base, index, s).0.Ok?
       then Element(EvalBoth(p, base, index, s).0.value.0, EvalBoth(p, base, index, s).0.value.1)
       else Err(EvalBoth(p, base, index, s).0.error), EvalBoth(p, base, index, s).1), cap)
    decreases s.fuel, 1, 1
  {
    hide EvalBoth, EnvSmall;
    BoundedBoth(p, base, index, s, cap);
  }

  lemma {:induction false} BoundedRepeat(p: Program, value: Expr, count: Expr, s: State, cap: nat)
    requires |s.env| > 0 && Within(s, cap)
    ensures Fits(EvalRepeat(p, value, count, s), cap)
    decreases s.fuel, 1, 0
  {
    hide Eval, EnvSmall;
    Bounded(p, count, s, cap);
    var (c, s1) := Eval(p, count, s);
    if c.Ok? && AsIndex(c.value).Ok? {
      Bounded(p, value, s1, cap);
      var (v, s2) := Eval(p, value, s1);
      if v.Ok? && AsIndex(c.value).value <= s2.fuel {
        WithinShrinks(s2, s2.fuel - AsIndex(c.value).value, cap);
        SmallGrows(v.value, cap - s2.fuel, cap - s2.fuel + AsIndex(c.value).value);
      }
    }
  }

  lemma {:induction false} BoundedLogic(p: Program, and: bool, a: Expr, b: Expr, s: State, cap: nat)
    requires |s.env| > 0 && Within(s, cap)
    ensures Fits(EvalLogic(p, and, a, b, s), cap)
    decreases s.fuel, 1, 0
  {
    hide Eval, EnvSmall, Small;
    Bounded(p, a, s, cap);
    var (x, s1) := Eval(p, a, s);
    if x.Ok? { Bounded(p, b, s1, cap); }
  }

  lemma {:induction false} BoundedIf(p: Program, cond: Expr, thn: seq<Stmt>, els: Option<Expr>, s: State, cap: nat)
    requires |s.env| > 0 && Within(s, cap)
    ensures Fits(EvalIf(p, cond, thn, els, s), cap)
    decreases s.fuel, 3, 0
  {
    hide Eval, EvalBlock, EnvSmall;
    Bounded(p, cond, s, cap);
    var (c, s1) := Eval(p, cond, s);
    if c.Ok? {
      BoundedBlock(p, thn, s1, cap);
      if els.Some? { Bounded(p, els.value, s1, cap); }
    }
  }

  lemma {:induction false} BoundedPlace(p: Program, target: Expr, s: State, cap: nat)
    requires |s.env| > 0 && Within(s, cap)
    ensures FitsAny(EvalPlace(p, target, s), cap)
    decreases s.fuel, 1, PlaceDepth(target)
  {
    hide Eval, EnvSmall, Small;
    if target.Index? {
      BoundedPlace(p, target.base, s, cap);
      var (place, s1) := EvalPlace(p, target.base, s);
      if place.Ok? { Bounded(p, target.index, s1, cap); }
    }
  }

  lemma {:induction false} BoundedAssign(p: Program, op: Option<BinOp>, target: Expr, value: Expr, s: State, cap: nat)
    requires |s.env| > 0 && Within(s, cap)
    ensures Fits(EvalAssign(p, op, target, value, s), cap)
    decreases s.fuel, 3, 0
  {
    hide Eval, EvalPlace, Update, EnvSmall;
    Bounded(p, value, s, cap);
    var (v, s1) := Eval(p, value, s);
    if v.Ok? {
      BoundedPlace(p, target, s1, cap);
      var (place, s2) := EvalPlace(p, target, s1);
      if place.Ok? && Update(op, place.value, v.value, s2.env).Ok? {
        SmallGrows(v.value, cap - s1.fuel, cap - s2.fuel);
        UpdateSmall(op, place.value, v.value, s2.env, cap - s2.fuel);
      }
    }
  }

  lemma {:induction false} BoundedBlock(p: Program, stmts: seq<Stmt>, s: State, cap: nat)
    requires |s.env| > 0 && Within(s, cap)
    ensures Fits(EvalBlock(p, stmts, s), cap)
    decreases s.fuel, 2, 0
  {
    hide EvalStmts, EnvSmall;
    WithinPush(s, cap);
    BoundedStmts(p, stmts, Unit, s.Push(), cap);
    var (r, s1) := EvalStmts(p, stmts, Unit, s.Push());
    if r.Ok? { WithinPop(s1, cap); }
  }

  lemma {:induction false} BoundedStmts(p: Program, stmts: seq<Stmt>, tail: Value, s: State, cap: nat)
    requires |s.env| > 0 && Within(s, cap) && Small(tail, cap - s.fuel)
    ensures Fits(EvalStmts(p, stmts, tail, s), cap)
    decreases s.fuel, 1, 2 * |stmts|
  {
    hide Eval, Proceed, EnvSmall;
    if stmts != [] {
      assert Small(Unit, 0);
      match stmts[0]
      case Let(x, init) =>
        if init.Some? {
          Bounded(p, init.value, s, cap);
          var (v, s1) := Eval(p, init.value, s);
          if v.Ok? {
            WithinBind(s1, x, v.value, cap);
            BoundedRest(p, stmts[1..], Unit, s1.Bind(x, v.value), cap);
          }
        }
      case Return(result) =>
        if result.Some? { Bounded(p, result.value, s, cap); }
      case Do(e) =>
        Bounded(p, e, s, cap);
        var (v, s1) := Eval(p, e, s);
        if v.Ok? { BoundedRest(p, stmts[1..], if |stmts| == 1 then v.value else Unit, s1, cap); }
    }
  }

  lemma {:induction false} BoundedRest(p: Program, rest: seq<Stmt>, tail: Value, s: State, cap: nat)
    requires |s.env| > 0 && Within(s, cap) && Small(tail, cap - s.fuel)
    ensures Fits(Proceed(p, rest, tail, s), cap)
    decreases s.fuel, 1, 2 * |rest| + 1
  {
    hide EvalStmts, EnvSmall;
    BoundedStmts(p, rest, tail, s, cap);
  }

  lemma {:induction false} BoundedFor(p: Program, tag: Option<Ident>, head: Head, body: seq<Stmt>, after: Else, s: State, cap: nat)
    requires |s.env| > 0 && Within(s, cap)
    ensures Fits(EvalFor(p, tag, head, body, after, s), cap)
    decreases s.fuel, 5, 0
  {
    hide EvalLoop, EvalBlock, EnvSmall;
    BoundedLoop(p, tag, head, body, s, cap);
    var (broke, s1) := EvalLoop(p, tag, head, body, s);
    if broke.Ok? && after.Else? { BoundedBlock(p, after.stmts, s1, cap); }
  }

  lemma {:induction false} BoundedLoop(p: Program, tag: Option<Ident>, head: Head, body: seq<Stmt>, s: State, cap: nat)
    requires |s.env| > 0 && Within(s, cap)
    ensures FitsAny(EvalLoop(p, tag, head, body, s), cap)
    decreases s.fuel, 4, 0
  {
    hide LoopForever, LoopWhile, LoopItems, EvalItems, EnvSmall;
    match head
    case Infinite => BoundedForever(p, tag, body, s, cap);
    case While(cond) => BoundedWhile(p, tag, cond, body, s, cap);
    case Iter(binds, sources, step) =>
      BoundedSource(p, binds, sources, step, s, cap);
      var (items, s1) := EvalItems(p, binds, sources, step, s);
      if items.Ok? { BoundedItems(p, tag, binds, items.value, 0, body, s1, cap); }
  }

  lemma {:induction false} BoundedBody(p: Program, tag: Option<Ident>, body: seq<Stmt>, s: State, cap: nat)
    requires |s.env| > 0 && Within(s, cap)
    ensures FitsAny(RunBody(p, tag, body, s), cap)
    decreases s.fuel, 3, 0
  {
    hide EvalBlock, EnvSmall;
    BoundedBlock(p, body, s, cap);
  }

  lemma {:induction false} BoundedForever(p: Program, tag: Option<Ident>, body: seq<Stmt>, s: State, cap: nat)
    requires |s.env| > 0 && Within(s, cap)
    ensures FitsAny(LoopForever(p, tag, body, s), cap)
    decreases s.fuel, 1, 0
  {
    hide RunBody, EnvSmall;
    if s.fuel > 0 {
      WithinShrinks(s, s.fuel - 1, cap);
      BoundedBody(p, tag, body, s.Spent(), cap);
      var (turn, s1) := RunBody(p, tag, body, s.Spent());
      if turn.Ok? { BoundedForever(p, tag, body, s1, cap); }
    }
  }

  lemma {:induction false} BoundedWhile(p: Program, tag: Option<Ident>, cond: Expr, body: seq<Stmt>, s: State, cap: nat)
    requires |s.env| > 0 && Within(s, cap)
    ensures FitsAny(LoopWhile(p, tag, cond, body, s), cap)
    decreases s.fuel, 1, 0
  {
    hide RunBody, Eval, EnvSmall, Small;
    if s.fuel > 0 {
      WithinShrinks(s, s.fuel - 1, cap);
      Bounded(p, cond, s.Spent(), cap);
      var (c, s1) := Eval(p, cond, s.Spent());
      if c.Ok? {
        BoundedBody(p, tag, body, s1, cap);
        var (turn, s2) := RunBody(p, tag, body, s1);
        if turn.Ok? { BoundedWhile(p, tag, cond, body, s2, cap); }
      }
    }
  }

  lemma {:induction false} BoundedItems(p: Program, tag: Option<Ident>, binds: seq<Ident>, items: seq<Value>, i: nat,
                                        body: seq<Stmt>, s: State, cap: nat)
    requires |s.env| > 0 && Within(s, cap) && i <= |items| && AllSmall(items, cap - s.fuel)
    ensures FitsAny(LoopItems(p, tag, binds, items, i, body, s), cap)
    decreases s.fuel, 1, 0
  {
    hide RunBody, Opened, EnvSmall, Small;
    if i < |items| && s.fuel > 0 {
      var t := Opened(binds, items, i, s.Spent());
      WithinShrinks(s, s.fuel - 1, cap);
      SmallGrows(items[i], cap - s.fuel, cap - s.fuel + 1);
      OpenedWithin(binds, items, i, s.Spent(), cap);
      BoundedBody(p, tag, body, t, cap);
      var (turn, s1) := RunBody(p, tag, body, t);
      if turn.Ok? {
        WithinPop(s1, cap);
        AllSmallGrows(items, cap - s.fuel, cap - s1.fuel);
        BoundedItems(p, tag, binds, items, i + 1, body, s1.Pop(), cap);
      }
    }
  }

  lemma OpenedWithin(binds: seq<Ident>, items: seq<Value>, i: nat, s: State, cap: nat)
    requires i < |items| && Within(s, cap) && Small(items[i], cap - s.fuel)
    ensures Within(Opened(binds, items, i, s), cap)
  {
    hide EnvSmall;
    WithinPush(s, cap);
    if |binds| > 0 {
      WithinBind(s.Push(), binds[0], items[i], cap);
      if |binds| > 1 {
        assert Small(Counted(i), cap - s.fuel);
        WithinBind(s.Push().Bind(binds[0], items[i]), binds[1], Counted(i), cap);
      }
    }
  }

  lemma {:induction false} BoundedSource(p: Program, binds: seq<Ident>, sources: seq<Source>, step: Option<Expr>, s: State, cap: nat)
    requires |s.env| > 0 && Within(s, cap)
    ensures FitsAll(EvalItems(p, binds, sources, step, s), cap)
    decreases s.fuel, 2, 0
  {
    hide Eval, EvalInt, EvalStride, RangeItems, EnvSmall;
    BoundedStride(p, step, s, cap);
    var (stride, s1) := EvalStride(p, step, s);
    if |sources| == 1 && stride.Ok? {
      match sources[0]
      case Range(lo, hi, inclusive) =>
        if lo.Some? && hi.Some? {
          BoundedInt(p, lo.value, s1, cap);
          var (a, s2) := EvalInt(p, lo.value, s1);
          if a.Ok? {
            BoundedInt(p, hi.value, s2, cap);
            var (b, s3) := EvalInt(p, hi.value, s2);
            if b.Ok? { RangeBounded(a.value, b.value, stride.value, inclusive, s3, cap); }
          }
        }
      case Values(e) => Bounded(p, e, s1, cap);
    }
  }

  lemma {:induction false} BoundedStride(p: Program, step: Option<Expr>, s: State, cap: nat)
    requires |s.env| > 0 && Within(s, cap)
    ensures FitsAny(EvalStride(p, step, s), cap)
    decreases s.fuel, 1, 1
  {
    hide EvalInt, EnvSmall, Small;
    if step.Some? { BoundedInt(p, step.value, s, cap); }
  }

  lemma {:induction false} BoundedInt(p: Program, e: Expr, s: State, cap: nat)
    requires |s.env| > 0 && Within(s, cap)
    ensures FitsAny(EvalInt(p, e, s), cap)
    ensures var (r, _) := EvalInt(p, e, s); r.Ok? ==> MIN <= r.value <= MAX
    decreases s.fuel, 1, 0
  {
    hide Eval, EnvSmall;
    Bounded(p, e, s, cap);
  }

  lemma {:induction false} BoundedCall(p: Program, f: Ident, args: seq<Expr>, s: State, cap: nat)
    requires |s.env| > 0 && Within(s, cap)
    ensures Fits(EvalCall(p, f, args, s), cap)
    decreases s.fuel, 4, 0
  {
    hide EvalAll, EvalBlock, Small;
    if Callable(p, f, |args|, s.depth).None? {
      BoundedAll(p, args, s, cap);
      var (vs, s1) := EvalAll(p, args, s);
      if vs.Ok? {
        var scope := Bound(p.fns[f].params, vs.value);
        var callee := s1.(env := [scope], returning := None, depth := s1.depth + 1);
        assert ScopeSmall(scope, cap - s1.fuel);
        assert EnvSmall([scope], cap - s1.fuel);
        BoundedBlock(p, p.fns[f].body, callee, cap);
        var (v, s2) := EvalBlock(p, p.fns[f].body, callee);
        hide EnvSmall;
        WithinShrinks(s1, s2.fuel, cap);
      }
    }
  }

  lemma {:induction false} RangeBounded(i: int, hi: int, stride: int, inclusive: bool, s: State, cap: nat)
    requires Within(s, cap) && MIN <= i <= MAX
    ensures FitsAll(RangeItems(i, hi, stride, inclusive, s), cap)
    decreases s.fuel
  {
    hide EnvSmall;
    if InRange(i, hi, stride, inclusive) && s.fuel > 0 && MIN <= i + stride <= MAX {
      WithinShrinks(s, s.fuel - 1, cap);
      RangeBounded(i + stride, hi, stride, inclusive, s.Spent(), cap);
    }
  }

  /** The value of a constant holds no list longer than the whole budget. */
  lemma TablesFitTheBudget(p: Program, e: Expr)
    requires EvalTop(p, e).Ok?
    ensures Small(EvalTop(p, e).value, FUEL)
  {
    hide Eval;
    Bounded(p, e, Fresh([[]]), FUEL);
    var (r, s) := Eval(p, e, Fresh([[]]));
    SmallGrows(r.value, FUEL - s.fuel, FUEL);
  }
}
