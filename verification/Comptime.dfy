/** The compile-time interpreter as it runs: one step budget, and `return`, `break` and
    `continue` carried outwards by two flags that every block looks at. */
module Comptime {
  import opened Wrappers
  import opened ComptimeValues

  datatype Expr =
    | Num(i: int)
    | Truth(b: bool)
    | Text(s: string)
    | Other
    | Name(x: Ident)
    | ArrayLit(elems: seq<Expr>)
    | Repeat(value: Expr, count: Expr)
    | Index(base: Expr, index: Expr)
    | Len(base: Expr)
    | Unary(uop: UnOp, rhs: Expr)
    | Arith(op: BinOp, l: Expr, r: Expr)
    | Logic(and: bool, l: Expr, r: Expr)
    | Assign(aop: Option<BinOp>, target: Expr, value: Expr)
    | If(cond: Expr, thn: seq<Stmt>, els: Option<Expr>)
    | Block(stmts: seq<Stmt>)
    | For(tag: Option<Ident>, head: Head, body: seq<Stmt>, after: Else)
    | Break(to: Option<Ident>)
    | Continue(to: Option<Ident>)
    | Call(f: Ident, args: seq<Expr>)

  datatype Else = NoElse | Else(stmts: seq<Stmt>)
  datatype Stmt = Let(x: Ident, init: Option<Expr>) | Return(result: Option<Expr>) | Do(e: Expr)
  datatype Head = Infinite | While(cond: Expr) | Iter(binds: seq<Ident>, sources: seq<Source>, step: Option<Expr>)
  datatype Source = Range(lo: Option<Expr>, hi: Option<Expr>, inclusive: bool) | Values(e: Expr)

  /** `erased` says that a parameter has no run-time argument (`self`, `comptime`). */
  datatype Fn = Fn(params: seq<Ident>, erased: bool, body: seq<Stmt>)
  datatype Program = Program(consts: map<Ident, Expr>, fns: map<Ident, Fn>)

  const FUEL: nat := 100_000
  const MAX_DEPTH: nat := 64

  datatype Ctl = BreakTo(to: Option<Ident>) | ContinueTo(to: Option<Ident>)

  predicate Targets(to: Option<Ident>, tag: Option<Ident>) { to.None? || to == tag }

  datatype State = State(
    env: Env,
    fuel: nat,
    depth: nat,
    returning: Option<Value>,
    loopCtl: Option<Ctl>,
    inProgress: set<Ident>)
  {
    function Spent(): State
      requires fuel > 0
    {
      this.(fuel := fuel - 1)
    }

    function Push(): State { this.(env := env + [[]]) }

    function Pop(): State
      requires |env| > 0
    {
      this.(env := env[..|env| - 1])
    }

    function Bind(x: Ident, v: Value): State
      requires |env| > 0
    {
      this.(env := ComptimeValues.Bind(env, x, v))
    }
  }

  type Out<T> = (Result<T, Error>, State)

  /** What every step keeps, on success and on error: the scopes open, the call depth and
      the constants in progress; and fuel is only ever spent. */
  predicate Kept(before: State, after: State) {
    && after.fuel <= before.fuel
    && |after.env| == |before.env|
    && after.depth == before.depth
    && after.inProgress == before.inProgress
  }

  // ----- parts that evaluate nothing -----

  function Produce(n: nat, v: Value, s: State): (o: Out<Value>)
    ensures Kept(s, o.1) && o.1 == s.(fuel := o.1.fuel)
  {
    if n <= s.fuel then (Ok(List(seq(n, i => v))), s.(fuel := s.fuel - n)) else (Err(OutOfFuel), s.(fuel := 0))
  }

  predicate InRange(i: int, hi: int, stride: int, inclusive: bool) {
    if stride > 0 then (if inclusive then i <= hi else i < hi) else (if inclusive then i >= hi else i > hi)
  }

  function RangeItems(i: int, hi: int, stride: int, inclusive: bool, s: State): (o: Out<seq<Value>>)
    ensures Kept(s, o.1) && o.1 == s.(fuel := o.1.fuel)
    decreases s.fuel
  {
    if !InRange(i, hi, stride, inclusive) then (Ok([]), s)
    else if s.fuel == 0 then (Err(OutOfFuel), s)
    else if !(MIN <= i + stride <= MAX) then (Err(Overflow), s.Spent())
    else
      var (r, s1) := RangeItems(i + stride, hi, stride, inclusive, s.Spent());
      (if r.Ok? then Ok([Int(i)] + r.value) else r, s1)
  }

  function Bound(params: seq<Ident>, args: seq<Value>): Scope
    requires |params| == |args|
  {
    seq(|params|, i requires 0 <= i < |params| => (params[i], args[i]))
  }

  function PlaceDepth(e: Expr): nat {
    match e
    case Index(base, _) => 1 + PlaceDepth(base)
    case _ => 0
  }

  // ----- expressions -----

  function Eval(p: Program, e: Expr, s0: State): (o: Out<Value>)
    requires |s0.env| > 0
    ensures Kept(s0, o.1)
    decreases s0.fuel, 0, 0
  {
    if s0.fuel == 0 then (Err(OutOfFuel), s0)
    else
      var s := s0.Spent();
      match e
      case Num(i) => (Literal(i), s)
      case Truth(b) => (Ok(Bool(b)), s)
      case Text(t) => (Ok(Str(t)), s)
      case Other => (Err(NotConstant), s)
      case Name(x) => EvalName(p, x, s)
      case ArrayLit(elems) =>
        var (r, s1) := EvalAll(p, elems, s);
        (if r.Ok? then Ok(List(r.value)) else Err(r.error), s1)
      case Repeat(value, count) => EvalRepeat(p, value, count, s)
      case Index(base, index) =>
        var (r, s1) := EvalBoth(p, base, index, s);
        (if r.Ok? then Element(r.value.0, r.value.1) else Err(r.error), s1)
      case Len(base) =>
        var (r, s1) := Eval(p, base, s);
        (if r.Ok? then Length(r.value) else r, s1)
      case Unary(op, rhs) =>
        var (r, s1) := Eval(p, rhs, s);
        (if r.Ok? then ComptimeValues.Unary(op, r.value) else r, s1)
      case Arith(op, a, b) =>
        var (r, s1) := EvalBoth(p, a, b, s);
        (if r.Ok? then Binary(op, r.value.0, r.value.1) else Err(r.error), s1)
      case Logic(and, l, r) => EvalLogic(p, and, l, r, s)
      case Assign(op, target, value) => EvalAssign(p, op, target, value, s)
      case If(cond, thn, els) => EvalIf(p, cond, thn, els, s)
      case Block(stmts) => EvalBlock(p, stmts, s)
      case For(tag, head, body, after) => EvalFor(p, tag, head, body, after, s)
      case Break(to) => (Ok(Unit), s.(loopCtl := Some(BreakTo(to))))
      case Continue(to) => (Ok(Unit), s.(loopCtl := Some(ContinueTo(to))))
      case Call(f, args) => EvalCall(p, f, args, s)
  }

  function EvalName(p: Program, x: Ident, s: State): (o: Out<Value>)
    requires |s.env| > 0
    ensures Kept(s, o.1)
    decreases s.fuel, 1, 0
  {
    match Lookup(s.env, x)
    case Some(v) => (Ok(v), s)
    case None =>
      if x !in p.consts then (Err(NotConstant), s)
      else if x in s.inProgress then (Err(Cyclic), s)
      else
        var (r, s1) := Eval(p, p.consts[x], s.(env := [[]], inProgress := s.inProgress + {x}));
        (r, s1.(env := s.env, inProgress := s.inProgress))
  }

  function EvalAll(p: Program, es: seq<Expr>, s: State): (o: Out<seq<Value>>)
    requires |s.env| > 0
    ensures Kept(s, o.1) && (o.0.Ok? ==> |o.0.value| == |es|)
    decreases s.fuel, 1, |es|
  {
    if es == [] then (Ok([]), s)
    else
      var (r, s1) := Eval(p, es[0], s);
      if r.Err? then (Err(r.error), s1)
      else
        var (rest, s2) := EvalAll(p, es[1..], s1);
        (if rest.Ok? then Ok([r.value] + rest.value) else rest, s2)
  }

  function EvalRepeat(p: Program, value: Expr, count: Expr, s: State): (o: Out<Value>)
    requires |s.env| > 0
    ensures Kept(s, o.1)
    decreases s.fuel, 1, 0
  {
    var (c, s1) := Eval(p, count, s);
    if c.Err? then (c, s1)
    else
      match AsIndex(c.value)
      case Err(e) => (Err(e), s1)
      case Ok(n) =>
        var (v, s2) := Eval(p, value, s1);
        if v.Err? then (v, s2) else Produce(n, v.value, s2)
  }

  /** Two operands, left to right. */
  function EvalBoth(p: Program, a: Expr, b: Expr, s: State): (o: Out<(Value, Value)>)
    requires |s.env| > 0
    ensures Kept(s, o.1)
    decreases s.fuel, 1, 0
  {
    var (x, s1) := Eval(p, a, s);
    if x.Err? then (Err(x.error), s1)
    else
      var (y, s2) := Eval(p, b, s1);
      (if y.Ok? then Ok((x.value, y.value)) else Err(y.error), s2)
  }

  function EvalLogic(p: Program, and: bool, l: Expr, r: Expr, s: State): (o: Out<Value>)
    requires |s.env| > 0
    ensures Kept(s, o.1)
    decreases s.fuel, 1, 0
  {
    var (a, s1) := Eval(p, l, s);
    if a.Err? then (a, s1)
    else if !a.value.Bool? then (Err(WrongType), s1)
    else if a.value.b != and then (a, s1)
    else
      var (b, s2) := Eval(p, r, s1);
      (if b.Ok? && !b.value.Bool? then Err(WrongType) else b, s2)
  }

  function EvalIf(p: Program, cond: Expr, thn: seq<Stmt>, els: Option<Expr>, s: State): (o: Out<Value>)
    requires |s.env| > 0
    ensures Kept(s, o.1)
    decreases s.fuel, 3, 0
  {
    var (c, s1) := Eval(p, cond, s);
    if c.Err? then (c, s1)
    else if !c.value.Bool? then (Err(WrongType), s1)
    else if c.value.b then
      var (v, s2) := EvalBlock(p, thn, s1);
      (if v.Ok? && els.None? then Ok(Unit) else v, s2)
    else if els.Some? then Eval(p, els.value, s1)
    else (Ok(Unit), s1)
  }

  // ----- assignment -----

  function EvalPlace(p: Program, target: Expr, s: State): (o: Out<(Ident, seq<nat>)>)
    requires |s.env| > 0
    ensures Kept(s, o.1)
    decreases s.fuel, 1, PlaceDepth(target)
  {
    match target
    case Name(x) => (Ok((x, [])), s)
    case Index(base, index) =>
      var (place, s1) := EvalPlace(p, base, s);
      if place.Err? then (place, s1)
      else
        var (i, s2) := Eval(p, index, s1);
        if i.Err? then (Err(i.error), s2)
        else
          var ix := AsIndex(i.value);
          (if ix.Ok? then Ok((place.value.0, place.value.1 + [ix.value])) else Err(ix.error), s2)
    case _ => (Err(BadTarget), s)
  }

  /** The write itself, once the place and the value are known. */
  function Update(op: Option<BinOp>, place: (Ident, seq<nat>), v: Value, env: Env): (r: Result<Env, Error>)
    ensures r.Ok? ==> |r.value| == |env|
  {
    match Read(env, place.0, place.1)
    case Err(e) => Err(e)
    case Ok(cur) =>
      match Compound(op, cur, v)
      case Err(e) => Err(e)
      case Ok(new_) => Write(env, place.0, place.1, new_)
  }

  function EvalAssign(p: Program, op: Option<BinOp>, target: Expr, value: Expr, s: State): (o: Out<Value>)
    requires |s.env| > 0
    ensures Kept(s, o.1)
    decreases s.fuel, 3, 0
  {
    var (v, s1) := Eval(p, value, s);
    if v.Err? then (v, s1)
    else
      var (place, s2) := EvalPlace(p, target, s1);
      if place.Err? then (Err(place.error), s2)
      else
        match Update(op, place.value, v.value, s2.env)
        case Err(e) => (Err(e), s2)
        case Ok(env) => (Ok(Unit), s2.(env := env))
  }

  // ----- blocks -----

  function EvalBlock(p: Program, stmts: seq<Stmt>, s: State): (o: Out<Value>)
    requires |s.env| > 0
    ensures Kept(s, o.1)
    decreases s.fuel, 2, 0
  {
    var (r, s1) := EvalStmts(p, stmts, Unit, s.Push());
    (r, s1.Pop())
  }

  function EvalStmts(p: Program, stmts: seq<Stmt>, tail: Value, s: State): (o: Out<Value>)
    requires |s.env| > 0
    ensures Kept(s, o.1)
    decreases s.fuel, 1, |stmts|
  {
    if stmts == [] then (Ok(tail), s)
    else
      match stmts[0]
      case Let(x, init) =>
        if init.None? then (Err(NoInitializer), s)
        else
          var (v, s1) := Eval(p, init.value, s);
          if v.Err? then (v, s1) else Proceed(p, stmts[1..], Unit, s1.Bind(x, v.value))
      case Return(result) =>
        var (v, s1) := if result.Some? then Eval(p, result.value, s) else (Ok(Unit), s);
        if v.Err? then (v, s1)
        else (v, if s1.returning.None? then s1.(returning := Some(v.value)) else s1)
      case Do(e) =>
        var (v, s1) := Eval(p, e, s);
        if v.Err? then (v, s1) else Proceed(p, stmts[1..], if |stmts| == 1 then v.value else Unit, s1)
  }

  /** After a statement: stop when a flag is up, else go on with the rest. */
  function Proceed(p: Program, rest: seq<Stmt>, tail: Value, s: State): (o: Out<Value>)
    requires |s.env| > 0
    ensures Kept(s, o.1)
    decreases s.fuel, 1, |rest| + 1
  {
    if s.returning.Some? then (Ok(s.returning.value), s)
    else if s.loopCtl.Some? then (Ok(Unit), s)
    else EvalStmts(p, rest, tail, s)
  }

  // ----- loops -----

  datatype Turn = Again | Stop(broke: bool)

  function EvalFor(p: Program, tag: Option<Ident>, head: Head, body: seq<Stmt>, after: Else, s: State)
      : (o: Out<Value>)
    requires |s.env| > 0
    ensures Kept(s, o.1)
    decreases s.fuel, 5, 0
  {
    var (broke, s1) := EvalLoop(p, tag, head, body, s);
    if broke.Err? then (Err(broke.error), s1)
    else if !broke.value && after.Else? then
      var (v, s2) := EvalBlock(p, after.stmts, s1);
      (if v.Ok? then Ok(Unit) else v, s2)
    else (Ok(Unit), s1)
  }

  function EvalLoop(p: Program, tag: Option<Ident>, head: Head, body: seq<Stmt>, s: State): (o: Out<bool>)
    requires |s.env| > 0
    ensures Kept(s, o.1)
    decreases s.fuel, 4, 0
  {
    match head
    case Infinite => LoopForever(p, tag, body, s)
    case While(cond) => LoopWhile(p, tag, cond, body, s)
    case Iter(binds, sources, step) =>
      var (items, s1) := EvalItems(p, binds, sources, step, s);
      if items.Err? then (Err(items.error), s1) else LoopItems(p, tag, binds, items.value, 0, body, s1)
  }

  function RunBody(p: Program, tag: Option<Ident>, body: seq<Stmt>, s: State): (o: Out<Turn>)
    requires |s.env| > 0
    ensures Kept(s, o.1)
    decreases s.fuel, 3, 0
  {
    var (v, s1) := EvalBlock(p, body, s);
    if v.Err? then (Err(v.error), s1)
    else if s1.returning.Some? then (Ok(Stop(false)), s1)
    else
      match s1.loopCtl
      case None => (Ok(Again), s1)
      case Some(ctl) =>
        if !Targets(ctl.to, tag) then (Ok(Stop(false)), s1)
        else (Ok(if ctl.BreakTo? then Stop(true) else Again), s1.(loopCtl := None))
  }

  function LoopForever(p: Program, tag: Option<Ident>, body: seq<Stmt>, s: State): (o: Out<bool>)
    requires |s.env| > 0
    ensures Kept(s, o.1)
    decreases s.fuel, 1, 0
  {
    if s.fuel == 0 then (Err(OutOfFuel), s)
    else
      var (turn, s1) := RunBody(p, tag, body, s.Spent());
      if turn.Err? then (Err(turn.error), s1)
      else if turn.value.Stop? then (Ok(turn.value.broke), s1)
      else LoopForever(p, tag, body, s1)
  }

  function LoopWhile(p: Program, tag: Option<Ident>, cond: Expr, body: seq<Stmt>, s: State): (o: Out<bool>)
    requires |s.env| > 0
    ensures Kept(s, o.1)
    decreases s.fuel, 1, 0
  {
    if s.fuel == 0 then (Err(OutOfFuel), s)
    else
      var (c, s1) := Eval(p, cond, s.Spent());
      if c.Err? then (Err(c.error), s1)
      else if !c.value.Bool? then (Err(WrongType), s1)
      else if !c.value.b then (Ok(false), s1)
      else
        var (turn, s2) := RunBody(p, tag, body, s1);
        if turn.Err? then (Err(turn.error), s2)
        else if turn.value.Stop? then (Ok(turn.value.broke), s2)
        else LoopWhile(p, tag, cond, body, s2)
  }

  /** One binding is the element; a second is its position. */
  function Opened(binds: seq<Ident>, items: seq<Value>, i: nat, s: State): (s1: State)
    requires i < |items|
    ensures |s1.env| == |s.env| + 1 && s1 == s.(env := s1.env)
  {
    var s1 := if |binds| > 0 then s.Push().Bind(binds[0], items[i]) else s.Push();
    if |binds| > 1 then s1.Bind(binds[1], Counted(i)) else s1
  }

  function LoopItems(p: Program, tag: Option<Ident>, binds: seq<Ident>, items: seq<Value>, i: nat, body: seq<Stmt>, s: State)
      : (o: Out<bool>)
    requires |s.env| > 0 && i <= |items|
    ensures Kept(s, o.1)
    decreases s.fuel, 1, 0
  {
    if i == |items| then (Ok(false), s)
    else if s.fuel == 0 then (Err(OutOfFuel), s)
    else
      var (turn, s1) := RunBody(p, tag, body, Opened(binds, items, i, s.Spent()));
      var s2 := s1.Pop();
      if turn.Err? then (Err(turn.error), s2)
      else if turn.value.Stop? then (Ok(turn.value.broke), s2)
      else LoopItems(p, tag, binds, items, i + 1, body, s2)
  }

  function EvalItems(p: Program, binds: seq<Ident>, sources: seq<Source>, step: Option<Expr>, s: State): (o: Out<seq<Value>>)
    requires |s.env| > 0
    ensures Kept(s, o.1)
    decreases s.fuel, 2, 0
  {
    if binds == [] || |binds| > 2 || |sources| != 1 then (Err(LoopShape), s)
    else
      var (stride, s1) := EvalStride(p, step, s);
      if stride.Err? then (Err(stride.error), s1)
      else
        match sources[0]
        case Range(lo, hi, inclusive) =>
          if lo.None? || hi.None? then (Err(OpenRange), s1)
          else
            var (a, s2) := EvalInt(p, lo.value, s1);
            if a.Err? then (Err(a.error), s2)
            else
              var (b, s3) := EvalInt(p, hi.value, s2);
              if b.Err? then (Err(b.error), s3) else RangeItems(a.value, b.value, stride.value, inclusive, s3)
        case Values(e) =>
          var (v, s2) := Eval(p, e, s1);
          if v.Err? then (Err(v.error), s2)
          else (if v.value.List? then Ok(v.value.items) else Err(WrongType), s2)
  }

  function EvalStride(p: Program, step: Option<Expr>, s: State): (o: Out<int>)
    requires |s.env| > 0
    ensures Kept(s, o.1)
    decreases s.fuel, 1, 1
  {
    if step.None? then (Ok(1), s)
    else
      var (r, s1) := EvalInt(p, step.value, s);
      (if r == Ok(0) then Err(ZeroStep) else r, s1)
  }

  function EvalInt(p: Program, e: Expr, s: State): (o: Out<int>)
    requires |s.env| > 0
    ensures Kept(s, o.1)
    decreases s.fuel, 1, 0
  {
    var (r, s1) := Eval(p, e, s);
    (if r.Err? then Err(r.error) else if r.value.Int? then Ok(r.value.i) else Err(WrongType), s1)
  }

  // ----- calls -----

  function Callable(p: Program, f: Ident, arity: nat, depth: nat): Option<Error> {
    if f !in p.fns || p.fns[f].erased then Some(NotCallable)
    else if |p.fns[f].params| != arity then Some(BadArity)
    else if depth >= MAX_DEPTH then Some(TooDeep)
    else None
  }

  function EvalCall(p: Program, f: Ident, args: seq<Expr>, s: State): (o: Out<Value>)
    requires |s.env| > 0
    ensures Kept(s, o.1)
    decreases s.fuel, 4, 0
  {
    match Callable(p, f, |args|, s.depth)
    case Some(e) => (Err(e), s)
    case None =>
      var (vs, s1) := EvalAll(p, args, s);
      if vs.Err? then (Err(vs.error), s1)
      else
        var callee := s1.(env := [Bound(p.fns[f].params, vs.value)], returning := None, depth := s1.depth + 1);
        var (v, s2) := EvalBlock(p, p.fns[f].body, callee);
        (if v.Ok? && s2.returning.Some? then Ok(s2.returning.value) else v,
         s2.(env := s1.env, returning := s1.returning, depth := s1.depth))
  }

  // ----- entry points -----

  function Fresh(env: Env): State { State(env, FUEL, 0, None, None, {}) }

  function EvalTop(p: Program, e: Expr): Result<Value, Error> { Eval(p, e, Fresh([[]])).0 }
}
