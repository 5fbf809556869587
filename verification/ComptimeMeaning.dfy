/** What compile-time code means: a big-step semantics in which a statement ends normally,
    or returns, or transfers to a loop, or fails. There are no flags. */
module ComptimeMeaning {
  import opened Wrappers
  import opened ComptimeValues
  import opened Comptime

  datatype Signal<+T> = Normal(v: T) | Returned(result: Value) | Jumped(ctl: Ctl) | Failed(error: Error)
  datatype Run<+T> = Run(sig: Signal<T>, env: Env, fuel: nat)

  /** The call a piece of code belongs to. */
  datatype Frame = Frame(depth: nat, inProgress: set<Ident>)

  /** An abrupt ending passes through any form unchanged. */
  function Abrupt<T, U>(r: Run<T>): Run<U>
    requires !r.sig.Normal?
  {
    match r.sig
    case Returned(v) => Run(Returned(v), r.env, r.fuel)
    case Jumped(ctl) => Run(Jumped(ctl), r.env, r.fuel)
    case Failed(e) => Run(Failed(e), r.env, r.fuel)
  }

  function Lift<T>(r: Result<T, Error>, env: Env, fuel: nat): Run<T> {
    Run(if r.Ok? then Normal(r.value) else Failed(r.error), env, fuel)
  }

  predicate Less<T>(r: Run<T>, env: Env, fuel: nat) { r.fuel <= fuel && |r.env| == |env| }

  // ----- expressions -----

  function Exec(p: Program, e: Expr, env: Env, fuel0: nat, c: Frame): (r: Run<Value>)
    requires |env| > 0
    ensures Less(r, env, fuel0)
    decreases fuel0, 0, 0
  {
    if fuel0 == 0 then Run(Failed(OutOfFuel), env, 0)
    else
      var fuel := fuel0 - 1;
      match e
      case Num(i) => Lift(Literal(i), env, fuel)
      case Truth(b) => Run(Normal(Bool(b)), env, fuel)
      case Text(t) => Run(Normal(Str(t)), env, fuel)
      case Other => Run(Failed(NotConstant), env, fuel)
      case Name(x) => ExecName(p, x, env, fuel, c)
      case ArrayLit(elems) =>
        var r := ExecAll(p, elems, env, fuel, c);
        if r.sig.Normal? then Run(Normal(List(r.sig.v)), r.env, r.fuel) else Abrupt(r)
      case Repeat(value, count) => ExecRepeat(p, value, count, env, fuel, c)
      case Index(base, index) =>
        var r := ExecBoth(p, base, index, env, fuel, c);
        if r.sig.Normal? then Lift(Element(r.sig.v.0, r.sig.v.1), r.env, r.fuel) else Abrupt(r)
      case Len(base) =>
        var r := Exec(p, base, env, fuel, c);
        if r.sig.Normal? then Lift(Length(r.sig.v), r.env, r.fuel) else r
      case Unary(op, rhs) =>
        var r := Exec(p, rhs, env, fuel, c);
        if r.sig.Normal? then Lift(ComptimeValues.Unary(op, r.sig.v), r.env, r.fuel) else r
      case Arith(op, a, b) =>
        var r := ExecBoth(p, a, b, env, fuel, c);
        if r.sig.Normal? then Lift(Binary(op, r.sig.v.0, r.sig.v.1), r.env, r.fuel) else Abrupt(r)
      case Logic(and, a, b) => ExecLogic(p, and, a, b, env, fuel, c)
      case Assign(op, target, value) => ExecAssign(p, op, target, value, env, fuel, c)
      case If(cond, thn, els) => ExecIf(p, cond, thn, els, env, fuel, c)
      case Block(stmts) => ExecBlock(p, stmts, env, fuel, c)
      case For(tag, head, body, after) => ExecFor(p, tag, head, body, after, env, fuel, c)
      case Break(to) => Run(Jumped(BreakTo(to)), env, fuel)
      case Continue(to) => Run(Jumped(ContinueTo(to)), env, fuel)
      case Call(f, args) => ExecCall(p, f, args, env, fuel, c)
  }

  /** A constant means what its initialiser means in an empty scope. */
  function ExecName(p: Program, x: Ident, env: Env, fuel: nat, c: Frame): (r: Run<Value>)
    requires |env| > 0
    ensures Less(r, env, fuel)
    decreases fuel, 1, 0
  {
    match Lookup(env, x)
    case Some(v) => Run(Normal(v), env, fuel)
    case None =>
      if x !in p.consts then Run(Failed(NotConstant), env, fuel)
      else if x in c.inProgress then Run(Failed(Cyclic), env, fuel)
      else
        var r := Exec(p, p.consts[x], [[]], fuel, c.(inProgress := c.inProgress + {x}));
        Run(OfFrame(r.sig), env, r.fuel)
  }

  /** How a function or a constant ends for its user: a `return` is its value, and no
      transfer leaves it. */
  function OfFrame(sig: Signal<Value>): Signal<Value> {
    match sig
    case Returned(v) => Normal(v)
    case Jumped(_) => Normal(Unit)
    case _ => sig
  }

  function ExecAll(p: Program, es: seq<Expr>, env: Env, fuel: nat, c: Frame): (r: Run<seq<Value>>)
    requires |env| > 0
    ensures Less(r, env, fuel) && (r.sig.Normal? ==> |r.sig.v| == |es|)
    decreases fuel, 1, |es|
  {
    if es == [] then Run(Normal([]), env, fuel)
    else
      var r := Exec(p, es[0], env, fuel, c);
      if !r.sig.Normal? then Abrupt(r)
      else
        var rest := ExecAll(p, es[1..], r.env, r.fuel, c);
        if rest.sig.Normal? then Run(Normal([r.sig.v] + rest.sig.v), rest.env, rest.fuel) else rest
  }

  /** Two operands, left to right. */
  function ExecBoth(p: Program, a: Expr, b: Expr, env: Env, fuel: nat, c: Frame): (r: Run<(Value, Value)>)
    requires |env| > 0
    ensures Less(r, env, fuel)
    decreases fuel, 1, 0
  {
    var x := Exec(p, a, env, fuel, c);
    if !x.sig.Normal? then Abrupt(x)
    else
      var y := Exec(p, b, x.env, x.fuel, c);
      if y.sig.Normal? then Run(Normal((x.sig.v, y.sig.v)), y.env, y.fuel) else Abrupt(y)
  }

  function ExecRepeat(p: Program, value: Expr, count: Expr, env: Env, fuel: nat, c: Frame): (r: Run<Value>)
    requires |env| > 0
    ensures Less(r, env, fuel)
    decreases fuel, 1, 0
  {
    var n := Exec(p, count, env, fuel, c);
    if !n.sig.Normal? then n
    else
      var k := AsIndex(n.sig.v);
      if k.Err? then Run(Failed(k.error), n.env, n.fuel)
      else
        var v := Exec(p, value, n.env, n.fuel, c);
        if !v.sig.Normal? then v
        else if v.fuel < k.value then Run(Failed(OutOfFuel), v.env, 0)
        else Run(Normal(List(seq(k.value, i => v.sig.v))), v.env, v.fuel - k.value)
  }

  function ExecLogic(p: Program, and: bool, a: Expr, b: Expr, env: Env, fuel: nat, c: Frame): (r: Run<Value>)
    requires |env| > 0
    ensures Less(r, env, fuel)
    decreases fuel, 1, 0
  {
    var r := Exec(p, a, env, fuel, c);
    if !r.sig.Normal? then r
    else if !r.sig.v.Bool? then Run(Failed(WrongType), r.env, r.fuel)
    else if r.sig.v.b != and then r
    else
      var q := Exec(p, b, r.env, r.fuel, c);
      if q.sig.Normal? && !q.sig.v.Bool? then Run(Failed(WrongType), q.env, q.fuel) else q
  }

  function ExecIf(p: Program, cond: Expr, thn: seq<Stmt>, els: Option<Expr>, env: Env, fuel: nat, c: Frame): (r: Run<Value>)
    requires |env| > 0
    ensures Less(r, env, fuel)
    decreases fuel, 3, 0
  {
    var r := Exec(p, cond, env, fuel, c);
    if !r.sig.Normal? then r
    else if !r.sig.v.Bool? then Run(Failed(WrongType), r.env, r.fuel)
    else if r.sig.v.b then
      var t := ExecBlock(p, thn, r.env, r.fuel, c);
      if t.sig.Normal? && els.None? then Run(Normal(Unit), t.env, t.fuel) else t
    else if els.Some? then Exec(p, els.value, r.env, r.fuel, c)
    else Run(Normal(Unit), r.env, r.fuel)
  }

  function ExecPlace(p: Program, target: Expr, env: Env, fuel: nat, c: Frame): (r: Run<(Ident, seq<nat>)>)
    requires |env| > 0
    ensures Less(r, env, fuel)
    decreases fuel, 1, PlaceDepth(target)
  {
    match target
    case Name(x) => Run(Normal((x, [])), env, fuel)
    case Index(base, index) =>
      var place := ExecPlace(p, base, env, fuel, c);
      if !place.sig.Normal? then place
      else
        var i := Exec(p, index, place.env, place.fuel, c);
        if !i.sig.Normal? then Abrupt(i)
        else
          var ix := AsIndex(i.sig.v);
          Lift(if ix.Ok? then Ok((place.sig.v.0, place.sig.v.1 + [ix.value])) else Err(ix.error), i.env, i.fuel)
    case _ => Run(Failed(BadTarget), env, fuel)
  }

  function ExecAssign(p: Program, op: Option<BinOp>, target: Expr, value: Expr, env: Env, fuel: nat, c: Frame): (r: Run<Value>)
    requires |env| > 0
    ensures Less(r, env, fuel)
    decreases fuel, 3, 0
  {
    var v := Exec(p, value, env, fuel, c);
    if !v.sig.Normal? then v
    else
      var place := ExecPlace(p, target, v.env, v.fuel, c);
      if !place.sig.Normal? then Abrupt(place)
      else
        var written := Update(op, place.sig.v, v.sig.v, place.env);
        if written.Ok? then Run(Normal(Unit), written.value, place.fuel)
        else Run(Failed(written.error), place.env, place.fuel)
  }

  // ----- statements -----

  function ExecBlock(p: Program, stmts: seq<Stmt>, env: Env, fuel: nat, c: Frame): (r: Run<Value>)
    requires |env| > 0
    ensures Less(r, env, fuel)
    decreases fuel, 2, 0
  {
    var r := ExecStmts(p, stmts, env + [[]], fuel, c);
    r.(env := r.env[..|env|])
  }

  /** A sequence has the value of its last statement; an abrupt one ends it. */
  function ExecStmts(p: Program, stmts: seq<Stmt>, env: Env, fuel: nat, c: Frame): (r: Run<Value>)
    requires |env| > 0
    ensures Less(r, env, fuel)
    decreases fuel, 1, |stmts|
  {
    if stmts == [] then Run(Normal(Unit), env, fuel)
    else
      var first := ExecStmt(p, stmts[0], env, fuel, c);
      if !first.sig.Normal? || |stmts| == 1 then first
      else ExecStmts(p, stmts[1..], first.env, first.fuel, c)
  }

  function ExecStmt(p: Program, st: Stmt, env: Env, fuel: nat, c: Frame): (r: Run<Value>)
    requires |env| > 0
    ensures Less(r, env, fuel)
    decreases fuel, 1, 0
  {
    match st
    case Let(x, init) =>
      if init.None? then Run(Failed(NoInitializer), env, fuel)
      else
        var v := Exec(p, init.value, env, fuel, c);
        if v.sig.Normal? then Run(Normal(Unit), Bind(v.env, x, v.sig.v), v.fuel) else v
    case Return(result) =>
      if result.None? then Run(Returned(Unit), env, fuel)
      else
        var v := Exec(p, result.value, env, fuel, c);
        if v.sig.Normal? then Run(Returned(v.sig.v), v.env, v.fuel) else v
    case Do(e) => Exec(p, e, env, fuel, c)
  }

  // ----- loops -----

  /** `else` runs only when the loop ran out; an abrupt ending skips it. */
  function ExecFor(p: Program, tag: Option<Ident>, head: Head, body: seq<Stmt>, after: Else, env: Env, fuel: nat, c: Frame)
      : (r: Run<Value>)
    requires |env| > 0
    ensures Less(r, env, fuel)
    decreases fuel, 5, 0
  {
    var l := ExecLoop(p, tag, head, body, env, fuel, c);
    if !l.sig.Normal? then Abrupt(l)
    else if l.sig.v || after.NoElse? then Run(Normal(Unit), l.env, l.fuel)
    else
      var a := ExecBlock(p, after.stmts, l.env, l.fuel, c);
      if a.sig.Normal? then Run(Normal(Unit), a.env, a.fuel) else a
  }

  /** Ends normally with whether a `break` of its own ended it. */
  function ExecLoop(p: Program, tag: Option<Ident>, head: Head, body: seq<Stmt>, env: Env, fuel: nat, c: Frame): (r: Run<bool>)
    requires |env| > 0
    ensures Less(r, env, fuel)
    decreases fuel, 4, 0
  {
    match head
    case Infinite => ExecForever(p, tag, body, env, fuel, c)
    case While(cond) => ExecWhile(p, tag, cond, body, env, fuel, c)
    case Iter(binds, sources, step) =>
      var items := ExecSource(p, binds, sources, step, env, fuel, c);
      if items.sig.Normal? then ExecItems(p, tag, binds, items.sig.v, 0, body, items.env, items.fuel, c) else Abrupt(items)
  }

  datatype After = GoOn | Finish(r: Signal<bool>)

  /** What the end of one iteration means to the loop `tag`. */
  function AfterBody(sig: Signal<Value>, tag: Option<Ident>): After {
    match sig
    case Normal(_) => GoOn
    case Returned(v) => Finish(Returned(v))
    case Failed(e) => Finish(Failed(e))
    case Jumped(ctl) =>
      if !Targets(ctl.to, tag) then Finish(Jumped(ctl))
      else if ctl.BreakTo? then Finish(Normal(true))
      else GoOn
  }

  function ExecForever(p: Program, tag: Option<Ident>, body: seq<Stmt>, env: Env, fuel: nat, c: Frame): (r: Run<bool>)
    requires |env| > 0
    ensures Less(r, env, fuel)
    decreases fuel, 1, 0
  {
    if fuel == 0 then Run(Failed(OutOfFuel), env, 0)
    else
      var b := ExecBlock(p, body, env, fuel - 1, c);
      match AfterBody(b.sig, tag)
      case Finish(sig) => Run(sig, b.env, b.fuel)
      case GoOn => ExecForever(p, tag, body, b.env, b.fuel, c)
  }

  function ExecWhile(p: Program, tag: Option<Ident>, cond: Expr, body: seq<Stmt>, env: Env, fuel: nat, c: Frame): (r: Run<bool>)
    requires |env| > 0
    ensures Less(r, env, fuel)
    decreases fuel, 1, 0
  {
    if fuel == 0 then Run(Failed(OutOfFuel), env, 0)
    else
      var t := Exec(p, cond, env, fuel - 1, c);
      if !t.sig.Normal? then Abrupt(t)
      else if !t.sig.v.Bool? then Run(Failed(WrongType), t.env, t.fuel)
      else if !t.sig.v.b then Run(Normal(false), t.env, t.fuel)
      else
        var b := ExecBlock(p, body, t.env, t.fuel, c);
        match AfterBody(b.sig, tag)
        case Finish(sig) => Run(sig, b.env, b.fuel)
        case GoOn => ExecWhile(p, tag, cond, body, b.env, b.fuel, c)
  }

  function ExecItems(p: Program, tag: Option<Ident>, binds: seq<Ident>, items: seq<Value>, i: nat, body: seq<Stmt>,
      env: Env, fuel: nat, c: Frame): (r: Run<bool>)
    requires |env| > 0 && i <= |items|
    ensures Less(r, env, fuel)
    decreases fuel, 1, 0
  {
    if i == |items| then Run(Normal(false), env, fuel)
    else if fuel == 0 then Run(Failed(OutOfFuel), env, 0)
    else
      var b := ExecBlock(p, body, env + [Iteration(binds, items, i)], fuel - 1, c);
      var back := b.env[..|env|];
      match AfterBody(b.sig, tag)
      case Finish(sig) => Run(sig, back, b.fuel)
      case GoOn => ExecItems(p, tag, binds, items, i + 1, body, back, b.fuel, c)
  }

  /** The bindings of one iteration. */
  function Iteration(binds: seq<Ident>, items: seq<Value>, i: nat): Scope
    requires i < |items|
  {
    if binds == [] then []
    else if |binds| == 1 then [(binds[0], items[i])]
    else [(binds[0], items[i]), (binds[1], Counted(i))]
  }

  function ExecSource(p: Program, binds: seq<Ident>, sources: seq<Source>, step: Option<Expr>, env: Env, fuel: nat, c: Frame)
      : (r: Run<seq<Value>>)
    requires |env| > 0
    ensures Less(r, env, fuel)
    decreases fuel, 2, 0
  {
    if binds == [] || |binds| > 2 || |sources| != 1 then Run(Failed(LoopShape), env, fuel)
    else
      var stride := if step.None? then Run(Normal(1), env, fuel) else ExecInt(p, step.value, env, fuel, c);
      if !stride.sig.Normal? then Abrupt(stride)
      else if stride.sig.v == 0 then Run(Failed(ZeroStep), stride.env, stride.fuel)
      else
        match sources[0]
        case Range(lo, hi, inclusive) =>
          if lo.None? || hi.None? then Run(Failed(OpenRange), stride.env, stride.fuel)
          else
            var a := ExecInt(p, lo.value, stride.env, stride.fuel, c);
            if !a.sig.Normal? then Abrupt(a)
            else
              var b := ExecInt(p, hi.value, a.env, a.fuel, c);
              if !b.sig.Normal? then Abrupt(b)
              else Span(a.sig.v, b.sig.v, stride.sig.v, inclusive, b.env, b.fuel)
        case Values(e) =>
          var v := Exec(p, e, stride.env, stride.fuel, c);
          if !v.sig.Normal? then Abrupt(v)
          else if v.sig.v.List? then Run(Normal(v.sig.v.items), v.env, v.fuel)
          else Run(Failed(WrongType), v.env, v.fuel)
  }

  function ExecInt(p: Program, e: Expr, env: Env, fuel: nat, c: Frame): (r: Run<int>)
    requires |env| > 0
    ensures Less(r, env, fuel)
    decreases fuel, 1, 0
  {
    var v := Exec(p, e, env, fuel, c);
    if !v.sig.Normal? then Abrupt(v)
    else if v.sig.v.Int? then Run(Normal(v.sig.v.i), v.env, v.fuel)
    else Run(Failed(WrongType), v.env, v.fuel)
  }

  /** The integers of a range; each costs a step, and the one past the last must exist. */
  function Span(i: int, hi: int, stride: int, inclusive: bool, env: Env, fuel: nat): (r: Run<seq<Value>>)
    ensures Less(r, env, fuel)
    decreases fuel
  {
    if !InRange(i, hi, stride, inclusive) then Run(Normal([]), env, fuel)
    else if fuel == 0 then Run(Failed(OutOfFuel), env, 0)
    else if !(MIN <= i + stride <= MAX) then Run(Failed(Overflow), env, fuel - 1)
    else
      var r := Span(i + stride, hi, stride, inclusive, env, fuel - 1);
      if r.sig.Normal? then Run(Normal([Int(i)] + r.sig.v), r.env, r.fuel) else r
  }

  // ----- calls -----

  function ExecCall(p: Program, f: Ident, args: seq<Expr>, env: Env, fuel: nat, c: Frame): (r: Run<Value>)
    requires |env| > 0
    ensures Less(r, env, fuel)
    decreases fuel, 4, 0
  {
    match Callable(p, f, |args|, c.depth)
    case Some(e) => Run(Failed(e), env, fuel)
    case None =>
      var vs := ExecAll(p, args, env, fuel, c);
      if !vs.sig.Normal? then Abrupt(vs)
      else
        var b := ExecBlock(p, p.fns[f].body, [Bound(p.fns[f].params, vs.sig.v)], vs.fuel, c.(depth := c.depth + 1));
        Run(OfFrame(b.sig), vs.env, b.fuel)
  }

  // ----- where control transfers may stand -----

  datatype Zone = Zone(mayReturn: bool, inLoop: bool, tags: set<Ident>)

  const VALUE: Zone := Zone(false, false, {})
  const BODY: Zone := Zone(true, false, {})

  predicate Allows(z: Zone, to: Option<Ident>) { if to.None? then z.inLoop else to.value in z.tags }

  /** A loop with an `else` may only be left by running out or by its own `break`. */
  function Inside(z: Zone, tag: Option<Ident>, closed: bool): Zone {
    Zone(z.mayReturn && !closed, true, (if closed then {} else z.tags) + (if tag.Some? then {tag.value} else {}))
  }

  predicate Tidy(e: Expr, z: Zone)
    decreases e
  {
    match e
    case ArrayLit(elems) => forall i :: 0 <= i < |elems| ==> Tidy(elems[i], VALUE)
    case Repeat(value, count) => Tidy(value, VALUE) && Tidy(count, VALUE)
    case Index(base, index) => Tidy(base, VALUE) && Tidy(index, VALUE)
    case Len(base) => Tidy(base, VALUE)
    case Unary(_, rhs) => Tidy(rhs, VALUE)
    case Arith(_, l, r) => Tidy(l, VALUE) && Tidy(r, VALUE)
    case Logic(_, l, r) => Tidy(l, VALUE) && Tidy(r, VALUE)
    case Assign(_, target, value) => Tidy(target, VALUE) && Tidy(value, VALUE)
    case If(cond, thn, els) => Tidy(cond, VALUE) && TidyStmts(thn, z) && (els.Some? ==> Tidy(els.value, z))
    case Block(stmts) => TidyStmts(stmts, z)
    case For(tag, head, body, after) =>
      && TidyHead(head)
      && TidyStmts(body, Inside(z, tag, after.Else?))
      && (after.Else? ==> TidyStmts(after.stmts, z))
    case Break(to) => Allows(z, to)
    case Continue(to) => Allows(z, to)
    case Call(_, args) => forall i :: 0 <= i < |args| ==> Tidy(args[i], VALUE)
    case _ => true
  }

  predicate TidyStmts(stmts: seq<Stmt>, z: Zone)
    decreases stmts
  {
    forall i :: 0 <= i < |stmts| ==> TidyStmt(stmts[i], z)
  }

  predicate TidyStmt(st: Stmt, z: Zone)
    decreases st
  {
    match st
    case Let(_, init) => init.Some? ==> Tidy(init.value, VALUE)
    case Return(result) => z.mayReturn && (result.Some? ==> Tidy(result.value, VALUE))
    case Do(e) => Tidy(e, z)
  }

  predicate TidyHead(head: Head)
    decreases head
  {
    match head
    case Infinite => true
    case While(cond) => Tidy(cond, VALUE)
    case Iter(_, sources, step) =>
      && (step.Some? ==> Tidy(step.value, VALUE))
      && forall i :: 0 <= i < |sources| ==>
        match sources[i]
        case Range(lo, hi, _) => (lo.Some? ==> Tidy(lo.value, VALUE)) && (hi.Some? ==> Tidy(hi.value, VALUE))
        case Values(e) => Tidy(e, VALUE)
  }

  predicate TidyProgram(p: Program) {
    && (forall x :: x in p.consts ==> Tidy(p.consts[x], VALUE))
    && (forall f :: f in p.fns ==> TidyStmts(p.fns[f].body, BODY))
  }
}
