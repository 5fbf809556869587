/** The flag interpreter computes what the structured semantics says, wherever control
    transfers stand in statement positions. */
module ComptimeRefinement {
  import opened Wrappers
  import opened ComptimeValues
  import opened Comptime
  import opened ComptimeMeaning

  /** No transfer is under way. */
  predicate Quiet(s: State) { s.returning.None? && s.loopCtl.None? }

  function FrameOf(s: State): Frame { Frame(s.depth, s.inProgress) }

  /** The interpreter's outcome is the run's: the same value or error, environment and fuel,
      with the flags saying how it ended, and only endings the zone allows. */
  predicate Agrees<T(==)>(z: Zone, o: Out<T>, r: Run<T>) {
    && o.1.env == r.env
    && o.1.fuel == r.fuel
    && match r.sig
       case Normal(v) => o.0.Ok? && o.0.value == v && Quiet(o.1)
       case Failed(e) => o.0.Err? && o.0.error == e && Quiet(o.1)
       case Returned(v) => o.0.Ok? && z.mayReturn && o.1.returning == Some(v) && o.1.loopCtl.None?
       case Jumped(ctl) => o.0.Ok? && Allows(z, ctl.to) && o.1.returning.None? && o.1.loopCtl == Some(ctl)
  }

  lemma {:induction false} ExprAgrees(p: Program, e: Expr, z: Zone, s: State)
    requires TidyProgram(p) && Tidy(e, z) && Quiet(s) && |s.env| > 0
    ensures Agrees(z, Eval(p, e, s), Exec(p, e, s.env, s.fuel, FrameOf(s)))
    decreases s.fuel, 0, 1
  {
    hide EvalName, EvalAll, EvalRepeat, EvalBoth, EvalLogic, EvalAssign, EvalIf, EvalBlock, EvalFor, EvalCall,
         ExecName, ExecAll, ExecRepeat, ExecBoth, ExecLogic, ExecAssign, ExecIf, ExecBlock, ExecFor, ExecCall,
         TidyStmts, Inside;
    if s.fuel > 0 {
      var t := s.Spent();
      match e
      case Name(x) => NameAgrees(p, x, t);
      case ArrayLit(_) => OperatorAgrees(p, e, z, s);
      case Repeat(value, count) => RepeatAgrees(p, value, count, t);
      case Index(_, _) => OperatorAgrees(p, e, z, s);
      case Len(_) => OperatorAgrees(p, e, z, s);
      case Unary(_, _) => OperatorAgrees(p, e, z, s);
      case Arith(_, _, _) => OperatorAgrees(p, e, z, s);
      case Logic(and, a, b) => LogicAgrees(p, and, a, b, t);
      case Assign(op, target, value) => AssignAgrees(p, op, target, value, t);
      case If(_, _, _) => ControlAgrees(p, e, z, s);
      case Block(_) => ControlAgrees(p, e, z, s);
      case For(_, _, _, _) => ControlAgrees(p, e, z, s);
      case Call(f, args) => CallAgrees(p, f, args, t);
      case _ =>
    }
  }

  lemma {:induction false} ControlAgrees(p: Program, e: Expr, z: Zone, s: State)
    requires TidyProgram(p) && Tidy(e, z) && Quiet(s) && |s.env| > 0 && s.fuel > 0
    requires e.If? || e.Block? || e.For?
    ensures Agrees(z, Eval(p, e, s), Exec(p, e, s.env, s.fuel, FrameOf(s)))
    decreases s.fuel, 0, 0
  {
    hide EvalIf, EvalBlock, EvalFor, ExecIf, ExecBlock, ExecFor, TidyStmts, Inside, TidyProgram;
    var t := s.Spent();
    match e
    case If(cond, thn, els) => IfAgrees(p, cond, thn, els, z, t);
    case Block(stmts) => BlockAgrees(p, stmts, z, t);
    case For(tag, head, body, after) => ForAgrees(p, tag, head, body, after, z, t);
    case _ =>
  }

  lemma {:induction false} OperatorAgrees(p: Program, e: Expr, z: Zone, s: State)
    requires TidyProgram(p) && Tidy(e, z) && Quiet(s) && |s.env| > 0 && s.fuel > 0
    requires e.ArrayLit? || e.Index? || e.Len? || e.Unary? || e.Arith?
    ensures Agrees(z, Eval(p, e, s), Exec(p, e, s.env, s.fuel, FrameOf(s)))
    decreases s.fuel, 0, 0
  {
    hide Eval, Exec, EvalAll, ExecAll, EvalBoth, ExecBoth, TidyProgram;
    var t := s.Spent();
    match e
    case ArrayLit(elems) =>
      AllAgrees(p, elems, t);
      ArrayAgrees(p, elems, z, s);
    case Index(base, index) =>
      BothAgree(p, base, index, t);
      PairAgrees(p, e, base, index, z, s);
    case Len(base) =>
      ValueAgrees(p, base, t);
      LengthAgrees(p, base, z, s);
    case Unary(op, rhs) =>
      ValueAgrees(p, rhs, t);
      UnaryAgrees(p, op, rhs, z, s);
    case Arith(_, a, b) =>
      BothAgree(p, a, b, t);
      PairAgrees(p, e, a, b, z, s);
    case _ =>
  }

  lemma ArrayAgrees(p: Program, elems: seq<Expr>, z: Zone, s: State)
    requires |s.env| > 0 && s.fuel > 0
    requires var t := s.Spent(); Plain(EvalAll(p, elems, t), ExecAll(p, elems, t.env, t.fuel, FrameOf(t)))
    ensures Agrees(z, Eval(p, ArrayLit(elems), s), Exec(p, ArrayLit(elems), s.env, s.fuel, FrameOf(s)))
  {
    hide EvalAll, ExecAll;
  }

  lemma LengthAgrees(p: Program, base: Expr, z: Zone, s: State)
    requires |s.env| > 0 && s.fuel > 0
    requires var t := s.Spent(); Plain(Eval(p, base, t), Exec(p, base, t.env, t.fuel, FrameOf(t)))
    ensures Agrees(z, Eval(p, Len(base), s), Exec(p, Len(base), s.env, s.fuel, FrameOf(s)))
  {
    hide Length;
  }

  lemma UnaryAgrees(p: Program, op: UnOp, rhs: Expr, z: Zone, s: State)
    requires |s.env| > 0 && s.fuel > 0
    requires var t := s.Spent(); Plain(Eval(p, rhs, t), Exec(p, rhs, t.env, t.fuel, FrameOf(t)))
    ensures Agrees(z, Eval(p, Unary(op, rhs), s), Exec(p, Unary(op, rhs), s.env, s.fuel, FrameOf(s)))
  {
    hide ComptimeValues.Unary;
  }

  lemma PairAgrees(p: Program, e: Expr, a: Expr, b: Expr, z: Zone, s: State)
    requires |s.env| > 0 && s.fuel > 0
    requires (e.Index? && a == e.base && b == e.index) || (e.Arith? && a == e.l && b == e.r)
    requires var t := s.Spent(); PlainBoth(EvalBoth(p, a, b, t), ExecBoth(p, a, b, t.env, t.fuel, FrameOf(t)))
    ensures Agrees(z, Eval(p, e, s), Exec(p, e, s.env, s.fuel, FrameOf(s)))
  {
    hide EvalBoth, ExecBoth, Element, Binary;
  }

  /** A value position ends in a value or an error. */
  predicate Plain<T(==)>(o: Out<T>, r: Run<T>) {
    && Quiet(o.1)
    && o.1.env == r.env
    && o.1.fuel == r.fuel
    && match o.0
       case Ok(v) => r.sig.Normal? && r.sig.v == v
       case Err(e) => r.sig.Failed? && r.sig.error == e
  }

  predicate PlainBoth(o: Out<(Value, Value)>, r: Run<(Value, Value)>) {
    && Quiet(o.1)
    && o.1.env == r.env
    && o.1.fuel == r.fuel
    && match o.0
       case Ok(v) => r.sig.Normal? && r.sig.v.0 == v.0 && r.sig.v.1 == v.1
       case Err(e) => r.sig.Failed? && r.sig.error == e
  }

  lemma {:induction false} ValueAgrees(p: Program, e: Expr, s: State)
    requires TidyProgram(p) && Tidy(e, VALUE) && Quiet(s) && |s.env| > 0
    ensures Plain(Eval(p, e, s), Exec(p, e, s.env, s.fuel, FrameOf(s)))
    decreases s.fuel, 0, 2
  {
    hide Eval, Exec;
    ExprAgrees(p, e, VALUE, s);
  }

  lemma {:induction false} NameAgrees(p: Program, x: Ident, s: State)
    requires TidyProgram(p) && Quiet(s) && |s.env| > 0
    ensures Plain(EvalName(p, x, s), ExecName(p, x, s.env, s.fuel, FrameOf(s)))
    decreases s.fuel, 1, 0
  {
    if Lookup(s.env, x).None? && x in p.consts && x !in s.inProgress {
      ValueAgrees(p, p.consts[x], s.(env := [[]], inProgress := s.inProgress + {x}));
    }
  }

  lemma {:induction false} AllAgrees(p: Program, es: seq<Expr>, s: State)
    requires TidyProgram(p) && Quiet(s) && |s.env| > 0 && forall i :: 0 <= i < |es| ==> Tidy(es[i], VALUE)
    ensures Plain(EvalAll(p, es, s), ExecAll(p, es, s.env, s.fuel, FrameOf(s)))
    decreases s.fuel, 1, |es|
  {
    hide Eval, Exec;
    if es != [] {
      ValueAgrees(p, es[0], s);
      var (r, s1) := Eval(p, es[0], s);
      if r.Ok? {
        AllAgrees(p, es[1..], s1);
      }
    }
  }

  lemma {:induction false} BothAgree(p: Program, a: Expr, b: Expr, s: State)
    requires TidyProgram(p) && Quiet(s) && |s.env| > 0 && Tidy(a, VALUE) && Tidy(b, VALUE)
    ensures PlainBoth(EvalBoth(p, a, b, s), ExecBoth(p, a, b, s.env, s.fuel, FrameOf(s)))
    decreases s.fuel, 1, 0
  {
    hide Eval, Exec, Tidy, TidyProgram;
    ValueAgrees(p, a, s);
    var (x, s1) := Eval(p, a, s);
    if x.Ok? {
      ValueAgrees(p, b, s1);
    }
  }

  lemma {:induction false} RepeatAgrees(p: Program, value: Expr, count: Expr, s: State)
    requires TidyProgram(p) && Quiet(s) && |s.env| > 0 && Tidy(value, VALUE) && Tidy(count, VALUE)
    ensures Plain(EvalRepeat(p, value, count, s), ExecRepeat(p, value, count, s.env, s.fuel, FrameOf(s)))
    decreases s.fuel, 1, 0
  {
    hide Eval, Exec;
    ValueAgrees(p, count, s);
    var (c, s1) := Eval(p, count, s);
    if c.Ok? {
      ValueAgrees(p, value, s1);
    }
  }

  lemma {:induction false} LogicAgrees(p: Program, and: bool, a: Expr, b: Expr, s: State)
    requires TidyProgram(p) && Quiet(s) && |s.env| > 0 && Tidy(a, VALUE) && Tidy(b, VALUE)
    ensures Plain(EvalLogic(p, and, a, b, s), ExecLogic(p, and, a, b, s.env, s.fuel, FrameOf(s)))
    decreases s.fuel, 1, 0
  {
    hide Eval, Exec, Tidy, TidyProgram;
    ValueAgrees(p, a, s);
    var (x, s1) := Eval(p, a, s);
    if x.Ok? {
      ValueAgrees(p, b, s1);
    }
  }

  lemma {:induction false} IfAgrees(p: Program, cond: Expr, thn: seq<Stmt>, els: Option<Expr>, z: Zone, s: State)
    requires TidyProgram(p) && Quiet(s) && |s.env| > 0
    requires Tidy(cond, VALUE) && TidyStmts(thn, z) && (els.Some? ==> Tidy(els.value, z))
    ensures Agrees(z, EvalIf(p, cond, thn, els, s), ExecIf(p, cond, thn, els, s.env, s.fuel, FrameOf(s)))
    decreases s.fuel, 3, 0
  {
    hide Eval, Exec, EvalBlock, ExecBlock;
    ValueAgrees(p, cond, s);
    var (c, s1) := Eval(p, cond, s);
    if c.Ok? {
      BlockAgrees(p, thn, z, s1);
      if els.Some? {
        ExprAgrees(p, els.value, z, s1);
      }
    }
  }

  lemma TidyIndex(e: Expr)
    requires Tidy(e, VALUE)
    ensures e.Index? ==> Tidy(e.base, VALUE) && Tidy(e.index, VALUE)
  {
  }

  lemma {:induction false} PlaceAgrees(p: Program, target: Expr, s: State)
    requires TidyProgram(p) && Quiet(s) && |s.env| > 0 && Tidy(target, VALUE)
    ensures Plain(EvalPlace(p, target, s), ExecPlace(p, target, s.env, s.fuel, FrameOf(s)))
    decreases s.fuel, 1, PlaceDepth(target), 1
  {
    hide Eval, Exec, Tidy, TidyProgram;
    if target.Index? {
      IndexAgrees(p, target, s);
    }
  }

  lemma {:induction false} IndexAgrees(p: Program, target: Expr, s: State)
    requires TidyProgram(p) && Quiet(s) && |s.env| > 0 && Tidy(target, VALUE) && target.Index?
    ensures Plain(EvalPlace(p, target, s), ExecPlace(p, target, s.env, s.fuel, FrameOf(s)))
    decreases s.fuel, 1, PlaceDepth(target), 0
  {
    TidyIndex(target);
    hide Eval, Exec, EvalPlace, ExecPlace, Tidy, TidyProgram;
    PlaceAgrees(p, target.base, s);
    var (place, s1) := EvalPlace(p, target.base, s);
    if place.Ok? {
      ValueAgrees(p, target.index, s1);
    }
    IndexComposes(p, target.base, target.index, s);
  }

  lemma IndexComposes(p: Program, base: Expr, index: Expr, s: State)
    requires |s.env| > 0
    requires Plain(EvalPlace(p, base, s), ExecPlace(p, base, s.env, s.fuel, FrameOf(s)))
    requires var (place, s1) := EvalPlace(p, base, s);
             place.Ok? ==> Plain(Eval(p, index, s1), Exec(p, index, s1.env, s1.fuel, FrameOf(s)))
    ensures Plain(EvalPlace(p, Index(base, index), s), ExecPlace(p, Index(base, index), s.env, s.fuel, FrameOf(s)))
  {
    hide Eval, Exec, AsIndex, FrameOf;
  }

  lemma {:induction false} AssignAgrees(p: Program, op: Option<BinOp>, target: Expr, value: Expr, s: State)
    requires TidyProgram(p) && Quiet(s) && |s.env| > 0 && Tidy(target, VALUE) && Tidy(value, VALUE)
    ensures Plain(EvalAssign(p, op, target, value, s), ExecAssign(p, op, target, value, s.env, s.fuel, FrameOf(s)))
    decreases s.fuel, 3, 0
  {
    hide Eval, Exec, EvalPlace, ExecPlace, Update, Tidy, TidyProgram;
    ValueAgrees(p, value, s);
    var (v, s1) := Eval(p, value, s);
    if v.Ok? {
      PlaceAgrees(p, target, s1);
    }
  }

  lemma {:induction false} BlockAgrees(p: Program, stmts: seq<Stmt>, z: Zone, s: State)
    requires TidyProgram(p) && Quiet(s) && |s.env| > 0 && TidyStmts(stmts, z)
    ensures Agrees(z, EvalBlock(p, stmts, s), ExecBlock(p, stmts, s.env, s.fuel, FrameOf(s)))
    decreases s.fuel, 2, 0
  {
    hide EvalStmts, ExecStmts;
    StmtsAgree(p, stmts, Unit, z, s.Push());
  }

  lemma {:induction false} StmtsAgree(p: Program, stmts: seq<Stmt>, tail: Value, z: Zone, s: State)
    requires TidyProgram(p) && Quiet(s) && |s.env| > 0 && TidyStmts(stmts, z) && (stmts == [] ==> tail == Unit)
    ensures Agrees(z, EvalStmts(p, stmts, tail, s), ExecStmts(p, stmts, s.env, s.fuel, FrameOf(s)))
    decreases s.fuel, 1, 2 * |stmts|
  {
    hide Eval, Exec, Proceed;
    if stmts != [] {
      assert TidyStmt(stmts[0], z);
      var first := ExecStmt(p, stmts[0], s.env, s.fuel, FrameOf(s));
      match stmts[0]
      case Let(x, init) =>
        if init.Some? {
          ValueAgrees(p, init.value, s);
          var (v, s1) := Eval(p, init.value, s);
          if v.Ok? { RestAgrees(p, stmts, Unit, z, s, s1.Bind(x, v.value), first); }
        }
      case Return(result) =>
        if result.Some? { ValueAgrees(p, result.value, s); }
      case Do(e) =>
        ExprAgrees(p, e, z, s);
        var (v, s1) := Eval(p, e, s);
        if v.Ok? { RestAgrees(p, stmts, if |stmts| == 1 then v.value else Unit, z, s, s1, first); }
    }
  }

  lemma {:induction false} RestAgrees(p: Program, stmts: seq<Stmt>, tail: Value, z: Zone, s: State, s1: State, first: Run<Value>)
    requires TidyProgram(p) && stmts != [] && TidyStmts(stmts, z) && |s.env| > 0 && |s1.env| > 0
    requires s1.fuel <= s.fuel && FrameOf(s1) == FrameOf(s)
    requires first == ExecStmt(p, stmts[0], s.env, s.fuel, FrameOf(s))
    requires s1.env == first.env && s1.fuel == first.fuel
    requires first.sig.Normal? ==> Quiet(s1) && tail == if |stmts| == 1 then first.sig.v else Unit
    requires first.sig.Returned? ==> z.mayReturn && s1.returning == Some(first.sig.result) && s1.loopCtl.None?
    requires first.sig.Jumped? ==>
      Allows(z, first.sig.ctl.to) && s1.returning.None? && s1.loopCtl == Some(first.sig.ctl)
    requires !first.sig.Failed?
    ensures Agrees(z, Proceed(p, stmts[1..], tail, s1), ExecStmts(p, stmts, s.env, s.fuel, FrameOf(s)))
    decreases s.fuel, 1, 2 * |stmts| - 1
  {
    hide Eval, Exec, ExecStmt;
    if first.sig.Normal? && |stmts| > 1 {
      StmtsAgree(p, stmts[1..], tail, z, s1);
    }
  }

  // ----- loops -----

  /** What the loop lemmas keep: a finished loop is quiet, an abrupt one has its flag up. */
  predicate LoopAgrees(z: Zone, o: Out<bool>, r: Run<bool>) {
    && o.1.env == r.env
    && o.1.fuel == r.fuel
    && match r.sig
       case Normal(broke) => o.0 == Ok(broke) && Quiet(o.1)
       case Failed(e) => o.0 == Err(e) && Quiet(o.1)
       case Returned(v) => o.0 == Ok(false) && z.mayReturn && o.1.returning == Some(v) && o.1.loopCtl.None?
       case Jumped(ctl) =>
         o.0 == Ok(false) && ctl.to.Some? && ctl.to.value in z.tags && o.1.returning.None? && o.1.loopCtl == Some(ctl)
  }

  /** The zone a loop passes on to what encloses it. */
  function Around(z: Zone, tag: Option<Ident>, closed: bool): Zone {
    if closed then VALUE else z
  }

  lemma {:induction false} ForAgrees(p: Program, tag: Option<Ident>, head: Head, body: seq<Stmt>, after: Else, z: Zone, s: State)
    requires TidyProgram(p) && Quiet(s) && |s.env| > 0
    requires TidyHead(head) && TidyStmts(body, Inside(z, tag, after.Else?)) && (after.Else? ==> TidyStmts(after.stmts, z))
    ensures Agrees(z, EvalFor(p, tag, head, body, after, s), ExecFor(p, tag, head, body, after, s.env, s.fuel, FrameOf(s)))
    decreases s.fuel, 5, 0
  {
    hide EvalLoop, ExecLoop, EvalBlock, ExecBlock, Tidy;
    LoopsAgree(p, tag, head, body, z, after.Else?, s);
    var (broke, s1) := EvalLoop(p, tag, head, body, s);
    if broke == Ok(false) && after.Else? {
      BlockAgrees(p, after.stmts, z, s1);
    }
  }

  lemma {:induction false} LoopsAgree(p: Program, tag: Option<Ident>, head: Head, body: seq<Stmt>, z: Zone, closed: bool, s: State)
    requires TidyProgram(p) && Quiet(s) && |s.env| > 0
    requires TidyHead(head) && TidyStmts(body, Inside(z, tag, closed))
    ensures LoopAgrees(Around(z, tag, closed), EvalLoop(p, tag, head, body, s), ExecLoop(p, tag, head, body, s.env, s.fuel, FrameOf(s)))
    decreases s.fuel, 4, 0
  {
    hide LoopForever, LoopWhile, LoopItems, ExecForever, ExecWhile, ExecItems, EvalItems, ExecSource;
    match head
    case Infinite => ForeverAgrees(p, tag, body, z, closed, s);
    case While(cond) => WhileAgrees(p, tag, cond, body, z, closed, s);
    case Iter(binds, sources, step) =>
      SourceAgrees(p, binds, sources, step, s);
      var (items, s1) := EvalItems(p, binds, sources, step, s);
      if items.Ok? {
        ItemsAgree(p, tag, binds, items.value, 0, body, z, closed, s1);
      }
  }

  /** One iteration ends the same way for both. */
  lemma {:induction false} BodyAgrees(p: Program, tag: Option<Ident>, body: seq<Stmt>, z: Zone, closed: bool, s: State)
    requires TidyProgram(p) && Quiet(s) && |s.env| > 0 && TidyStmts(body, Inside(z, tag, closed))
    ensures var b := ExecBlock(p, body, s.env, s.fuel, FrameOf(s));
      var (turn, s1) := RunBody(p, tag, body, s);
      match AfterBody(b.sig, tag)
      case GoOn => turn == Ok(Again) && Quiet(s1) && s1.env == b.env && s1.fuel == b.fuel
      case Finish(sig) =>
        && turn.Err? == sig.Failed? && (turn.Ok? ==> turn.value.Stop?)
        && LoopAgrees(Around(z, tag, closed), (if turn.Ok? then Ok(turn.value.broke) else Err(turn.error), s1), Run(sig, b.env, b.fuel))
    decreases s.fuel, 3, 0
  {
    hide EvalBlock, ExecBlock;
    BlockAgrees(p, body, Inside(z, tag, closed), s);
  }

  lemma {:induction false} ForeverAgrees(p: Program, tag: Option<Ident>, body: seq<Stmt>, z: Zone, closed: bool, s: State)
    requires TidyProgram(p) && Quiet(s) && |s.env| > 0 && TidyStmts(body, Inside(z, tag, closed))
    ensures LoopAgrees(Around(z, tag, closed), LoopForever(p, tag, body, s), ExecForever(p, tag, body, s.env, s.fuel, FrameOf(s)))
    decreases s.fuel, 1, 0
  {
    hide RunBody, ExecBlock;
    if s.fuel > 0 {
      BodyAgrees(p, tag, body, z, closed, s.Spent());
      var (turn, s1) := RunBody(p, tag, body, s.Spent());
      if turn == Ok(Again) {
        ForeverAgrees(p, tag, body, z, closed, s1);
      }
    }
  }

  lemma {:induction false} WhileAgrees(p: Program, tag: Option<Ident>, cond: Expr, body: seq<Stmt>, z: Zone, closed: bool, s: State)
    requires TidyProgram(p) && Quiet(s) && |s.env| > 0 && Tidy(cond, VALUE) && TidyStmts(body, Inside(z, tag, closed))
    ensures LoopAgrees(Around(z, tag, closed), LoopWhile(p, tag, cond, body, s), ExecWhile(p, tag, cond, body, s.env, s.fuel, FrameOf(s)))
    decreases s.fuel, 1, 0
  {
    hide Eval, Exec, RunBody, ExecBlock;
    if s.fuel > 0 {
      ValueAgrees(p, cond, s.Spent());
      var (c, s1) := Eval(p, cond, s.Spent());
      if c == Ok(Bool(true)) {
        BodyAgrees(p, tag, body, z, closed, s1);
        var (turn, s2) := RunBody(p, tag, body, s1);
        if turn == Ok(Again) {
          WhileAgrees(p, tag, cond, body, z, closed, s2);
        }
      }
    }
  }

  lemma OpenedAgrees(binds: seq<Ident>, items: seq<Value>, i: nat, s: State)
    requires i < |items|
    ensures Opened(binds, items, i, s).env == s.env + [Iteration(binds, items, i)]
  {
    if |binds| > 0 {
      BindPushed(s.env, [], binds[0], items[i]);
      assert [] + [(binds[0], items[i])] == [(binds[0], items[i])];
      if |binds| > 1 {
        BindPushed(s.env, [(binds[0], items[i])], binds[1], Counted(i));
        assert [(binds[0], items[i])] + [(binds[1], Counted(i))] == [(binds[0], items[i]), (binds[1], Counted(i))];
      }
    }
  }

  lemma BindPushed(env: Env, scope: Scope, x: Ident, v: Value)
    ensures Bind(env + [scope], x, v) == env + [scope + [(x, v)]]
  {
  }

  lemma {:induction false} ItemsAgree(p: Program, tag: Option<Ident>, binds: seq<Ident>, items: seq<Value>, i: nat,
      body: seq<Stmt>, z: Zone, closed: bool, s: State)
    requires TidyProgram(p) && Quiet(s) && |s.env| > 0 && i <= |items| && TidyStmts(body, Inside(z, tag, closed))
    ensures LoopAgrees(Around(z, tag, closed), LoopItems(p, tag, binds, items, i, body, s),
      ExecItems(p, tag, binds, items, i, body, s.env, s.fuel, FrameOf(s)))
    decreases s.fuel, 1, 0
  {
    hide Opened, Iteration, RunBody, ExecBlock, Eval, Exec;
    if i < |items| && s.fuel > 0 {
      var iteration := Opened(binds, items, i, s.Spent());
      OpenedAgrees(binds, items, i, s.Spent());
      BodyAgrees(p, tag, body, z, closed, iteration);
      var (turn, s1) := RunBody(p, tag, body, iteration);
      if turn == Ok(Again) {
        ItemsAgree(p, tag, binds, items, i + 1, body, z, closed, s1.Pop());
      }
    }
  }

  lemma {:induction false} SourceAgrees(p: Program, binds: seq<Ident>, sources: seq<Source>, step: Option<Expr>, s: State)
    requires TidyProgram(p) && Quiet(s) && |s.env| > 0 && TidyHead(Iter(binds, sources, step))
    ensures Plain(EvalItems(p, binds, sources, step, s), ExecSource(p, binds, sources, step, s.env, s.fuel, FrameOf(s)))
    decreases s.fuel, 2, 0
  {
    hide Eval, Exec, EvalInt, ExecInt;
    if step.Some? {
      IntAgrees(p, step.value, s);
    }
    var (stride, s1) := EvalStride(p, step, s);
    if |sources| == 1 && stride.Ok? {
      match sources[0]
      case Range(lo, hi, inclusive) =>
        if lo.Some? && hi.Some? {
          IntAgrees(p, lo.value, s1);
          var (a, s2) := EvalInt(p, lo.value, s1);
          if a.Ok? {
            IntAgrees(p, hi.value, s2);
            var (b, s3) := EvalInt(p, hi.value, s2);
            if b.Ok? {
              SpanAgrees(a.value, b.value, stride.value, inclusive, s3);
            }
          }
        }
      case Values(e) => ValueAgrees(p, e, s1);
    }
  }

  lemma {:induction false} IntAgrees(p: Program, e: Expr, s: State)
    requires TidyProgram(p) && Quiet(s) && |s.env| > 0 && Tidy(e, VALUE)
    ensures Plain(EvalInt(p, e, s), ExecInt(p, e, s.env, s.fuel, FrameOf(s)))
    decreases s.fuel, 1, 0
  {
    hide Eval, Exec;
    ValueAgrees(p, e, s);
  }

  lemma {:induction false} SpanAgrees(i: int, hi: int, stride: int, inclusive: bool, s: State)
    requires Quiet(s)
    ensures Plain(RangeItems(i, hi, stride, inclusive, s), Span(i, hi, stride, inclusive, s.env, s.fuel))
    decreases s.fuel
  {
    if InRange(i, hi, stride, inclusive) && s.fuel > 0 && MIN <= i + stride <= MAX {
      SpanAgrees(i + stride, hi, stride, inclusive, s.Spent());
    }
  }

  // ----- calls -----

  lemma {:induction false} CallAgrees(p: Program, f: Ident, args: seq<Expr>, s: State)
    requires TidyProgram(p) && Quiet(s) && |s.env| > 0 && forall i :: 0 <= i < |args| ==> Tidy(args[i], VALUE)
    ensures Plain(EvalCall(p, f, args, s), ExecCall(p, f, args, s.env, s.fuel, FrameOf(s)))
    decreases s.fuel, 4, 0
  {
    hide EvalAll, ExecAll, EvalBlock, ExecBlock;
    if Callable(p, f, |args|, s.depth).None? {
      AllAgrees(p, args, s);
      var (vs, s1) := EvalAll(p, args, s);
      if vs.Ok? {
        var callee := s1.(env := [Bound(p.fns[f].params, vs.value)], returning := None, depth := s1.depth + 1);
        BlockAgrees(p, p.fns[f].body, BODY, callee);
      }
    }
  }

  // ----- the main statement -----

  /** The meaning of a constant expression. */
  function Meaning(p: Program, e: Expr): Result<Value, Error> {
    match Exec(p, e, [[]], FUEL, Frame(0, {})).sig
    case Normal(v) => Ok(v)
    case Failed(err) => Err(err)
    case _ => Err(NotConstant)
  }

  lemma InterpreterMeansIt(p: Program, e: Expr)
    requires TidyProgram(p) && Tidy(e, VALUE)
    ensures EvalTop(p, e) == Meaning(p, e)
  {
    hide Eval, Exec, TidyProgram, Tidy;
    ValueAgrees(p, e, Fresh([[]]));
  }
}
