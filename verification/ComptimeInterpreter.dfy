/** The interpreter itself: fuel, depth, the two flags and the constants in progress are
    fields that every step updates. */
module ComptimeInterpreters {
  import opened Wrappers
  import opened ComptimeValues
  import opened Comptime
  import opened ComptimeMeaning
  import opened ComptimeRefinement

  class Interp {
    const program: Program
    var fuel: nat
    var depth: nat
    var returning: Option<Value>
    var loopCtl: Option<Ctl>
    var inProgress: set<Ident>

    constructor (p: Program)
      ensures program == p
    {
      program := p;
      fuel, depth, returning, loopCtl, inProgress := FUEL, 0, None, None, {};
    }

    ghost function Now(env: Env): State
      reads this
    {
      State(env, fuel, depth, returning, loopCtl, inProgress)
    }

    /** The step ended as `o` says, and left the state `o` says. */
    ghost predicate Did<T>(o: Out<T>, r: Result<T, Error>, out: Env)
      reads this
    {
      && Now(out) == o.1
      && match o.0
         case Ok(v) => r.Ok? && r.value == v
         case Err(e) => r.Err? && r.error == e
    }

    ghost predicate DidBoth(o: Out<(Value, Value)>, r: Result<(Value, Value), Error>, out: Env)
      reads this
    {
      && Now(out) == o.1
      && match o.0
         case Ok(v) => r.Ok? && r.value.0 == v.0 && r.value.1 == v.1
         case Err(e) => r.Err? && r.error == e
    }

    // ----- entry points -----

    method Reset()
      modifies this
      ensures forall env :: Now(env) == Fresh(env)
    {
      fuel, depth, inProgress, returning, loopCtl := FUEL, 0, {}, None, None;
    }

    /** Each evaluation starts with a whole budget, whatever came before. */
    method Evaluate(e: Expr) returns (r: Result<Value, Error>)
      modifies this
      ensures r == EvalTop(program, e)
      ensures TidyProgram(program) && Tidy(e, VALUE) ==> r == Meaning(program, e)
    {
      hide Eval, Exec, Tidy, TidyProgram;
      Reset();
      var env;
      r, env := EvalExpr(e, [[]]);
      if TidyProgram(program) && Tidy(e, VALUE) {
        InterpreterMeansIt(program, e);
      }
    }

    method EvaluateLength(e: Expr) returns (r: Result<nat, Error>)
      modifies this
      ensures r == match EvalTop(program, e)
        case Ok(v) => AsIndex(v)
        case Err(error) => Err(error)
    {
      var v := Evaluate(e);
      r := if v.Ok? then AsIndex(v.value) else Err(v.error);
    }

    method EvaluateConst(x: Ident) returns (r: Result<Value, Error>)
      modifies this
      ensures r == if x in program.consts then EvalTop(program, program.consts[x]) else Err(NotConstant)
    {
      if x !in program.consts {
        return Err(NotConstant);
      }
      r := Evaluate(program.consts[x]);
    }

    /** A function called from outside, with a whole budget: the call itself does not count
        towards the depth. */
    method CallFn(f: Ident, args: seq<Value>) returns (r: Result<Value, Error>)
      modifies this
      ensures f !in program.fns || program.fns[f].erased ==> r == Err(NotCallable)
      ensures f in program.fns && !program.fns[f].erased && |program.fns[f].params| != |args| ==> r == Err(BadArity)
      ensures f in program.fns && !program.fns[f].erased && |program.fns[f].params| == |args| && TidyProgram(program) ==>
        r == match OfFrame(ExecBlock(program, program.fns[f].body, [Bound(program.fns[f].params, args)], FUEL, Frame(0, {})).sig)
          case Normal(v) => Ok(v)
          case Failed(e) => Err(e)
          case _ => Err(NotConstant)
    {
      hide EvalBlock, ExecBlock;
      if f !in program.fns || program.fns[f].erased {
        return Err(NotCallable);
      }
      if |program.fns[f].params| != |args| {
        return Err(BadArity);
      }
      Reset();
      var out;
      var fn := program.fns[f];
      r, out := BlockOf(fn.body, [Bound(fn.params, args)]);
      if TidyProgram(program) {
        BlockAgrees(program, fn.body, BODY, Fresh([Bound(fn.params, args)]));
      }
      if r.Ok? && returning.Some? {
        r := Ok(returning.value);
      }
      returning := None;
    }

    // ----- expressions -----

    method EvalExpr(e: Expr, env: Env) returns (r: Result<Value, Error>, out: Env)
      requires |env| > 0
      modifies this
      ensures Did(Eval(program, e, old(Now(env))), r, out)
      decreases fuel, 0, 0
    {
      hide EvalName, EvalAll, EvalRepeat, EvalBoth, EvalLogic, EvalAssign, EvalIf, EvalBlock, EvalFor, EvalCall,
           Element, Length, Binary, ComptimeValues.Unary;
      out := env;
      if fuel == 0 {
        return Err(OutOfFuel), env;
      }
      fuel := fuel - 1;
      match e
      case Num(i) => r := Literal(i);
      case Truth(b) => r := Ok(Bool(b));
      case Text(t) => r := Ok(Str(t));
      case Other => r := Err(NotConstant);
      case Name(x) => r, out := NameOf(x, env);
      case ArrayLit(_) => r, out := OperatorOf(e, env);
      case Repeat(value, count) => r, out := RepeatOf(value, count, env);
      case Index(_, _) => r, out := OperatorOf(e, env);
      case Len(_) => r, out := OperatorOf(e, env);
      case Unary(_, _) => r, out := OperatorOf(e, env);
      case Arith(_, _, _) => r, out := OperatorOf(e, env);
      case Logic(and, a, b) => r, out := LogicOf(and, a, b, env);
      case Assign(_, _, _) => r, out := ControlOf(e, env);
      case If(_, _, _) => r, out := ControlOf(e, env);
      case Block(_) => r, out := ControlOf(e, env);
      case For(_, _, _, _) => r, out := ControlOf(e, env);
      case Break(to) =>
        loopCtl := Some(BreakTo(to));
        r := Ok(Unit);
      case Continue(to) =>
        loopCtl := Some(ContinueTo(to));
        r := Ok(Unit);
      case Call(f, args) => r, out := CallOf(f, args, env);
    }

    /** The forms that evaluate their operands and combine them; their own step is spent. */
    method OperatorOf(e: Expr, env: Env) returns (r: Result<Value, Error>, out: Env)
      requires |env| > 0 && (e.ArrayLit? || e.Index? || e.Len? || e.Unary? || e.Arith?)
      modifies this
      ensures Did(Eval(program, e, old(Now(env)).(fuel := old(fuel) + 1)), r, out)
      decreases fuel, 2, 0
    {
      hide EvalAll, EvalBoth, Element, Length, Binary, ComptimeValues.Unary;
      assert old(Now(env)).(fuel := old(fuel) + 1).Spent() == old(Now(env));
      if e.ArrayLit? {
        var items;
        items, out := All(e.elems, env);
        r := if items.Ok? then Ok(List(items.value)) else Err(items.error);
      } else if e.Len? {
        r, out := EvalExpr(e.base, env);
        r := if r.Ok? then Length(r.value) else r;
      } else if e.Unary? {
        r, out := EvalExpr(e.rhs, env);
        r := if r.Ok? then ComptimeValues.Unary(e.uop, r.value) else r;
      } else {
        var both;
        both, out := Both(if e.Index? then e.base else e.l, if e.Index? then e.index else e.r, env);
        if both.Err? {
          r := Err(both.error);
        } else if e.Index? {
          r := Element(both.value.0, both.value.1);
        } else {
          r := Binary(e.op, both.value.0, both.value.1);
        }
      }
    }

    method ControlOf(e: Expr, env: Env) returns (r: Result<Value, Error>, out: Env)
      requires |env| > 0 && (e.Assign? || e.If? || e.Block? || e.For?)
      modifies this
      ensures Did(Eval(program, e, old(Now(env)).(fuel := old(fuel) + 1)), r, out)
      decreases fuel, 6, 0
    {
      hide EvalAssign, EvalIf, EvalBlock, EvalFor;
      assert old(Now(env)).(fuel := old(fuel) + 1).Spent() == old(Now(env));
      match e
      case Assign(op, target, value) => r, out := AssignTo(op, target, value, env);
      case If(cond, thn, els) => r, out := IfOf(cond, thn, els, env);
      case Block(stmts) => r, out := BlockOf(stmts, env);
      case For(tag, head, body, after) => r, out := ForOf(tag, head, body, after, env);
    }

    method NameOf(x: Ident, env: Env) returns (r: Result<Value, Error>, out: Env)
      requires |env| > 0
      modifies this
      ensures Did(EvalName(program, x, old(Now(env))), r, out)
      decreases fuel, 1, 0
    {
      hide Eval, Lookup;
      out := env;
      var v := Lookup(env, x);
      if v.Some? {
        return Ok(v.value), env;
      }
      if x !in program.consts {
        return Err(NotConstant), env;
      }
      if x in inProgress {
        return Err(Cyclic), env;
      }
      ghost var busy := inProgress;
      inProgress := inProgress + {x};
      var own;
      r, own := EvalExpr(program.consts[x], [[]]);
      inProgress := inProgress - {x};
      assert inProgress == busy;
    }

    method All(es: seq<Expr>, env: Env) returns (r: Result<seq<Value>, Error>, out: Env)
      requires |env| > 0
      modifies this
      ensures Did(EvalAll(program, es, old(Now(env))), r, out)
      decreases fuel, 1, 0
    {
      hide Eval;
      out := env;
      var vs: seq<Value> := [];
      var i := 0;
      AfterNone(EvalAll(program, es, Now(out)));
      assert es[0..] == es;
      while i < |es|
        invariant i <= |es| && |out| > 0 && fuel <= old(fuel)
        invariant EvalAll(program, es, old(Now(env))) == After(vs, EvalAll(program, es[i..], Now(out)))
        decreases |es| - i
      {
        var v;
        ghost var s := Now(out);
        ghost var rest := EvalAll(program, es[i..], s);
        v, out := EvalExpr(es[i], out);
        assert es[i..][0] == es[i] && es[i..][1..] == es[i + 1..];
        if v.Err? {
          return Err(v.error), out;
        }
        AfterSnoc(vs, v.value, EvalAll(program, es[i + 1..], Now(out)));
        vs := vs + [v.value];
        i := i + 1;
      }
      assert EvalAll(program, es[i..], Now(out)) == (Ok([]), Now(out));
      assert vs + [] == vs;
      r := Ok(vs);
    }

    /** `vs` in front of what the rest produces. */
    static function After(vs: seq<Value>, o: Out<seq<Value>>): Out<seq<Value>> {
      (if o.0.Ok? then Ok(vs + o.0.value) else o.0, o.1)
    }

    static lemma AfterNone(o: Out<seq<Value>>)
      ensures After([], o) == o
    {
      if o.0.Ok? {
        assert [] + o.0.value == o.0.value;
      }
    }

    static lemma AfterSnoc(vs: seq<Value>, v: Value, o: Out<seq<Value>>)
      ensures After(vs + [v], o) == After(vs, After([v], o))
    {
      if o.0.Ok? {
        assert vs + [v] + o.0.value == vs + ([v] + o.0.value);
      }
    }

    method Both(a: Expr, b: Expr, env: Env) returns (r: Result<(Value, Value), Error>, out: Env)
      requires |env| > 0
      modifies this
      ensures DidBoth(EvalBoth(program, a, b, old(Now(env))), r, out)
      decreases fuel, 1, 0
    {
      hide Eval;
      var x, y;
      x, out := EvalExpr(a, env);
      if x.Err? {
        return Err(x.error), out;
      }
      y, out := EvalExpr(b, out);
      r := if y.Ok? then Ok((x.value, y.value)) else Err(y.error);
    }

    method RepeatOf(value: Expr, count: Expr, env: Env) returns (r: Result<Value, Error>, out: Env)
      requires |env| > 0
      modifies this
      ensures Did(EvalRepeat(program, value, count, old(Now(env))), r, out)
      decreases fuel, 1, 0
    {
      hide Eval;
      r, out := EvalExpr(count, env);
      if r.Err? {
        return;
      }
      var n := AsIndex(r.value);
      if n.Err? {
        return Err(n.error), out;
      }
      r, out := EvalExpr(value, out);
      if r.Err? {
        return;
      }
      var v := r.value;
      r := Fill(n.value, v, out);
    }

    /** A step for each element. */
    method Fill(n: nat, v: Value, env: Env) returns (r: Result<Value, Error>)
      modifies this
      ensures (r, Now(env)) == Produce(n, v, old(Now(env)))
    {
      var items: seq<Value> := [];
      while |items| < n
        invariant |items| <= n && items == seq(|items|, i => v)
        invariant fuel + |items| == old(fuel)
        invariant Now(env) == old(Now(env)).(fuel := fuel)
        decreases n - |items|
      {
        if fuel == 0 {
          return Err(OutOfFuel);
        }
        fuel := fuel - 1;
        items := items + [v];
      }
      assert items == seq(n, i => v);
      r := Ok(List(items));
    }

    method LogicOf(and: bool, a: Expr, b: Expr, env: Env) returns (r: Result<Value, Error>, out: Env)
      requires |env| > 0
      modifies this
      ensures Did(EvalLogic(program, and, a, b, old(Now(env))), r, out)
      decreases fuel, 1, 0
    {
      hide Eval;
      r, out := EvalExpr(a, env);
      if r.Err? {
        return;
      }
      if !r.value.Bool? {
        return Err(WrongType), out;
      }
      if r.value.b != and {
        return;
      }
      r, out := EvalExpr(b, out);
      if r.Ok? && !r.value.Bool? {
        r := Err(WrongType);
      }
    }

    method IfOf(cond: Expr, thn: seq<Stmt>, els: Option<Expr>, env: Env) returns (r: Result<Value, Error>, out: Env)
      requires |env| > 0
      modifies this
      ensures Did(EvalIf(program, cond, thn, els, old(Now(env))), r, out)
      decreases fuel, 3, 0
    {
      hide Eval, EvalBlock;
      r, out := EvalExpr(cond, env);
      if r.Err? {
        return;
      }
      if !r.value.Bool? {
        return Err(WrongType), out;
      }
      if r.value.b {
        r, out := BlockOf(thn, out);
        if r.Ok? && els.None? {
          r := Ok(Unit);
        }
      } else if els.Some? {
        r, out := EvalExpr(els.value, out);
      } else {
        r := Ok(Unit);
      }
    }

    // ----- assignment -----

    method PlaceOf(target: Expr, env: Env) returns (r: Result<(Ident, seq<nat>), Error>, out: Env)
      requires |env| > 0
      modifies this
      ensures Did(EvalPlace(program, target, old(Now(env))), r, out)
      decreases fuel, 1, PlaceDepth(target)
    {
      hide Eval;
      out := env;
      match target
      case Name(x) => r := Ok((x, []));
      case Index(base, index) =>
        r, out := PlaceOf(base, env);
        if r.Err? {
          return;
        }
        var place := r.value;
        var i;
        i, out := EvalExpr(index, out);
        if i.Err? {
          return Err(i.error), out;
        }
        var ix := AsIndex(i.value);
        r := if ix.Ok? then Ok((place.0, place.1 + [ix.value])) else Err(ix.error);
      case _ => r := Err(BadTarget);
    }

    method AssignTo(op: Option<BinOp>, target: Expr, value: Expr, env: Env) returns (r: Result<Value, Error>, out: Env)
      requires |env| > 0
      modifies this
      ensures Did(EvalAssign(program, op, target, value, old(Now(env))), r, out)
      decreases fuel, 3, 0
    {
      hide Eval, EvalPlace, Update;
      var v, place;
      v, out := EvalExpr(value, env);
      if v.Err? {
        return v, out;
      }
      place, out := PlaceOf(target, out);
      if place.Err? {
        return Err(place.error), out;
      }
      var written := Update(op, place.value, v.value, out);
      if written.Err? {
        return Err(written.error), out;
      }
      r, out := Ok(Unit), written.value;
    }

    // ----- blocks -----

    method BlockOf(stmts: seq<Stmt>, env: Env) returns (r: Result<Value, Error>, out: Env)
      requires |env| > 0
      modifies this
      ensures Did(EvalBlock(program, stmts, old(Now(env))), r, out)
      decreases fuel, 2, 0
    {
      hide EvalStmts;
      r, out := StmtsOf(stmts, env + [[]]);
      out := out[..|out| - 1];
    }

    method StmtsOf(stmts: seq<Stmt>, env: Env) returns (r: Result<Value, Error>, out: Env)
      requires |env| > 0
      modifies this
      ensures Did(EvalStmts(program, stmts, Unit, old(Now(env))), r, out)
      decreases fuel, 1, 0
    {
      hide Eval;
      out := env;
      var tail := Unit;
      var i := 0;
      while i < |stmts|
        invariant i <= |stmts| && |out| > 0 && fuel <= old(fuel)
        invariant EvalStmts(program, stmts, Unit, old(Now(env))) == EvalStmts(program, stmts[i..], tail, Now(out))
        decreases |stmts| - i
      {
        assert stmts[i..][0] == stmts[i] && stmts[i..][1..] == stmts[i + 1..];
        match stmts[i] {
          case Let(x, init) =>
            if init.None? {
              return Err(NoInitializer), out;
            }
            r, out := EvalExpr(init.value, out);
            if r.Err? {
              return;
            }
            out := Bind(out, x, r.value);
            tail := Unit;
          case Return(result) =>
            r := Ok(Unit);
            if result.Some? {
              r, out := EvalExpr(result.value, out);
              if r.Err? {
                return;
              }
            }
            if returning.None? {
              returning := Some(r.value);
            }
            return;
          case Do(e) =>
            r, out := EvalExpr(e, out);
            if r.Err? {
              return;
            }
            tail := if i + 1 == |stmts| then r.value else Unit;
        }
        if returning.Some? {
          return Ok(returning.value), out;
        }
        if loopCtl.Some? {
          return Ok(Unit), out;
        }
        i := i + 1;
      }
      r := Ok(tail);
    }

    // ----- loops -----

    method ForOf(tag: Option<Ident>, head: Head, body: seq<Stmt>, after: Else, env: Env) returns (r: Result<Value, Error>, out: Env)
      requires |env| > 0
      modifies this
      ensures Did(EvalFor(program, tag, head, body, after, old(Now(env))), r, out)
      decreases fuel, 5, 0
    {
      hide EvalLoop, EvalBlock;
      var broke;
      broke, out := LoopOf(tag, head, body, env);
      if broke.Err? {
        return Err(broke.error), out;
      }
      if !broke.value && after.Else? {
        r, out := BlockOf(after.stmts, out);
        if r.Err? {
          return;
        }
      }
      r := Ok(Unit);
    }

    method LoopOf(tag: Option<Ident>, head: Head, body: seq<Stmt>, env: Env) returns (r: Result<bool, Error>, out: Env)
      requires |env| > 0
      modifies this
      ensures Did(EvalLoop(program, tag, head, body, old(Now(env))), r, out)
      decreases fuel, 4, 0
    {
      hide LoopForever, LoopWhile, LoopItems, EvalItems;
      match head
      case Infinite => r, out := Forever(tag, body, env);
      case While(cond) => r, out := WhileTrue(tag, cond, body, env);
      case Iter(binds, sources, step) =>
        var items;
        items, out := ItemsOf(binds, sources, step, env);
        if items.Err? {
          return Err(items.error), out;
        }
        r, out := Each(tag, binds, items.value, body, out);
    }

    method BodyOf(tag: Option<Ident>, body: seq<Stmt>, env: Env) returns (r: Result<Turn, Error>, out: Env)
      requires |env| > 0
      modifies this
      ensures Did(RunBody(program, tag, body, old(Now(env))), r, out)
      decreases fuel, 3, 0
    {
      hide EvalBlock;
      var v;
      v, out := BlockOf(body, env);
      if v.Err? {
        return Err(v.error), out;
      }
      if returning.Some? {
        return Ok(Stop(false)), out;
      }
      if loopCtl.None? {
        return Ok(Again), out;
      }
      var ctl := loopCtl.value;
      if !Targets(ctl.to, tag) {
        return Ok(Stop(false)), out;
      }
      loopCtl := None;
      r := Ok(if ctl.BreakTo? then Stop(true) else Again);
    }

    method Forever(tag: Option<Ident>, body: seq<Stmt>, env: Env) returns (r: Result<bool, Error>, out: Env)
      requires |env| > 0
      modifies this
      ensures Did(LoopForever(program, tag, body, old(Now(env))), r, out)
      decreases fuel, 1, 0
    {
      hide RunBody;
      out := env;
      while true
        invariant |out| > 0 && fuel <= old(fuel)
        invariant LoopForever(program, tag, body, old(Now(env))) == LoopForever(program, tag, body, Now(out))
        decreases fuel
      {
        if fuel == 0 {
          return Err(OutOfFuel), out;
        }
        fuel := fuel - 1;
        var turn;
        turn, out := BodyOf(tag, body, out);
        if turn.Err? {
          return Err(turn.error), out;
        }
        if turn.value.Stop? {
          return Ok(turn.value.broke), out;
        }
      }
    }

    method WhileTrue(tag: Option<Ident>, cond: Expr, body: seq<Stmt>, env: Env) returns (r: Result<bool, Error>, out: Env)
      requires |env| > 0
      modifies this
      ensures Did(LoopWhile(program, tag, cond, body, old(Now(env))), r, out)
      decreases fuel, 1, 0
    {
      hide RunBody, Eval;
      out := env;
      while true
        invariant |out| > 0 && fuel <= old(fuel)
        invariant LoopWhile(program, tag, cond, body, old(Now(env))) == LoopWhile(program, tag, cond, body, Now(out))
        decreases fuel
      {
        if fuel == 0 {
          return Err(OutOfFuel), out;
        }
        fuel := fuel - 1;
        var c, turn;
        c, out := EvalExpr(cond, out);
        if c.Err? {
          return Err(c.error), out;
        }
        if !c.value.Bool? {
          return Err(WrongType), out;
        }
        if !c.value.b {
          return Ok(false), out;
        }
        turn, out := BodyOf(tag, body, out);
        if turn.Err? {
          return Err(turn.error), out;
        }
        if turn.value.Stop? {
          return Ok(turn.value.broke), out;
        }
      }
    }

    method OpenItem(binds: seq<Ident>, items: seq<Value>, i: nat, env: Env) returns (inner: Env)
      requires |env| > 0 && i < |items|
      ensures Now(inner) == Opened(binds, items, i, Now(env))
    {
      inner := env + [[]];
      if |binds| > 0 {
        inner := Bind(inner, binds[0], items[i]);
      }
      if |binds| > 1 {
        inner := Bind(inner, binds[1], Counted(i));
      }
    }

    /** Each iteration has its own scope, closed again however the body ends. */
    method Each(tag: Option<Ident>, binds: seq<Ident>, items: seq<Value>, body: seq<Stmt>, env: Env)
      returns (r: Result<bool, Error>, out: Env)
      requires |env| > 0
      modifies this
      ensures Did(LoopItems(program, tag, binds, items, 0, body, old(Now(env))), r, out)
      decreases fuel, 1, 0
    {
      hide RunBody, Eval, Opened;
      out := env;
      var i := 0;
      while i < |items|
        invariant i <= |items| && |out| > 0 && fuel <= old(fuel)
        invariant LoopItems(program, tag, binds, items, 0, body, old(Now(env)))
          == LoopItems(program, tag, binds, items, i, body, Now(out))
        decreases |items| - i
      {
        if fuel == 0 {
          return Err(OutOfFuel), out;
        }
        fuel := fuel - 1;
        var inner := OpenItem(binds, items, i, out);
        var turn;
        turn, inner := BodyOf(tag, body, inner);
        out := inner[..|inner| - 1];
        if turn.Err? {
          return Err(turn.error), out;
        }
        if turn.value.Stop? {
          return Ok(turn.value.broke), out;
        }
        i := i + 1;
      }
      r := Ok(false);
    }

    method ItemsOf(binds: seq<Ident>, sources: seq<Source>, step: Option<Expr>, env: Env)
      returns (r: Result<seq<Value>, Error>, out: Env)
      requires |env| > 0
      modifies this
      ensures Did(EvalItems(program, binds, sources, step, old(Now(env))), r, out)
      decreases fuel, 2, 0
    {
      hide Eval, EvalInt, RangeItems;
      out := env;
      if binds == [] || |binds| > 2 || |sources| != 1 {
        return Err(LoopShape), env;
      }
      var stride := Ok(1);
      if step.Some? {
        stride, out := IntOf(step.value, env);
        if stride == Ok(0) {
          return Err(ZeroStep), out;
        }
        if stride.Err? {
          return Err(stride.error), out;
        }
      }
      match sources[0]
      case Range(lo, hi, inclusive) =>
        if lo.None? || hi.None? {
          return Err(OpenRange), out;
        }
        var a, b;
        a, out := IntOf(lo.value, out);
        if a.Err? {
          return Err(a.error), out;
        }
        b, out := IntOf(hi.value, out);
        if b.Err? {
          return Err(b.error), out;
        }
        r := Count(a.value, b.value, stride.value, inclusive, out);
      case Values(e) =>
        var v;
        v, out := EvalExpr(e, out);
        if v.Err? {
          return Err(v.error), out;
        }
        r := if v.value.List? then Ok(v.value.items) else Err(WrongType);
    }

    /** A step for each integer of the range, and the next one must exist. */
    method Count(lo: int, hi: int, stride: int, inclusive: bool, env: Env) returns (r: Result<seq<Value>, Error>)
      modifies this
      ensures (r, Now(env)) == RangeItems(lo, hi, stride, inclusive, old(Now(env)))
    {
      var items: seq<Value> := [];
      var i := lo;
      AfterNone(RangeItems(lo, hi, stride, inclusive, Now(env)));
      while InRange(i, hi, stride, inclusive)
        invariant RangeItems(lo, hi, stride, inclusive, old(Now(env)))
          == After(items, RangeItems(i, hi, stride, inclusive, Now(env)))
        decreases fuel
      {
        if fuel == 0 {
          return Err(OutOfFuel);
        }
        fuel := fuel - 1;
        if !(MIN <= i + stride <= MAX) {
          return Err(Overflow);
        }
        AfterSnoc(items, Int(i), RangeItems(i + stride, hi, stride, inclusive, Now(env)));
        items := items + [Int(i)];
        i := i + stride;
      }
      assert items + [] == items;
      r := Ok(items);
    }

    method IntOf(e: Expr, env: Env) returns (r: Result<int, Error>, out: Env)
      requires |env| > 0
      modifies this
      ensures Did(EvalInt(program, e, old(Now(env))), r, out)
      decreases fuel, 1, 0
    {
      hide Eval;
      var v;
      v, out := EvalExpr(e, env);
      r := if v.Err? then Err(v.error) else if v.value.Int? then Ok(v.value.i) else Err(WrongType);
    }

    // ----- calls -----

    /** The callee has its own frame, and the caller's `return` is put back afterwards. */
    method CallOf(f: Ident, args: seq<Expr>, env: Env) returns (r: Result<Value, Error>, out: Env)
      requires |env| > 0
      modifies this
      ensures Did(EvalCall(program, f, args, old(Now(env))), r, out)
      decreases fuel, 4, 0
    {
      hide EvalAll, EvalBlock;
      out := env;
      var refused := Callable(program, f, |args|, depth);
      if refused.Some? {
        return Err(refused.value), env;
      }
      var vs;
      vs, out := All(args, env);
      if vs.Err? {
        return Err(vs.error), out;
      }
      var fn := program.fns[f];
      var frame := Bound(fn.params, vs.value);
      var outer := returning;
      returning := None;
      depth := depth + 1;
      var left;
      r, left := BlockOf(fn.body, [frame]);
      depth := depth - 1;
      var returned := returning;
      returning := outer;
      if r.Ok? && returned.Some? {
        r := Ok(returned.value);
      }
    }
  }
}
