/** Soundness of the consuming rule: a function the checker reports nothing about, and
    that has none of the hazards, never touches a moved binding in any run. */
module MoveSoundness {
  import opened Wrappers
  import opened Moves
  import opened MoveRuns
  import opened MoveYields

  // ----- how reports and marks travel through the walk -----

  lemma Grow(c: Ctx, c': Ctx, env: Env)
    requires Covers(c, env) && SameShape(c, c')
    ensures Covers(c', env)
  {
    forall i | 0 <= i < |env|
      ensures CoversScope(c'.scopes[i], c'.sources[i], c'.consumed[i], env[i])
    {
      assert CoversScope(c.scopes[i], c.sources[i], c.consumed[i], env[i]);
      assert c'.scopes[..|c.scopes|][i] == c.scopes[i] && c'.sources[..|c.scopes|][i] == c.sources[i];
    }
  }

  /** Two states that agree on scopes and marks cover the same runs. */
  lemma SameMarks(c: Ctx, c': Ctx, env: Env)
    requires Covers(c, env) && c'.Ok() && c'.scopes == c.scopes && c'.sources == c.sources
    requires forall i :: 0 <= i < |c.scopes| ==> c.consumed[i].Keys <= c'.consumed[i].Keys
    ensures Covers(c', env)
  {
    forall i | 0 <= i < |env|
      ensures CoversScope(c'.scopes[i], c'.sources[i], c'.consumed[i], env[i])
    {
      assert CoversScope(c.scopes[i], c.sources[i], c.consumed[i], env[i]);
    }
  }

  lemma SameDepth(c: Ctx, env: Env, x: Ident)
    requires Covers(c, env)
    ensures Depth(c.scopes, x) == Depth(env, x)
    ensures var d := Depth(env, x); d < |env| ==> CoversScope(c.scopes[d], c.sources[d], c.consumed[d], env[d])
  {
    var d, d' := Depth(c.scopes, x), Depth(env, x);
    if d < |env| {
      assert CoversScope(c.scopes[d], c.sources[d], c.consumed[d], env[d]);
    }
    if d' < |env| {
      assert CoversScope(c.scopes[d'], c.sources[d'], c.consumed[d'], env[d']);
    }
  }

  lemma UseSound(c: Ctx, env: Env, x: Ident)
    requires Covers(c, env) && Clean(c, Use(c, x))
    ensures !Gone(env, x)
  {
    SameDepth(c, env, x);
  }

  /** A mark covers the move of what no other binding names a part of. */
  lemma ScopeCovers(scope: map<Ident, bool>, sources: map<Ident, Source>, marks: map<Ident, Cause>, marks': map<Ident, Cause>,
                    cells: map<Ident, Cell>, i: nat, d: nat, x: Ident)
    requires CoversScope(scope, sources, marks, cells) && marks.Keys <= marks'.Keys
    requires forall y :: y in sources ==> sources[y] != Of(d, x)
    requires i == d && x in cells ==> x in marks'
    ensures CoversScope(scope, sources, marks', Without(cells, i, d, x))
  {
  }

  lemma MoveCovers(c: Ctx, c': Ctx, env: Env, d: nat, x: Ident)
    requires Covers(c, env) && !c.HasParts(d, x)
    requires c'.Ok() && c'.scopes == c.scopes && c'.sources == c.sources
    requires forall i :: 0 <= i < |c.scopes| ==> c.consumed[i].Keys <= c'.consumed[i].Keys
    requires d < |c.scopes| && x in c.scopes[d] ==> x in c'.consumed[d]
    ensures Covers(c', MoveAway(env, d, x))
  {
    hide CoversScope, Without, Ctx.Bound, Ctx.HasParts;
    var env' := MoveAway(env, d, x);
    forall i | 0 <= i < |env|
      ensures CoversScope(c'.scopes[i], c'.sources[i], c'.consumed[i], env'[i])
    {
      assert CoversScope(c.scopes[i], c.sources[i], c.consumed[i], env[i]);
      NoPartHere(c, d, x, i);
      SameNames(c.scopes[i], c.sources[i], c.consumed[i], env[i]);
      ScopeCovers(c.scopes[i], c.sources[i], c.consumed[i], c'.consumed[i], env[i], i, d, x);
    }
  }

  lemma SameNames(scope: map<Ident, bool>, sources: map<Ident, Source>, marks: map<Ident, Cause>, cells: map<Ident, Cell>)
    requires CoversScope(scope, sources, marks, cells)
    ensures cells.Keys == scope.Keys
  {
  }

  lemma NoPartHere(c: Ctx, d: nat, x: Ident, i: nat)
    requires !c.HasParts(d, x) && i < |c.sources|
    ensures forall y :: y in c.sources[i] ==> c.sources[i][y] != Of(d, x)
  {
  }

  /** The checker's mark covers the move of what `x` names. */
  lemma MarkCovers(c: Ctx, env: Env, x: Ident, why: Cause)
    requires Covers(c, env) && !c.HasParts(Depth(c.scopes, x), x)
    ensures MoveOut(c, x, why) == c.Mark(x, why)
    ensures Covers(c.Mark(x, why), env) && Covers(c.Mark(x, why), MoveAway(env, Depth(env, x), x))
  {
    hide Depth, Ctx.HasParts, CoversTo, Ctx.Bound;
    SameDepth(c, env, x);
    MarkOk(c, x, why);
    SameMarks(c, c.Mark(x, why), env);
    MoveCovers(c, c.Mark(x, why), env, Depth(env, x), x);
  }

  lemma MarkOk(c: Ctx, x: Ident, why: Cause)
    requires c.Ok()
    ensures var c' := c.Mark(x, why);
            && c'.Ok() && c'.scopes == c.scopes && c'.sources == c.sources
            && forall i :: 0 <= i < |c.scopes| ==> c.consumed[i].Keys <= c'.consumed[i].Keys
    ensures var d := Depth(c.scopes, x); d < |c.scopes| ==> x in c.Mark(x, why).consumed[d]
  {
    hide Depth;
  }

  /** What slips away unseen is a whole value, and the marks that the checker does not make cover it. */
  lemma SlipSound(c: Ctx, env: Env, e: Expr, value: Value)
    requires Covers(c, env) && Clean(c, Slip(c, e)) && Comes(Yields(c, e), value, |env|)
    ensures !value.Piece? && Covers(Slip(c, e), Settle(env, value))
  {
    hide Depth, CoversTo, Ctx.HasParts, Ctx.Bound, Yields, Kept, MoveAway;
    NoDoubts(c, Yields(c, e));
    SlipKept(c, e);
    UnseenMarks(c, e);
    SameMarks(c, Slip(c, e), env);
    if value.From? {
      MoveCovers(c, Slip(c, e), env, value.scope, value.x);
    }
  }

  lemma UnseenMarks(c: Ctx, e: Expr)
    requires c.Ok()
    ensures var c' := Slip(c, e);
            && |c'.consumed| == |c.scopes|
            && (forall i :: 0 <= i < |c.scopes| ==> c.consumed[i].Keys <= c'.consumed[i].Keys)
            && forall i: nat, x :: (i, x) in Yields(c, e).holders && i < |c.scopes| && x in c.scopes[i] ==> x in c'.consumed[i]
  {
    hide Depth, Yields, Doubts;
  }

  lemma CoversAlike(c: Ctx, env: Env)
    requires Covers(c, env)
    ensures Alike(c, env)
  {
    forall i | 0 <= i < |env|
      ensures AlikeScope(c.scopes[i], c.sources[i], env[i])
    {
      assert CoversScope(c.scopes[i], c.sources[i], c.consumed[i], env[i]);
    }
  }

  lemma OwnershipAgrees(c: Ctx, env: Env, x: Ident)
    requires Covers(c, env)
    ensures OwnedHere(env, x) <==> c.Lookup(x) == Some(false)
  {
    SameDepth(c, env, x);
  }

  lemma BorrowAgrees(c: Ctx, env: Env, e: Expr)
    requires Covers(c, env)
    ensures BorrowedHere(env, e) <==> IsBorrow(c, e)
  {
    if Root(e).Some? {
      SameDepth(c, env, Root(e).value);
    }
  }

  lemma SourcesAgree(c: Ctx, env: Env, e: Expr)
    requires Covers(c, env) && Root(e).Some?
    ensures MatchedHere(env, Root(e).value) == MatchSource(c, e)
    ensures HeldHere(env, Root(e).value) == New || SourceFrom(HeldHere(env, Root(e).value)) == c.SourceAt(Root(e).value)
    ensures OwnedHere(env, Root(e).value) ==> PartHere(env, Root(e).value) == c.PartOf(Root(e).value)
  {
    hide Depth;
    SameDepth(c, env, Root(e).value);
    OwnershipAgrees(c, env, Root(e).value);
  }

  /** Handing over an argument: a whole value goes, and a mark covers it, made by the
      checker or not. */
  lemma GiveSound(c: Ctx, r: Run, arg: Arg)
    requires Covers(c, r.env) && Clean(c, Give(c, arg)) && Comes(Yields(c, arg.e), r.value, |r.env|)
    ensures arg.mode != Lends ==> GiveAway(r).out == Next && Covers(Give(c, arg), GiveAway(r).env)
    ensures arg.mode == Lends ==> Give(c, arg) == c
  {
    hide Depth, CoversTo, Ctx.Bound, Yields, Slip, Consume, Settle;
    if arg.mode != Lends {
      if arg.mode == Takes && Looked(arg.e) {
        ConsumeSound(c, r.env, arg.e, r.value);
      } else {
        SlipSound(c, r.env, arg.e, r.value);
      }
    }
  }

  lemma ConsumeSound(c: Ctx, env: Env, e: Expr, value: Value)
    requires Covers(c, env) && Looked(e) && Clean(c, Consume(c, e)) && Comes(Yields(c, e), value, |env|)
    ensures !value.Piece? && Covers(Consume(c, e), Settle(env, value))
  {
    hide Depth, CoversTo, Ctx.HasParts, Ctx.Bound, MoveAway, Ctx.SourceAt, Ctx.Lookup, Ctx.Outside;
    if e.Name? {
      SameDepth(c, env, e.x);
      if !c.HasParts(Depth(c.scopes, e.x), e.x) {
        MarkCovers(c, env, e.x, TakeArg);
      }
    }
  }

  /** A binding made from `init` has its value from where the checker's scopes say. */
  lemma MoveSourceCovers(c: Ctx, init: Expr, r: Run)
    requires Covers(c, r.env) && Clean(c, MoveSource(c, init)) && Comes(Yields(c, init), r.value, |r.env|)
    ensures Covers(MoveSource(c, init), LetMoves(init, r))
  {
    hide Depth, CoversTo, Ctx.HasParts, Ctx.Bound, MoveAway, Ctx.SourceAt, Ctx.Outside, Slip, Yields;
    if !Looked(init) {
      SlipSound(c, r.env, init, r.value);
    } else if init.Name? {
      OwnershipAgrees(c, r.env, init.x);
      NameYields(c, init);
      if !c.HasParts(Depth(c.scopes, init.x), init.x) {
        MarkCovers(c, r.env, init.x, Rebind);
      }
    } else {
      PartYields(c, init);
    }
  }

  lemma NameYields(c: Ctx, e: Expr)
    requires c.Ok() && e.Name?
    ensures !e.owns || c.Lookup(e.x) != Some(false) ==> Yields(c, e) == NOBODY
  {
    hide Depth;
  }

  lemma PartYields(c: Ctx, e: Expr)
    requires c.Ok() && e.Part?
    ensures Yields(c, e).holders == {}
  {
    hide Depth;
  }

  lemma BindCovers(c: Ctx, env: Env, x: Ident, borrow: bool, source: Source)
    requires Covers(c, env) && |env| > 0
    ensures Covers(c.Bind(x, borrow, source), BindCell(env, x, borrow, source))
  {
    var c', env' := c.Bind(x, borrow, source), BindCell(env, x, borrow, source);
    forall i | 0 <= i < |env|
      ensures CoversScope(c'.scopes[i], c'.sources[i], c'.consumed[i], env'[i])
    {
      assert CoversScope(c.scopes[i], c.sources[i], c.consumed[i], env[i]);
    }
  }

  lemma {:induction false} BindAllCovers(c: Ctx, env: Env, xs: seq<(Ident, bool)>, borrow: bool, source: Source)
    requires Covers(c, env) && |env| > 0
    ensures Covers(BindAll(c, xs, borrow, source), BindCells(env, xs, borrow, source))
    decreases xs
  {
    if xs != [] {
      var (x, part) := (xs[0].0, if xs[0].1 then source else Whole);
      BindCovers(c, env, x, borrow, part);
      BindAllCovers(c.Bind(x, borrow, part), BindCell(env, x, borrow, part), xs[1..], borrow, source);
    }
  }

  lemma {:induction false} BindEachCovers(c: Ctx, env: Env, xs: seq<(Ident, bool)>)
    requires Covers(c, env) && |env| > 0
    ensures Covers(BindEach(c, xs), BindPairs(env, xs))
    decreases xs
  {
    if xs != [] {
      BindCovers(c, env, xs[0].0, xs[0].1, Whole);
      BindEachCovers(c.Bind(xs[0].0, xs[0].1, Whole), BindCell(env, xs[0].0, xs[0].1, Whole), xs[1..]);
    }
  }

  lemma PushCovers(c: Ctx, env: Env)
    requires Covers(c, env)
    ensures Covers(c.Push(), env + [map[]])
  {
    forall i | 0 <= i <= |env|
      ensures CoversScope(c.Push().scopes[i], c.Push().sources[i], c.Push().consumed[i], (env + [map[]])[i])
    {
      if i < |env| {
        assert CoversScope(c.scopes[i], c.sources[i], c.consumed[i], env[i]);
      }
    }
  }

  /** The outer scopes of a run that is leaving a scope early or on time. */
  ghost predicate CoversOuter(c: Ctx, env: Env) {
    c.Ok() && |env| == |c.scopes| > 0 && CoversTo(c, env, |env| - 1)
  }

  lemma PopCovers(c: Ctx, env: Env)
    requires CoversOuter(c, env)
    ensures Covers(c.Pop(), env[..|env| - 1])
  {
  }

  lemma OuterOf(c: Ctx, env: Env)
    requires Covers(c, env) && |env| > 0
    ensures CoversOuter(c, env)
  {
  }

  lemma OuterGrow(c: Ctx, c': Ctx, env: Env)
    requires CoversOuter(c, env) && Inner(c, c')
    ensures CoversOuter(c', env)
  {
    forall i | 0 <= i < |env| - 1
      ensures CoversScope(c'.scopes[i], c'.sources[i], c'.consumed[i], env[i])
    {
      assert CoversScope(c.scopes[i], c.sources[i], c.consumed[i], env[i]);
      assert c'.scopes[..|c.scopes| - 1][i] == c.scopes[..|c.scopes| - 1][i];
      assert c'.sources[..|c.scopes| - 1][i] == c.sources[..|c.scopes| - 1][i];
    }
  }

  // ----- soundness, form by form -----

  ghost predicate Good(c: Ctx, r: Run) {
    r.out != Bad && Covers(c, r.env)
  }

  lemma {:induction false} ExprSound(fuel: nat, e: Expr, c: Ctx, env: Env, tape: seq<nat>)
    requires Covers(c, env) && Clean(c, Walk(c, e))
    ensures Good(Walk(c, e), Eval(fuel, e, env, tape))
    decreases fuel, 1
  {
    hide CoversTo, Ctx.Bound, Kept, Depth;
    if fuel == 0 {
      Grow(c, Walk(c, e), env);
    } else {
      match e
      case Leaf =>
      case Jump =>
      case Name(x, _) => UseSound(c, env, x); Grow(c, Walk(c, e), env);
      case Receiver(_) => ReceiverSound(c, env); Grow(c, Walk(c, e), env);
      case Part(_, _, _) => PartSound(fuel, e, c, env, tape);
      case Many(operands) => AllSound(fuel - 1, operands, c, env, tape);
      case Perhaps(_, _) => BothSound(fuel, e, c, env, tape);
      case Try(base) => ExprSound(fuel - 1, base, c, env, tape);
      case Call(_) => CallSound(fuel, e, c, env, tape);
      case Assign(_, _) => AssignSound(fuel, e, c, env, tape);
      case If(_, _, _) => IfSound(fuel, e, c, env, tape);
      case Match(_, _) => MatchSound(fuel, e, c, env, tape);
      case Block(stmts) => BlockSound(fuel - 1, stmts, c, env, tape);
      case Loop(_, _, _) => LoopSound(fuel, e, c, env, tape);
    }
  }

  /** The two halves of a clean walk are clean. */
  lemma Halves(c: Ctx, c1: Ctx, c2: Ctx)
    requires SameShape(c, c1) && SameShape(c1, c2) && Clean(c, c2)
    ensures Clean(c, c1) && Clean(c1, c2)
  {
  }

  lemma InnerHalves(c: Ctx, c1: Ctx, c2: Ctx)
    requires Inner(c, c1) && Inner(c1, c2) && Clean(c, c2)
    ensures Clean(c, c1) && Clean(c1, c2)
  {
  }

  lemma {:induction false} AllSound(fuel: nat, es: seq<Expr>, c: Ctx, env: Env, tape: seq<nat>)
    requires Covers(c, env) && Clean(c, WalkAll(c, es))
    ensures Good(WalkAll(c, es), EvalAll(fuel, es, env, tape))
    decreases fuel
  {
    hide CoversTo, Ctx.Bound, Kept, Depth;
    if fuel == 0 {
      Grow(c, WalkAll(c, es), env);
    } else if es != [] {
      var c1 := Walk(c, es[0]);
      Halves(c, c1, WalkAll(c1, es[1..]));
      ExprSound(fuel - 1, es[0], c, env, tape);
      var r := Eval(fuel - 1, es[0], env, tape);
      Grow(c1, WalkAll(c1, es[1..]), r.env);
      if r.out == Next {
        AllSound(fuel - 1, es[1..], c1, r.env, r.tape);
      }
    }
  }

  lemma {:induction false} BothSound(fuel: nat, e: Expr, c: Ctx, env: Env, tape: seq<nat>)
    requires fuel > 0 && Covers(c, env) && Clean(c, Walk(c, e)) && e.Perhaps?
    ensures Good(Walk(c, e), Eval(fuel, e, env, tape))
    decreases fuel, 0
  {
    hide CoversTo, Ctx.Bound, Kept, Depth;
    var c1 := Walk(c, e.first);
    Halves(c, c1, Walk(c1, e.second));
    ExprSound(fuel - 1, e.first, c, env, tape);
    var r := Eval(fuel - 1, e.first, env, tape);
    Grow(c1, Walk(c1, e.second), r.env);
    if r.out == Next {
      ExprSound(fuel - 1, e.second, c1, r.env, Rest(r.tape));
    }
  }

  lemma {:induction false} PartSound(fuel: nat, e: Expr, c: Ctx, env: Env, tape: seq<nat>)
    requires fuel > 0 && Covers(c, env) && Clean(c, Walk(c, e)) && e.Part?
    ensures Good(Walk(c, e), Eval(fuel, e, env, tape))
    decreases fuel, 0
  {
    hide CoversTo, Ctx.Bound, Kept, Depth;
    var c1 := Walk(c, e.base);
    var c2 := WalkAll(c1, e.index);
    KeptTransitive(c, c1, c2, |c.scopes|);
    ReachKept(c2, e);
    Halves(c, c2, Reach(c2, e));
    Halves(c, c1, c2);
    ExprSound(fuel - 1, e.base, c, env, tape);
    var b := Eval(fuel - 1, e.base, env, tape);
    Grow(c1, c2, b.env);
    if b.out == Next {
      AllSound(fuel - 1, e.index, c1, b.env, b.tape);
      var r := EvalAll(fuel - 1, e.index, b.env, b.tape);
      ReachSound(c2, r.env, e);
    }
  }

  lemma {:induction false} AssignSound(fuel: nat, e: Expr, c: Ctx, env: Env, tape: seq<nat>)
    requires fuel > 0 && Covers(c, env) && Clean(c, Walk(c, e)) && e.Assign?
    ensures Good(Walk(c, e), Eval(fuel, e, env, tape))
    decreases fuel, 0
  {
    hide CoversTo, Ctx.Bound, Kept, Depth, WalkBlock, EvalBlock, WalkArms, EvalArms, Yields, Overwrite, Settle;
    var c1 := Walk(c, e.target);
    var c2 := Walk(c1, e.value);
    var c3 := Overwrite(c2, e.target, e.value);
    KeptTransitive(c, c1, c2, |c.scopes|);
    Halves(c, c2, c3);
    Halves(c, c1, c2);
    ExprSound(fuel - 1, e.target, c, env, tape);
    var t := Eval(fuel - 1, e.target, env, tape);
    Grow(c1, c2, t.env);
    Grow(c2, c3, t.env);
    if t.out == Next {
      ExprSound(fuel - 1, e.value, c1, t.env, t.tape);
      var r := Eval(fuel - 1, e.value, t.env, t.tape);
      Grow(c2, c3, r.env);
      if r.out == Next {
        CoversAlike(c2, t.env);
        YieldsSound(fuel - 1, e.value, c2, t.env, t.tape);
        OverwriteSound(c2, r, e.target, e.value);
      }
    }
  }

  lemma OverwriteSound(c: Ctx, r: Run, target: Expr, value: Expr)
    requires Covers(c, r.env) && Clean(c, Overwrite(c, target, value)) && Comes(Yields(c, value), r.value, |r.env|)
    ensures GiveAway(r).out == Next && Covers(Overwrite(c, target, value), GiveAway(r).env)
    ensures Root(target).Some? ==> !Gone(GiveAway(r).env, Root(target).value)
  {
    hide CoversTo, Ctx.Bound, Kept, Depth, Yields, Settle, Slip, Reach;
    SlipKept(c, value);
    ReachKept(Slip(c, value), target);
    Halves(c, Slip(c, value), Overwrite(c, target, value));
    SlipSound(c, r.env, value, r.value);
    ReachSound(Slip(c, value), GiveAway(r).env, target);
  }

  /** A place that is reached without a suspicion has not been moved away. */
  lemma ReachSound(c: Ctx, env: Env, e: Expr)
    requires Covers(c, env) && Clean(c, Reach(c, e))
    ensures Root(e).Some? ==> !Gone(env, Root(e).value)
    ensures Reach(c, e) == c
  {
    hide Depth;
    if Root(e).Some? && c.CauseOf(Root(e).value).None? {
      UnmarkedIsThere(c, env, Root(e).value);
    }
  }

  lemma ReceiverSound(c: Ctx, env: Env)
    requires Covers(c, env) && Clean(c, UseReceiver(c))
    ensures !Gone(env, "self")
  {
    hide Depth;
    if c.CauseOf("self").None? {
      UnmarkedIsThere(c, env, "self");
    }
  }

  lemma UnmarkedIsThere(c: Ctx, env: Env, x: Ident)
    requires Covers(c, env) && c.CauseOf(x).None?
    ensures !Gone(env, x)
  {
    SameDepth(c, env, x);
  }

  lemma {:induction false} CallSound(fuel: nat, e: Expr, c: Ctx, env: Env, tape: seq<nat>)
    requires fuel > 0 && Covers(c, env) && Clean(c, Walk(c, e)) && e.Call?
    ensures Good(Walk(c, e), Eval(fuel, e, env, tape))
    decreases fuel, 0
  {
    hide CoversTo, Ctx.Bound, Kept, Depth;
    var c1 := WalkArgs(c, e.args);
    Halves(c, c1, Lent(c1, e.args));
    ArgsSound(fuel - 1, e.args, c, env, tape);
    var r := EvalArgs(fuel - 1, e.args, env, tape);
    Grow(c1, Lent(c1, e.args), r.env);
    LentSound(c1, r.env, e.args);
  }

  lemma {:induction false} LentSound(c: Ctx, env: Env, args: seq<Arg>)
    requires Covers(c, env) && Clean(c, Lent(c, args))
    ensures !LentGone(env, args)
    decreases args
  {
    hide CoversTo, Ctx.Bound, Kept, Depth, Reach;
    if args != [] {
      ReachKept(c, args[0].e);
      ShapeOfSelf(c);
      var c1 := if LendsOwner(args[0]) then Reach(c, args[0].e) else c;
      Halves(c, c1, Lent(c1, args[1..]));
      if LendsOwner(args[0]) {
        ReachSound(c, env, args[0].e);
      }
      LentSound(c1, env, args[1..]);
      assert args == [args[0]] + args[1..];
    }
  }

  lemma {:induction false} ArgsSound(fuel: nat, args: seq<Arg>, c: Ctx, env: Env, tape: seq<nat>)
    requires Covers(c, env) && Clean(c, WalkArgs(c, args))
    ensures Good(WalkArgs(c, args), EvalArgs(fuel, args, env, tape))
    decreases fuel
  {
    hide CoversTo, Ctx.Bound, Kept, Depth, WalkArg, GiveAway, Eval;
    if fuel == 0 {
      Grow(c, WalkArgs(c, args), env);
    } else if args != [] {
      var c2 := WalkArg(c, args[0]);
      var c3 := WalkArgs(c2, args[1..]);
      Halves(c, c2, c3);
      ArgSound(fuel - 1, args[0], c, env, tape);
      var r := Eval(fuel - 1, args[0].e, env, tape);
      Grow(c2, c3, r.env);
      if r.out == Next {
        var g := if args[0].mode == Lends then r else GiveAway(r);
        ArgsSound(fuel - 1, args[1..], c2, g.env, g.tape);
      }
    }
  }

  lemma {:induction false} ArgSound(fuel: nat, arg: Arg, c: Ctx, env: Env, tape: seq<nat>)
    requires Covers(c, env) && Clean(c, WalkArg(c, arg))
    ensures var r := Eval(fuel, arg.e, env, tape);
            && Good(WalkArg(c, arg), r)
            && (r.out == Next && arg.mode != Lends ==> GiveAway(r).out == Next && Covers(WalkArg(c, arg), GiveAway(r).env))
    decreases fuel, 2
  {
    hide CoversTo, Ctx.Bound, Kept, Depth, Yields, Settle, Give, Walk, Eval, WalkArg, GiveAway;
    var c1, c2 := Walk(c, arg.e), WalkArg(c, arg);
    ArgParts(c, arg);
    ExprSound(fuel, arg.e, c, env, tape);
    var r := Eval(fuel, arg.e, env, tape);
    Grow(c1, c2, r.env);
    if r.out == Next {
      Grow(c, c1, env);
      CoversAlike(c1, env);
      YieldsSound(fuel, arg.e, c1, env, tape);
      GiveSound(c1, r, arg);
    }
  }

  lemma ArgParts(c: Ctx, arg: Arg)
    requires c.Ok() && Clean(c, WalkArg(c, arg))
    ensures WalkArg(c, arg) == Give(Walk(c, arg.e), arg)
    ensures Clean(c, Walk(c, arg.e)) && Clean(Walk(c, arg.e), WalkArg(c, arg))
    ensures SameShape(Walk(c, arg.e), WalkArg(c, arg))
  {
    hide Give;
    GiveKept(Walk(c, arg.e), arg);
  }

  lemma {:induction false} IfSound(fuel: nat, e: Expr, c: Ctx, env: Env, tape: seq<nat>)
    requires fuel > 0 && Covers(c, env) && Clean(c, Walk(c, e)) && e.If?
    ensures Good(Walk(c, e), Eval(fuel, e, env, tape))
    decreases fuel, 0
  {
    hide CoversTo, Ctx.Bound, Kept, Depth, WalkBlock, EvalBlock, Walk, Eval, Merge;
    IfWalks(c, e);
    IfRuns(fuel, e, env, tape);
    var c0 := Walk(c, e.cond);
    var c1 := WalkBlock(c0, e.thn);
    KeptTransitive(c, c0, c1, |c.scopes|);
    BranchHalves(c, e);
    ExprSound(fuel - 1, e.cond, c, env, tape);
    var r := Eval(fuel - 1, e.cond, env, tape);
    Grow(c0, c1, r.env);
    if e.els.Some? {
      var c2 := Walk(c1.(consumed := c0.consumed), e.els.value);
      var c3 := c2.(consumed := Merge(c2.consumed, c1.consumed));
      Union(c0, c1, c2);
      Grow(c0, c3, r.env);
      if r.out == Next {
        if Choice(r.tape) != 0 {
          BlockSound(fuel - 1, e.thn, c0, r.env, Rest(r.tape));
          SameMarks(c1, c3, EvalBlock(fuel - 1, e.thn, r.env, Rest(r.tape)).env);
        } else {
          SameMarks(c0, c1.(consumed := c0.consumed), r.env);
          ExprSound(fuel - 1, e.els.value, c1.(consumed := c0.consumed), r.env, Rest(r.tape));
          SameMarks(c2, c3, Eval(fuel - 1, e.els.value, r.env, Rest(r.tape)).env);
        }
      }
    } else if r.out == Next && Choice(r.tape) != 0 {
      BlockSound(fuel - 1, e.thn, c0, r.env, Rest(r.tape));
    }
  }

  lemma IfWalks(c: Ctx, e: Expr)
    requires c.Ok() && e.If?
    ensures Walk(c, e) == WalkBranches(c, e)
  {
    hide WalkBranches, Kept, Depth;
  }

  lemma IfRuns(fuel: nat, e: Expr, env: Env, tape: seq<nat>)
    requires fuel > 0 && e.If?
    ensures var r := Eval(fuel - 1, e.cond, env, tape);
            var r' := Eval(fuel, e, env, tape);
            if r.out != Next then r' == r
            else if Choice(r.tape) != 0 then
              var b := EvalBlock(fuel - 1, e.thn, r.env, Rest(r.tape)); r'.out == b.out && r'.env == b.env
            else if e.els.None? then r'.out == Next && r'.env == r.env
            else r' == Eval(fuel - 1, e.els.value, r.env, Rest(r.tape))
  {
    hide EvalBlock, Depth;
  }

  lemma BranchHalves(c: Ctx, e: Expr)
    requires c.Ok() && e.If? && Clean(c, WalkBranches(c, e))
    ensures var c0 := Walk(c, e.cond);
            var c1 := WalkBlock(c0, e.thn);
            && Clean(c, c0) && Clean(c0, c1)
            && (e.els.Some? ==> Clean(c1.(consumed := c0.consumed), Walk(c1.(consumed := c0.consumed), e.els.value)))
  {
    var c0 := Walk(c, e.cond);
    var c1 := WalkBlock(c0, e.thn);
    if e.els.Some? {
      var c2 := Walk(c1.(consumed := c0.consumed), e.els.value);
    }
  }

  lemma {:induction false} MatchSound(fuel: nat, e: Expr, c: Ctx, env: Env, tape: seq<nat>)
    requires fuel > 0 && Covers(c, env) && Clean(c, Walk(c, e)) && e.Match?
    ensures Good(Walk(c, e), Eval(fuel, e, env, tape))
    decreases fuel, 0
  {
    hide CoversTo, Ctx.Bound, Kept, Depth, WalkArms, EvalArms, Yields, Slip, Settle, MatchSource, Eval, Walk;
    var c0 := Walk(c, e.scrut);
    var c1 := if Root(e.scrut).None? then Slip(c0, e.scrut) else c0;
    MatchParts(c, e);
    var cn := WalkArms(c1, e.arms, IsBorrow(c, e.scrut), MatchSource(c, e.scrut), c1.consumed);
    BorrowAgrees(c, env, e.scrut);
    ExprSound(fuel - 1, e.scrut, c, env, tape);
    var r := Eval(fuel - 1, e.scrut, env, tape);
    Grow(c0, c1, r.env);
    Grow(c1, cn, r.env);
    MatchRuns(fuel, e, env, tape);
    if r.out == Next {
      if Root(e.scrut).Some? {
        SourcesAgree(c, env, e.scrut);
        ArmsSound(fuel - 1, e.arms, IsBorrow(c, e.scrut), MatchSource(c, e.scrut), c1, c1.consumed, r.env, r.tape);
      } else {
        Grow(c, c0, env);
        CoversAlike(c0, env);
        YieldsSound(fuel - 1, e.scrut, c0, env, tape);
        SlipSound(c0, r.env, e.scrut, r.value);
        NoPlace(c, e.scrut);
        ArmsSound(fuel - 1, e.arms, false, Whole, c1, c1.consumed, Settle(r.env, r.value), r.tape);
      }
    }
  }

  lemma NoPlace(c: Ctx, e: Expr)
    requires c.Ok() && Root(e).None?
    ensures MatchSource(c, e) == Whole && !IsBorrow(c, e)
  {
  }

  lemma MatchParts(c: Ctx, e: Expr)
    requires c.Ok() && e.Match? && Clean(c, Walk(c, e))
    ensures var c0 := Walk(c, e.scrut);
            var c1 := if Root(e.scrut).None? then Slip(c0, e.scrut) else c0;
            && c1.Ok() && SameShape(c0, c1)
            && Walk(c, e) == WalkArms(c1, e.arms, IsBorrow(c, e.scrut), MatchSource(c, e.scrut), c1.consumed)
            && Clean(c, c0) && Clean(c0, c1) && Clean(c1, Walk(c, e))
  {
    hide Kept, Depth, WalkArms, Slip, MatchSource;
    var c0 := Walk(c, e.scrut);
    SlipKept(c0, e.scrut);
    ShapeOfSelf(c0);
    var c1 := if Root(e.scrut).None? then Slip(c0, e.scrut) else c0;
    assert Walk(c, e) == WalkMatch(c, e);
    KeptTransitive(c, c0, c1, |c.scopes|);
    Halves(c, c1, Walk(c, e));
    Halves(c, c0, c1);
  }

  /** Earlier guards move nothing, so every arm starts from the marks before the match. */
  lemma {:induction false} ArmsSound(fuel: nat, arms: seq<Arm>, borrow: bool, source: Source, c: Ctx, saved: seq<map<Ident, Cause>>,
                                     env: Env, tape: seq<nat>)
    requires c.Ok() && Within(saved, c.consumed) && Covers(c.(consumed := saved), env)
    requires Clean(c, WalkArms(c, arms, borrow, source, saved))
    ensures Good(WalkArms(c, arms, borrow, source, saved), EvalArms(fuel, arms, borrow, source, env, tape))
    decreases fuel, 3
  {
    hide CoversTo, Ctx.Bound, Kept, Depth, Walk, WalkArm, WalkGuard, Eval, EvalArms, BindAll, BindCells, EvalGuard;
    var cn := WalkArms(c, arms, borrow, source, saved);
    SameMarks(c.(consumed := saved), c, env);
    Grow(c, cn, env);
    ArmsRun(fuel, arms, borrow, source, env, tape);
    if fuel > 0 && arms != [] {
      if Choice(tape) == 0 {
        var c0 := c.(consumed := saved);
        var c1 := WalkArm(c0, arms[0], borrow, source, |arms| == 1);
        var c2 := c1.(consumed := Merge(c.consumed, c1.consumed));
        ArmUnion(c, saved, c1);
        Halves(c, c2, cn);
        SameMarks(c0, c2.(consumed := saved), env);
        ArmsSound(fuel - 1, arms[1..], borrow, source, c2, saved, env, Rest(tape));
      } else {
        ArmTried(fuel, arms, borrow, source, c, saved, env, tape);
      }
    }
  }

  /** The first arm's pattern matches: its guard may fail, or its body runs. */
  lemma {:induction false} ArmTried(fuel: nat, arms: seq<Arm>, borrow: bool, source: Source, c: Ctx, saved: seq<map<Ident, Cause>>,
                                    env: Env, tape: seq<nat>)
    requires c.Ok() && Within(saved, c.consumed) && Covers(c.(consumed := saved), env)
    requires Clean(c, WalkArms(c, arms, borrow, source, saved)) && fuel > 0 && arms != []
    ensures var g := EvalGuard(fuel - 1, arms[0].guard, BindCells(env + [map[]], arms[0].binds, borrow, source), Rest(tape));
            var cn := WalkArms(c, arms, borrow, source, saved);
            && g.out != Bad && |g.env| >= |env|
            && if g.out == Next && arms[0].guard.Some? && Choice(g.tape) == 0 then
                 Good(cn, EvalArms(fuel - 1, arms[1..], borrow, source, g.env[..|env|], Rest(g.tape)))
               else
                 var b := if g.out != Next then g else Eval(fuel - 1, arms[0].body, g.env, Entered(arms[0], g.tape));
                 b.out != Bad && |b.env| >= |env| && Covers(cn, b.env[..|env|])
    decreases fuel, 2
  {
    hide CoversTo, Ctx.Bound, Kept, Depth, Walk, WalkArm, WalkGuard, Eval, EvalArms, BindAll, BindCells, EvalGuard;
    var cn := WalkArms(c, arms, borrow, source, saved);
    var c0 := c.(consumed := saved);
    var c1 := WalkArm(c0, arms[0], borrow, source, |arms| == 1);
    var c2 := c1.(consumed := Merge(c.consumed, c1.consumed));
    ArmUnion(c, saved, c1);
    Halves(c, c2, cn);
    ArmSound(fuel - 1, arms[0], borrow, source, |arms| == 1, c0, env, Rest(tape));
    var g := EvalGuard(fuel - 1, arms[0].guard, BindCells(env + [map[]], arms[0].binds, borrow, source), Rest(tape));
    if g.out == Next && arms[0].guard.Some? && Choice(g.tape) == 0 {
      if |arms| == 1 {
        SameMarks(c1, c2, g.env[..|env|]);
        Grow(c2, cn, g.env[..|env|]);
        ArmsRun(fuel - 1, arms[1..], borrow, source, g.env[..|env|], Rest(g.tape));
      } else {
        SameMarks(c0, c2.(consumed := saved), g.env[..|env|]);
        ArmsSound(fuel - 1, arms[1..], borrow, source, c2, saved, g.env[..|env|], Rest(g.tape));
      }
    } else {
      var b := if g.out != Next then g else Eval(fuel - 1, arms[0].body, g.env, Entered(arms[0], g.tape));
      SameMarks(c1, c2, b.env[..|env|]);
      Grow(c2, cn, b.env[..|env|]);
    }
  }

  /** The guard leaves the marks before the match alone unless it is the last one. */
  lemma {:induction false} ArmSound(fuel: nat, arm: Arm, borrow: bool, source: Source, last: bool, c: Ctx, env: Env, tape: seq<nat>)
    requires Covers(c, env) && Clean(c, WalkArm(c, arm, borrow, source, last))
    ensures var g := EvalGuard(fuel, arm.guard, BindCells(env + [map[]], arm.binds, borrow, source), tape);
            var c' := WalkArm(c, arm, borrow, source, last);
            && g.out != Bad
            && Covers(c', g.env[..|env|])
            && (!last ==> Covers(c, g.env[..|env|]))
            && (g.out == Next ==>
                  var b := Eval(fuel, arm.body, g.env, Entered(arm, g.tape));
                  b.out != Bad && Covers(c', b.env[..|env|]))
    decreases fuel, 4
  {
    hide CoversTo, Ctx.Bound, Kept, Depth, Walk, WalkGuard, Eval, BindAll, BindCells, EvalGuard, Ctx.Push, Ctx.Pop;
    ArmOpens(c, arm, borrow, source, env);
    var c1 := BindAll(c.Push(), arm.binds, borrow, source);
    var c2 := if arm.guard.None? then c1 else WalkGuard(c1, arm.guard.value, c.consumed, last);
    var c3 := Walk(c2, arm.body);
    var inner := BindCells(env + [map[]], arm.binds, borrow, source);
    ArmHalves(c, arm, borrow, source, last);
    GuardSound(fuel, arm, last, c1, c.consumed, inner, tape);
    var g := EvalGuard(fuel, arm.guard, inner, tape);
    Grow(c2, c3, g.env);
    PopWhole(c3, g.env);
    if !last {
      GuardPopped(c, c1, c2, g.env);
    }
    if g.out == Next {
      ExprSound(fuel, arm.body, c2, g.env, Entered(arm, g.tape));
      PopWhole(c3, Eval(fuel, arm.body, g.env, Entered(arm, g.tape)).env);
    }
  }

  lemma PopWhole(c: Ctx, env: Env)
    requires Covers(c, env) && |env| > 0
    ensures Covers(c.Pop(), env[..|env| - 1])
  {
    PopCovers(c, env);
  }

  /** The scope that the pattern's bindings open. */
  lemma ArmOpens(c: Ctx, arm: Arm, borrow: bool, source: Source, env: Env)
    requires Covers(c, env)
    ensures c.Push().Ok() && |c.Push().scopes| > 0 && c.Ok() && |env| == |c.scopes|
    ensures var c1 := BindAll(c.Push(), arm.binds, borrow, source);
            && Covers(c1, BindCells(env + [map[]], arm.binds, borrow, source))
            && c1.Ok() && |c1.scopes| == |c.scopes| + 1
            && c1.scopes[..|c.scopes|] == c.scopes && c1.sources[..|c.scopes|] == c.sources
            && forall i :: 0 <= i < |c.scopes| ==> c1.consumed[i].Keys == c.consumed[i].Keys
  {
    hide CoversTo, Ctx.Bound, Kept, Depth;
    PushCovers(c, env);
    BindAllCovers(c.Push(), env + [map[]], arm.binds, borrow, source);
    BindReportsNothing(c.Push(), arm.binds, borrow, source);
    var c1 := BindAll(c.Push(), arm.binds, borrow, source);
    forall i | 0 <= i < |c.scopes|
      ensures c1.consumed[i] == c.consumed[i]
    {
      assert c1.consumed[..|c.scopes|][i] == c.Push().consumed[..|c.scopes|][i];
    }
  }

  lemma ArmHalves(c: Ctx, arm: Arm, borrow: bool, source: Source, last: bool)
    requires c.Ok() && Clean(c, WalkArm(c, arm, borrow, source, last))
    ensures var c1 := BindAll(c.Push(), arm.binds, borrow, source);
            var c2 := if arm.guard.None? then c1 else WalkGuard(c1, arm.guard.value, c.consumed, last);
            && Clean(c1, c2) && Clean(c2, Walk(c2, arm.body))
  {
    hide Kept, Walk, WalkGuard, BindAll, Depth, Ctx.Bound;
    PushOk(c);
    BindReportsNothing(c.Push(), arm.binds, borrow, source);
    var c1 := BindAll(c.Push(), arm.binds, borrow, source);
    var c2 := if arm.guard.None? then c1 else WalkGuard(c1, arm.guard.value, c.consumed, last);
    ShapeOfSelf(c1);
    Halves(c1, c2, Walk(c2, arm.body));
  }

  lemma ShapeOfSelf(c: Ctx)
    requires c.Ok()
    ensures SameShape(c, c)
  {
  }

  lemma {:induction false} GuardSound(fuel: nat, arm: Arm, last: bool, c: Ctx, saved: seq<map<Ident, Cause>>, env: Env, tape: seq<nat>)
    requires Covers(c, env) && |c.scopes| == |saved| + 1
    requires var c' := if arm.guard.None? then c else WalkGuard(c, arm.guard.value, saved, last); Clean(c, c')
    requires forall i :: 0 <= i < |saved| ==> c.consumed[i].Keys == saved[i].Keys
    ensures var c' := if arm.guard.None? then c else WalkGuard(c, arm.guard.value, saved, last);
            var g := EvalGuard(fuel, arm.guard, env, tape);
            && g.out != Bad && Covers(c', g.env) && SameShape(c, c')
            && (!last ==> forall i :: 0 <= i < |saved| ==> c'.consumed[i].Keys == saved[i].Keys)
    decreases fuel, 0
  {
    hide CoversTo, Ctx.Bound, Kept, Depth;
    ShapeOfSelf(c);
    if arm.guard.Some? {
      GuardClean(c, arm.guard.value, saved, last);
      Grow(c, Walk(c, arm.guard.value), env);
      if fuel > 0 {
        ExprSound(fuel - 1, arm.guard.value, c, env, tape);
      }
    }
  }

  /** Two states with the same reports and the same outer scopes. */
  ghost predicate SameBelow(c: Ctx, c': Ctx) {
    && |c.scopes| == |c'.scopes| == |c.sources| == |c'.sources| == |c.consumed| == |c'.consumed| && |c.scopes| > 0
    && Clean(c, c')
    && c'.scopes[..|c.scopes| - 1] == c.scopes[..|c.scopes| - 1]
    && c'.sources[..|c.scopes| - 1] == c.sources[..|c.scopes| - 1]
    && c'.consumed[..|c.scopes| - 1] == c.consumed[..|c.scopes| - 1]
  }

  lemma {:induction false} BindReportsNothing(c: Ctx, xs: seq<(Ident, bool)>, borrow: bool, source: Source)
    requires c.Ok() && |c.scopes| > 0
    ensures SameBelow(c, BindAll(c, xs, borrow, source))
    decreases xs
  {
    hide Depth, Kept;
    if xs != [] {
      var (x, part) := (xs[0].0, if xs[0].1 then source else Whole);
      BindAbove(c, x, borrow, part);
      hide SameBelow;
      BindReportsNothing(c.Bind(x, borrow, part), xs[1..], borrow, source);
      SameBelowTransitive(c, c.Bind(x, borrow, part), BindAll(c, xs, borrow, source));
    }
  }

  lemma BindAbove(c: Ctx, x: Ident, borrow: bool, source: Source)
    requires c.Ok() && |c.scopes| > 0
    ensures c.Bind(x, borrow, source).Ok() && SameBelow(c, c.Bind(x, borrow, source))
    ensures Inner(c, c.Bind(x, borrow, source))
  {
  }

  lemma SameBelowTransitive(c: Ctx, c1: Ctx, c2: Ctx)
    requires SameBelow(c, c1) && SameBelow(c1, c2)
    ensures SameBelow(c, c2)
  {
  }

  lemma GuardClean(c: Ctx, g: Expr, saved: seq<map<Ident, Cause>>, last: bool)
    requires c.Ok() && |c.scopes| == |saved| + 1 && Clean(c, WalkGuard(c, g, saved, last))
    ensures WalkGuard(c, g, saved, last) == Walk(c, g)
    ensures !last ==> forall i :: 0 <= i < |saved| ==> Walk(c, g).consumed[i].Keys == saved[i].Keys
  {
  }

  lemma GuardPopped(c: Ctx, c1: Ctx, c2: Ctx, env: Env)
    requires c.Ok() && |c1.scopes| == |c.scopes| + 1 && SameShape(c1, c2) && Covers(c2, env)
    requires c1.scopes[..|c.scopes|] == c.scopes && c1.sources[..|c.scopes|] == c.sources
    requires forall i :: 0 <= i < |c.scopes| ==> c2.consumed[i].Keys == c.consumed[i].Keys
    ensures Covers(c, env[..|env| - 1])
  {
    forall i | 0 <= i < |env| - 1
      ensures CoversScope(c.scopes[i], c.sources[i], c.consumed[i], env[i])
    {
      assert CoversScope(c2.scopes[i], c2.sources[i], c2.consumed[i], env[i]);
      assert c1.scopes[..|c.scopes|][i] == c1.scopes[i] && c1.sources[..|c.scopes|][i] == c1.sources[i];
    }
  }

  lemma {:induction false} BlockSound(fuel: nat, stmts: seq<Stmt>, c: Ctx, env: Env, tape: seq<nat>)
    requires Covers(c, env) && Clean(c, WalkBlock(c, stmts))
    ensures Good(WalkBlock(c, stmts), EvalBlock(fuel, stmts, env, tape))
    decreases fuel
  {
    hide CoversTo, Ctx.Bound, Kept, Depth;
    if fuel == 0 {
      Grow(c, WalkBlock(c, stmts), env);
    } else {
      PushCovers(c, env);
      StmtsSound(fuel - 1, stmts, c.Push(), env + [map[]], tape);
      PopCovers(WalkStmts(c.Push(), stmts), EvalStmts(fuel - 1, stmts, env + [map[]], tape).env);
    }
  }

  lemma {:induction false} StmtsSound(fuel: nat, stmts: seq<Stmt>, c: Ctx, env: Env, tape: seq<nat>)
    requires Covers(c, env) && |env| > 0 && Clean(c, WalkStmts(c, stmts))
    ensures var r := EvalStmts(fuel, stmts, env, tape);
            var c' := WalkStmts(c, stmts);
            r.out != Bad && CoversOuter(c', r.env) && (r.out == Next ==> Covers(c', r.env))
    decreases fuel
  {
    hide CoversTo, Ctx.Bound, Kept, Depth, WalkStmt, EvalStmt;
    if fuel == 0 {
      OuterOf(c, env);
      OuterGrow(c, WalkStmts(c, stmts), env);
    } else if stmts == [] {
      OuterOf(c, env);
    } else {
      var c1 := WalkStmt(c, stmts[0]);
      var cn := WalkStmts(c1, stmts[1..]);
      InnerHalves(c, c1, cn);
      StmtSound(fuel - 1, stmts[0], c, env, tape);
      var r := EvalStmt(fuel - 1, stmts[0], env, tape);
      OuterGrow(c1, cn, r.env);
      if r.out == Next {
        StmtsSound(fuel - 1, stmts[1..], c1, r.env, r.tape);
      }
    }
  }

  lemma {:induction false} StmtSound(fuel: nat, s: Stmt, c: Ctx, env: Env, tape: seq<nat>)
    requires Covers(c, env) && |env| > 0 && Clean(c, WalkStmt(c, s))
    ensures var r := EvalStmt(fuel, s, env, tape);
            var c' := WalkStmt(c, s);
            r.out != Bad && CoversOuter(c', r.env) && (r.out == Next ==> Covers(c', r.env))
    decreases fuel
  {
    hide CoversTo, Ctx.Bound, Kept, Depth, Walk, Eval, Yields, SourceOf, LetMoves, Returning, MoveSource;
    OuterOf(c, env);
    OuterGrow(c, WalkStmt(c, s), env);
    if fuel > 0 {
      match s
      case Let(x, None) =>
        BindCovers(c, env, x, false, Whole);
        OuterOf(c.Bind(x, false, Whole), BindCell(env, x, false, Whole));
      case Let(_, Some(_)) => LetSound(fuel, s, c, env, tape);
      case Return(None) =>
      case Return(Some(value)) =>
        var c1 := Walk(c, value);
        ReturningKept(c1, value);
        Halves(c, c1, Returning(c1, value));
        ExprSound(fuel - 1, value, c, env, tape);
        var r := Eval(fuel - 1, value, env, tape);
        Grow(c1, Returning(c1, value), r.env);
        OuterOf(Returning(c1, value), r.env);
        if r.out == Next {
          Grow(c, c1, env);
          CoversAlike(c1, env);
          YieldsSound(fuel - 1, value, c1, env, tape);
          NoPartReturned(c1, value);
        }
      case Do(e) =>
        ExprSound(fuel - 1, e, c, env, tape);
        OuterOf(Walk(c, e), Eval(fuel - 1, e, env, tape).env);
    }
  }

  lemma NoPartReturned(c: Ctx, value: Expr)
    requires c.Ok() && Clean(c, Returning(c, value))
    ensures !Yields(c, value).part
  {
    hide Yields, Depth;
  }

  lemma {:induction false} LetSound(fuel: nat, s: Stmt, c: Ctx, env: Env, tape: seq<nat>)
    requires Covers(c, env) && |env| > 0 && Clean(c, WalkStmt(c, s)) && fuel > 0 && s.Let? && s.init.Some?
    ensures var r := EvalStmt(fuel, s, env, tape);
            var c' := WalkStmt(c, s);
            r.out != Bad && CoversOuter(c', r.env) && (r.out == Next ==> Covers(c', r.env))
    decreases fuel, 0
  {
    hide CoversTo, Ctx.Bound, Kept, Depth, Walk, Eval, Yields, SourceOf, LetMoves, MoveSource, Ctx.Bind, BindCell;
    var init := s.init.value;
    var c1 := Walk(c, init);
    var c2 := MoveSource(c1, init);
    var c3 := c2.Bind(s.x, IsBorrow(c1, init), SourceOf(c1, init));
    BindAbove(c2, s.x, IsBorrow(c1, init), SourceOf(c1, init));
    Halves(c, c1, c2);
    ExprSound(fuel - 1, init, c, env, tape);
    var r := Eval(fuel - 1, init, env, tape);
    Grow(c1, c2, r.env);
    OuterOf(c2, r.env);
    OuterGrow(c2, c3, r.env);
    if r.out == Next {
      Grow(c, c1, env);
      CoversAlike(c1, env);
      YieldsSound(fuel - 1, init, c1, env, tape);
      BorrowAgrees(c1, r.env, init);
      InitAgrees(fuel - 1, init, c1, env, tape);
      MoveSourceCovers(c1, init, r);
      BindCovers(c2, LetMoves(init, r), s.x, IsBorrow(c1, init), SourceOf(c1, init));
      OuterOf(c3, BindCell(LetMoves(init, r), s.x, IsBorrow(c1, init), SourceOf(c1, init)));
    }
  }

  /** A binding made from `init` has its value from where the checker's scopes say. */
  lemma InitAgrees(fuel: nat, init: Expr, c: Ctx, env: Env, tape: seq<nat>)
    requires var r := Eval(fuel, init, env, tape);
             r.out == Next && Covers(c, r.env) && Comes(Yields(c, init), r.value, |env|) && Clean(c, MoveSource(c, init))
    ensures SourceFrom(Eval(fuel, init, env, tape).value) == SourceOf(c, init)
  {
    hide CoversTo, Ctx.Bound, Kept, Depth, Yields, MoveSource, Settled;
    var r := Eval(fuel, init, env, tape);
    if Looked(init) {
      SourcesAgree(c, r.env, init);
      OwnershipAgrees(c, r.env, Root(init).value);
      PlaceValue(fuel, init, env, tape);
    } else {
      SlipsWhole(c, init);
    }
  }

  lemma SlipsWhole(c: Ctx, init: Expr)
    requires c.Ok() && !Looked(init) && Clean(c, MoveSource(c, init))
    ensures SourceOf(c, init) == Whole && !Yields(c, init).part
  {
    hide Yields, Kept, Depth;
    NoDoubts(c, Yields(c, init));
  }

  lemma PlaceValue(fuel: nat, e: Expr, env: Env, tape: seq<nat>)
    requires Looked(e) && Eval(fuel, e, env, tape).out == Next
    ensures var r := Eval(fuel, e, env, tape);
            match e
            case Name(x, owns) => r.value == if owns then HeldHere(r.env, x) else New
            case Part(_, _, owns) =>
              r.value == if owns && OwnedHere(r.env, Root(e).value) then Piece(PartHere(r.env, Root(e).value)) else New
  {
    hide Depth;
  }

  // ----- loops: one pass stands for all iterations -----

  ghost function Floored(c: Ctx): Ctx {
    c.(floors := c.floors + [|c.scopes|]).Push()
  }

  lemma FlooredOk(c: Ctx)
    requires c.Ok()
    ensures Floored(c).Ok() && |Floored(c).scopes| == |c.scopes| + 1
  {
  }

  /** A clean loop marks nothing below its floor, so the marks before the loop cover
      the run before every iteration. */
  lemma LoopKeepsMarks(c: Ctx, e: Expr)
    requires c.Ok() && e.Loop? && Clean(c, WalkLoop(c, e))
    ensures var c1 := Floored(c);
            var ch := WalkHead(c1, e.head);
            var cb := WalkBlock(ch, e.body);
            && Clean(c1, ch) && Clean(ch, cb) && Clean(cb, Striding(cb, e.head))
            && (forall i :: 0 <= i < |c.scopes| ==> ch.consumed[i].Keys == c.consumed[i].Keys)
            && (forall i :: 0 <= i < |c.scopes| ==> cb.consumed[i].Keys == c.consumed[i].Keys)
            && ch.scopes[..|c.scopes|] == c.scopes && cb.scopes[..|c.scopes|] == c.scopes
            && ch.sources[..|c.scopes|] == c.sources && cb.sources[..|c.scopes|] == c.sources
            && |ch.scopes| == |cb.scopes| == |c.scopes| + 1 && cb.floors == c1.floors
  {
    hide Striding;
    var c1 := Floored(c);
    var ch := WalkHead(c1, e.head);
    var cb := WalkBlock(ch, e.body);
    assert Clean(c1, ch) && Clean(ch, cb) && Clean(cb, Striding(cb, e.head));
    assert c1.floors[|c1.floors| - 1] == |c.scopes|;
    forall i | 0 <= i < |c.scopes|
      ensures ch.consumed[i].Keys == c.consumed[i].Keys && cb.consumed[i].Keys == c.consumed[i].Keys
    {
      assert c1.consumed[i] == c.consumed[i];
    }
  }

  /** Nor does its stride, which the checker does not walk. */
  lemma StrideKeepsMarks(c: Ctx, e: Expr, stride: Expr)
    requires c.Ok() && e.Loop? && Clean(c, WalkLoop(c, e)) && e.head.Iter? && e.head.stride == Some(stride)
    ensures var cb := WalkBlock(WalkHead(Floored(c), e.head), e.body);
            var cs := Walk(cb, stride);
            && Clean(cb, cs) && |cs.scopes| == |c.scopes| + 1
            && cs.scopes[..|c.scopes|] == c.scopes && cs.sources[..|c.scopes|] == c.sources
            && (forall i :: 0 <= i < |c.scopes| ==> cs.consumed[i].Keys == c.consumed[i].Keys)
  {
    hide Walk, WalkBlock, WalkHead, WalkLoop, Depth;
    LoopKeepsMarks(c, e);
    var cb := WalkBlock(WalkHead(Floored(c), e.head), e.body);
    StrideClean(cb, e.head);
    var cs := Walk(cb, stride);
    assert cb.floors[|cb.floors| - 1] == |c.scopes|;
    forall i | 0 <= i < |c.scopes|
      ensures cs.consumed[i].Keys == c.consumed[i].Keys
    {
    }
  }

  lemma StrideClean(c: Ctx, head: Head)
    requires c.Ok() && head.Iter? && head.stride.Some? && Clean(c, Striding(c, head))
    ensures Clean(c, Walk(c, head.stride.value))
  {
    hide Walk, Depth, Kept;
  }

  /** Leaving the loop's scope comes back to the marks before the loop. */
  lemma BackBelowFloor(c: Ctx, c': Ctx, env: Env)
    requires c.Ok() && c'.Ok() && |c'.scopes| == |c.scopes| + 1 && c'.scopes[..|c.scopes|] == c.scopes
    requires c'.sources[..|c.scopes|] == c.sources
    requires forall i :: 0 <= i < |c.scopes| ==> c'.consumed[i].Keys == c.consumed[i].Keys
    requires CoversOuter(c', env)
    ensures Covers(c, env[..|env| - 1])
  {
    forall i | 0 <= i < |env| - 1
      ensures CoversScope(c.scopes[i], c.sources[i], c.consumed[i], env[i])
    {
      assert CoversScope(c'.scopes[i], c'.sources[i], c'.consumed[i], env[i]);
      assert c'.scopes[..|c.scopes|][i] == c'.scopes[i] && c'.sources[..|c.scopes|][i] == c'.sources[i];
    }
  }

  lemma {:induction false} LoopSound(fuel: nat, e: Expr, c: Ctx, env: Env, tape: seq<nat>)
    requires fuel > 0 && Covers(c, env) && Clean(c, Walk(c, e)) && e.Loop?
    ensures Good(Walk(c, e), Eval(fuel, e, env, tape))
    decreases fuel, 0
  {
    hide CoversTo, Ctx.Bound, Kept, Depth;
    var c1 := WalkLoop(c, e);
    Halves(c, c1, WalkBlock(c1, e.after));
    EnterSound(fuel - 1, e, c, env, tape);
    var r := EnterLoop(fuel - 1, e, env, tape);
    Grow(c, c1, r.env);
    Grow(c1, WalkBlock(c1, e.after), r.env);
    if r.out == Next {
      BlockSound(fuel - 1, e.after, c1, r.env, Rest(r.tape));
    }
  }

  lemma {:induction false} EnterSound(fuel: nat, e: Expr, c: Ctx, env: Env, tape: seq<nat>)
    requires Covers(c, env) && e.Loop? && Clean(c, WalkLoop(c, e))
    ensures Good(c, EnterLoop(fuel, e, env, tape))
    decreases fuel
  {
    hide CoversTo, Ctx.Bound, Kept, Depth, Walk, Eval, WalkBlock, WalkAll, EvalAll, WalkHead, Iterate;
    if fuel > 0 {
      if e.head.Iter? {
        FlooredOk(c);
        LoopKeepsMarks(c, e);
        SourcesKeepMarks(c, e);
        PushCovers(c, env);
        var c1 := WalkAll(Floored(c), e.head.sources);
        SameMarks(c.Push(), Floored(c), env + [map[]]);
        AllSound(fuel - 1, e.head.sources, Floored(c), env + [map[]], tape);
        var r := EvalAll(fuel - 1, e.head.sources, env + [map[]], tape);
        OuterOf(c1, r.env);
        BackBelowFloor(c, c1, r.env);
        IterateSound(fuel - 1, e, c, r.env[..|env|], r.tape);
      } else {
        IterateSound(fuel - 1, e, c, env, tape);
      }
    }
  }

  lemma SourcesKeepMarks(c: Ctx, e: Expr)
    requires c.Ok() && e.Loop? && e.head.Iter? && Clean(c, WalkLoop(c, e))
    ensures var c1 := WalkAll(Floored(c), e.head.sources);
            && Clean(Floored(c), c1)
            && |c1.scopes| == |c.scopes| + 1 && c1.scopes[..|c.scopes|] == c.scopes
            && c1.sources[..|c.scopes|] == c.sources
            && (forall i :: 0 <= i < |c.scopes| ==> c1.consumed[i].Keys == c.consumed[i].Keys)
  {
    LoopKeepsMarks(c, e);
    var c0 := Floored(c);
    var c1 := WalkAll(c0, e.head.sources);
    assert WalkHead(c0, e.head) == BindEach(c1, e.head.binds);
    assert Clean(c0, c1);
    assert c0.floors[|c0.floors| - 1] == |c.scopes|;
    forall i | 0 <= i < |c.scopes|
      ensures c1.consumed[i].Keys == c.consumed[i].Keys
    {
      assert c0.consumed[i] == c.consumed[i];
    }
  }

  lemma {:induction false} IterateSound(fuel: nat, e: Expr, c: Ctx, env: Env, tape: seq<nat>)
    requires Covers(c, env) && e.Loop? && Clean(c, WalkLoop(c, e))
    ensures Good(c, Iterate(fuel, e, env, tape))
    decreases fuel
  {
    hide CoversTo, Ctx.Bound, Kept, Depth, Walk, Eval, WalkBlock, WalkHead, WalkLoop, EvalHead, EvalBlock, EvalStride;
    if fuel > 0 {
      FlooredOk(c);
      LoopKeepsMarks(c, e);
      var ch := WalkHead(Floored(c), e.head);
      var cb := WalkBlock(ch, e.body);
      PushCovers(c, env);
      SameMarks(c.Push(), Floored(c), env + [map[]]);
      HeadSound(fuel - 1, e.head, Floored(c), env + [map[]], tape);
      var h := EvalHead(fuel - 1, e.head, env + [map[]], tape);
      BackBelowFloor(c, ch, h.env);
      if h.out == Next && (Choice(h.tape) != 0 || e.head.Infinite?) {
        BlockSound(fuel - 1, e.body, ch, h.env, Rest(h.tape));
        var b := EvalBlock(fuel - 1, e.body, h.env, Rest(h.tape));
        OuterOf(cb, b.env);
        BackBelowFloor(c, cb, b.env);
        var tape' := if b.out == Next then b.tape else Rest(b.tape);
        StrideSound(fuel - 1, e, c, b.env, tape');
        var s := EvalStride(fuel - 1, e.head, b.env, tape');
        IterateSound(fuel - 1, e, c, s.env[..|env|], s.tape);
      }
    }
  }

  /** The stride, behind any round, leaves the marks before the loop covering the run. */
  lemma {:induction false} StrideSound(fuel: nat, e: Expr, c: Ctx, env: Env, tape: seq<nat>)
    requires e.Loop? && c.Ok() && Clean(c, WalkLoop(c, e)) && Floored(c).Ok() && |Floored(c).scopes| > 0
    requires Covers(WalkBlock(WalkHead(Floored(c), e.head), e.body), env) && |env| == |c.scopes| + 1
    ensures var r := EvalStride(fuel, e.head, env, tape); r.out != Bad && Covers(c, r.env[..|c.scopes|])
    decreases fuel
  {
    hide CoversTo, Ctx.Bound, Kept, Depth, Walk, Eval, WalkBlock, WalkHead, WalkLoop;
    LoopKeepsMarks(c, e);
    var cb := WalkBlock(WalkHead(Floored(c), e.head), e.body);
    OuterOf(cb, env);
    BackBelowFloor(c, cb, env);
    if fuel > 0 && e.head.Iter? && e.head.stride.Some? {
      var stride := e.head.stride.value;
      StrideKeepsMarks(c, e, stride);
      ExprSound(fuel - 1, stride, cb, env, tape);
      var r := Eval(fuel - 1, stride, env, tape);
      OuterOf(Walk(cb, stride), r.env);
      BackBelowFloor(c, Walk(cb, stride), r.env);
    }
  }

  lemma {:induction false} HeadSound(fuel: nat, head: Head, c: Ctx, env: Env, tape: seq<nat>)
    requires Covers(c, env) && |env| > 0 && Clean(c, WalkHead(c, head))
    ensures var r := EvalHead(fuel, head, env, tape);
            var c' := WalkHead(c, head);
            r.out != Bad && CoversOuter(c', r.env) && (r.out == Next ==> Covers(c', r.env))
    decreases fuel
  {
    hide CoversTo, Ctx.Bound, Kept, Depth;
    OuterOf(c, env);
    OuterGrow(c, WalkHead(c, head), env);
    if fuel > 0 {
      match head
      case Infinite =>
      case While(cond) =>
        ExprSound(fuel - 1, cond, c, env, tape);
        OuterOf(Walk(c, cond), Eval(fuel - 1, cond, env, tape).env);
      case Iter(binds, sources, _) =>
        var c1 := WalkAll(c, sources);
        Grow(c, c1, env);
        BindEachCovers(c1, env, binds);
        OuterOf(BindEach(c1, binds), BindPairs(env, binds));
    }
  }

  // ----- the theorem -----

  /** A function: its `take` parameters own their values, the others are borrows. `demands`
      and `promises` are its `requires` and `ensures` clauses. */
  datatype Function = Function(params: seq<(Ident, bool)>, demands: seq<Expr>, body: seq<Stmt>, promises: seq<Expr>)

  function Entry(f: Function): (c: Ctx)
    ensures c.Ok()
  {
    BindEach(NOTHING.Push(), f.params)
  }

  /** The checker walks the body alone. The clauses are asserted around it, and the value of
      the body is the result. */
  function Check(f: Function): (c: Ctx)
    ensures c.Ok()
  {
    var c := WalkBlock(Entry(f), f.body);
    c.(hazards := c.hazards + Doubted(f, Entry(f), c))
  }

  function Doubted(f: Function, entry: Ctx, c: Ctx): seq<Hazard>
    requires entry.Ok() && c.Ok()
  {
    (if YieldsBlock(entry, f.body).part then [ReturnsPart] else [])
    + (if Unmoved(entry, WalkAll(entry, f.demands)) && Clean(c, WalkAll(c, f.promises)) then [] else [ClauseMoves])
  }

  predicate Unmoved(c: Ctx, c': Ctx) {
    Clean(c, c') && c'.consumed == c.consumed
  }

  function RunOf(f: Function, fuel: nat, tape: seq<nat>): Run {
    var q := EvalAll(fuel, f.demands, BindPairs([map[]], f.params), tape);
    if q.out != Next then q
    else
      var b := EvalBlock(fuel, f.body, q.env, q.tape);
      var r := if b.out == Next then Handed(b, Returns) else b;
      if r.out != Returns || Choice(r.tape) == 0 then r
      else EvalAll(fuel, f.promises, r.env, Rest(r.tape))
  }

  /** The checker reported nothing and met none of the hazards. */
  predicate Accepted(f: Function) {
    Check(f).diags == [] && Check(f).hazards == []
  }

  lemma NothingCovers()
    ensures NOTHING.Push().Ok() && |NOTHING.Push().scopes| == 1
    ensures NOTHING.Push().diags == [] && NOTHING.Push().hazards == []
    ensures Covers(NOTHING.Push(), [map[]])
  {
  }

  /** Move soundness: no run of an accepted function, whatever its branches, loops, strides,
      jumps and clauses do, reads, overwrites, lends or gives away a binding that was moved
      before, or gives away or returns a part of what a binding still owns. */
  lemma AcceptedNeverBad(f: Function, fuel: nat, tape: seq<nat>)
    requires Accepted(f)
    ensures RunOf(f, fuel, tape).out != Bad
  {
    NothingCovers();
    hide CoversTo, Ctx.Bound, Kept, Depth, WalkBlock, EvalBlock, Ctx.Push, WalkAll, EvalAll, YieldsBlock;
    var c0, c := Entry(f), WalkBlock(Entry(f), f.body);
    var env := BindPairs([map[]], f.params);
    BindEachCovers(NOTHING.Push(), [map[]], f.params);
    EntryReportsNothing(NOTHING.Push(), f.params);
    NothingDoubted(f, c0, c);
    AllSound(fuel, f.demands, c0, env, tape);
    var q := EvalAll(fuel, f.demands, env, tape);
    if q.out == Next {
      SameMarks(WalkAll(c0, f.demands), c0, q.env);
      BlockSound(fuel, f.body, c0, q.env, q.tape);
      CoversAlike(c0, q.env);
      BlockComes(fuel, f.body, c0, q.env, q.tape);
      var b := EvalBlock(fuel, f.body, q.env, q.tape);
      AllSound(fuel, f.promises, c, b.env, Rest(b.tape));
    }
  }

  lemma NothingDoubted(f: Function, entry: Ctx, c: Ctx)
    requires entry.Ok() && c.Ok() && Doubted(f, entry, c) == []
    ensures !YieldsBlock(entry, f.body).part
    ensures Unmoved(entry, WalkAll(entry, f.demands)) && Clean(c, WalkAll(c, f.promises))
  {
    hide YieldsBlock, WalkAll, Clean;
  }

  lemma {:induction false} EntryReportsNothing(c: Ctx, xs: seq<(Ident, bool)>)
    requires c.Ok() && |c.scopes| > 0
    ensures Clean(c, BindEach(c, xs))
    decreases xs
  {
    if xs != [] {
      EntryReportsNothing(c.Bind(xs[0].0, xs[0].1, Whole), xs[1..]);
    }
  }
}
