/** The checker itself: one mutable context that every step of the walk updates. */
module MoveCheckers {
  import opened Wrappers
  import opened Moves
  import opened MoveRuns
  import opened MoveSoundness
  import opened MoveReports

  // ----- the marks that the checker makes -----

  function SeenIn(marks: map<Ident, Cause>): map<Ident, Cause> {
    map x | x in marks && marks[x] != Unseen :: marks[x]
  }

  function Seen(marks: seq<map<Ident, Cause>>): (s: seq<map<Ident, Cause>>)
    ensures |s| == |marks| && forall i :: 0 <= i < |s| ==> s[i] == SeenIn(marks[i])
  {
    seq(|marks|, i requires 0 <= i < |marks| => SeenIn(marks[i]))
  }

  lemma SeenPush(marks: seq<map<Ident, Cause>>)
    ensures Seen(marks + [map[]]) == Seen(marks) + [map[]]
    ensures |marks| > 0 ==> Seen(marks[..|marks| - 1]) == Seen(marks)[..|marks| - 1]
  {
    assert SeenIn(map[]) == map[];
  }

  lemma SeenChange(marks: seq<map<Ident, Cause>>, i: nat, x: Ident, why: Cause)
    requires i < |marks| && why != Unseen
    ensures Seen(marks[i := marks[i][x := why]]) == Seen(marks)[i := Seen(marks)[i][x := why]]
    ensures Seen(marks[i := marks[i] - {x}]) == Seen(marks)[i := Seen(marks)[i] - {x}]
  {
    assert SeenIn(marks[i][x := why]) == SeenIn(marks[i])[x := why];
    assert SeenIn(marks[i] - {x}) == SeenIn(marks[i]) - {x};
  }

  lemma SeenMerge(into: seq<map<Ident, Cause>>, from: seq<map<Ident, Cause>>)
    requires |into| == |from|
    ensures forall i :: 0 <= i < |into| ==> Seen(Merge(into, from))[i] == Seen(into)[i] + Seen(from)[i]
  {
    forall i | 0 <= i < |into|
      ensures SeenIn(Merge(into, from)[i]) == SeenIn(into[i]) + SeenIn(from[i])
    {
    }
  }

  /** A step of the walk that the checker takes no part in. */
  ghost predicate Unnoticed(c: Ctx, c': Ctx) {
    && c'.Ok() && c'.scopes == c.scopes && c'.sources == c.sources && c'.floors == c.floors
    && c'.diags == c.diags && Seen(c'.consumed) == Seen(c.consumed)
  }

  lemma SlipUnnoticed(c: Ctx, e: Expr)
    requires c.Ok()
    ensures Unnoticed(c, Slip(c, e))
  {
    hide Yields, Doubts, Kept;
    SlipKept(c, e);
    var c' := Slip(c, e);
    forall i | 0 <= i < |c.scopes|
      ensures SeenIn(c'.consumed[i]) == SeenIn(c.consumed[i])
    {
    }
  }

  lemma ReachUnnoticed(c: Ctx, e: Expr)
    requires c.Ok()
    ensures Unnoticed(c, Reach(c, e)) && Unnoticed(c, UseReceiver(c)) && Unnoticed(c, Returning(c, e))
  {
    hide Kept, Depth, Yields;
    ReachKept(c, e);
    UseKept(c, "self");
    ReturningKept(c, e);
  }

  lemma OverwriteUnnoticed(c: Ctx, target: Expr, value: Expr)
    requires c.Ok()
    ensures Unnoticed(c, Overwrite(c, target, value))
  {
    hide Kept, Slip, Reach;
    SlipUnnoticed(c, value);
    ReachUnnoticed(Slip(c, value), target);
  }

  lemma {:induction false} LentUnnoticed(c: Ctx, args: seq<Arg>)
    requires c.Ok()
    ensures Unnoticed(c, Lent(c, args))
    decreases args
  {
    hide Kept, Reach;
    if args != [] {
      ReachUnnoticed(c, args[0].e);
      LentUnnoticed(if LendsOwner(args[0]) then Reach(c, args[0].e) else c, args[1..]);
    }
  }

  lemma StridingUnnoticed(c: Ctx, head: Head)
    requires c.Ok()
    ensures Unnoticed(c, Striding(c, head))
  {
    hide Kept, Walk;
  }

  class Checker {
    var scopes: seq<map<Ident, bool>>
    var consumed: seq<map<Ident, Cause>>
    var loopFloor: seq<nat>
    var diags: seq<Diag>

    /** Where bindings have their values from, the moves the checker does not look at and the
        shapes it does not look for; kept for the soundness statement only. */
    ghost var sources: seq<map<Ident, Source>>
    ghost var marks: seq<map<Ident, Cause>>
    ghost var hazards: seq<Hazard>

    ghost function Now(): Ctx
      reads this
    {
      Ctx(scopes, sources, marks, loopFloor, diags, hazards)
    }

    ghost predicate Valid()
      reads this
    {
      Now().Ok() && consumed == Seen(marks)
    }

    constructor ()
      ensures Valid() && Now() == NOTHING
    {
      scopes, sources, consumed, loopFloor, diags, hazards := [], [], [], [], [], [];
      marks := [];
    }

    method Push()
      requires Valid()
      modifies this
      ensures Valid() && Now() == old(Now()).Push()
    {
      PushOk(Now());
      SeenPush(marks);
      scopes := scopes + [map[]];
      sources := sources + [map[]];
      marks := marks + [map[]];
      consumed := consumed + [map[]];
    }

    method Pop()
      requires Valid() && |scopes| > 0
      modifies this
      ensures Valid() && Now() == old(Now()).Pop()
    {
      SeenPush(marks);
      scopes := scopes[..|scopes| - 1];
      sources := sources[..|sources| - 1];
      marks := marks[..|marks| - 1];
      consumed := consumed[..|consumed| - 1];
    }

    method Bind(x: Ident, borrow: bool, ghost source: Source)
      requires Valid() && |scopes| > 0
      modifies this
      ensures Valid() && Now() == old(Now()).Bind(x, borrow, source)
    {
      hide Kept, Depth, Ctx.Bound, Rebound;
      var top := |scopes| - 1;
      BindInner(Now(), x, borrow, source);
      SeenChange(marks, top, x, Rebind);
      sources := sources[top := Rebound(sources[top], top, x, source)];
      scopes := scopes[top := scopes[top][x := borrow]];
      marks := marks[top := marks[top] - {x}];
      consumed := consumed[top := consumed[top] - {x}];
    }

    /** The search runs from the innermost scope outwards. */
    method ScopeDepthOf(x: Ident) returns (depth: Option<nat>)
      ensures depth == if Depth(scopes, x) < |scopes| then Some(Depth(scopes, x)) else None
    {
      var i := |scopes|;
      while i > 0
        invariant 0 <= i <= |scopes|
        invariant forall j :: i <= j < |scopes| ==> x !in scopes[j]
      {
        i := i - 1;
        if x in scopes[i] {
          return Some(i);
        }
      }
      return None;
    }

    method Lookup(x: Ident) returns (borrow: Option<bool>)
      ensures borrow == Now().Lookup(x)
    {
      var depth := ScopeDepthOf(x);
      borrow := if depth.Some? then Some(scopes[depth.value][x]) else None;
    }

    method MarkConsumed(x: Ident, why: Cause)
      requires Valid() && why != Unseen
      modifies this
      ensures Valid() && Now() == old(Now()).Mark(x, why)
    {
      hide Depth, Kept;
      var depth := ScopeDepthOf(x);
      MarkOk(Now(), x, why);
      if depth.Some? {
        SeenChange(marks, depth.value, x, why);
        consumed := consumed[depth.value := consumed[depth.value][x := why]];
        marks := marks[depth.value := marks[depth.value][x := why]];
      }
    }

    /** Unites the marks of one branch into the current ones, scope by scope. */
    method MergeConsumed(from: seq<map<Ident, Cause>>, ghost fromMarks: seq<map<Ident, Cause>>)
      requires consumed == Seen(marks) && from == Seen(fromMarks) && |from| == |consumed|
      modifies this
      ensures consumed == Seen(marks) && Now() == old(Now()).(consumed := Merge(old(marks), fromMarks))
    {
      SeenMerge(marks, fromMarks);
      for i := 0 to |from|
        invariant Now() == old(Now()) && |consumed| == |from|
        invariant forall j :: 0 <= j < |from| ==> consumed[j] == if j < i then old(consumed)[j] + from[j] else old(consumed)[j]
      {
        consumed := consumed[i := consumed[i] + from[i]];
      }
      marks := Merge(marks, fromMarks);
      assert consumed == Seen(marks);
    }

    /** What the checker does not see is kept beside it. */
    ghost method Note(c: Ctx)
      requires Valid() && Unnoticed(Now(), c)
      modifies `marks, `hazards
      ensures Valid() && Now() == c
    {
      marks, hazards := c.consumed, c.hazards;
    }

    method IsBorrowPlace(e: Expr) returns (borrow: bool)
      ensures borrow == IsBorrow(Now(), e)
    {
      borrow := false;
      if Root(e).Some? {
        var b := Lookup(Root(e).value);
        borrow := b == Some(true);
      }
    }

    method ConsumeTakeArg(e: Expr)
      requires Valid()
      modifies this
      ensures Valid() && Now() == Consume(old(Now()), e)
    {
      hide Kept, Depth, MoveOut, Ctx.Bound, Ctx.SourceAt, Ctx.Outside;
      match e {
        case Name(x, owns) => ConsumeName(x, owns);
        case Part(_, _, owns) =>
          if Root(e).Some? {
            var b := Lookup(Root(e).value);
            ReportOk(Now(), PartGiven(Root(e).value));
            if b == Some(false) && owns {
              diags := diags + [PartGiven(Root(e).value)];
            }
          }
        case _ =>
      }
    }

    method ConsumeName(x: Ident, owns: bool)
      requires Valid()
      modifies this
      ensures Valid() && Now() == Consume(old(Now()), Name(x, owns))
    {
      hide Kept, Depth, MoveOut, Ctx.Bound, Ctx.SourceAt;
      var b := Lookup(x);
      if b != Some(false) || !owns {
        return;
      }
      if |loopFloor| > 0 {
        var depth := ScopeDepthOf(x);
        ReportOk(Now(), GivenInLoop(x));
        if depth.Some? && depth.value < loopFloor[|loopFloor| - 1] {
          diags := diags + [GivenInLoop(x)];
          return;
        }
      }
      ghost var before := Now();
      MovedMarks(before, x, TakeArg);
      ConsumeKept(before, Name(x, owns));
      MarkConsumed(x, TakeArg);
      hazards := Consume(before, Name(x, owns)).hazards;
    }

    method UseName(x: Ident)
      requires Valid()
      modifies this
      ensures Valid() && Now() == Use(old(Now()), x)
    {
      hide Ctx.Bound, Depth, Kept;
      ghost var before := Now();
      UseOk(before, x);
      var depth := ScopeDepthOf(x);
      if depth.Some? && x in consumed[depth.value] {
        diags := diags + [UsedAfterMove(x, consumed[depth.value][x])];
      }
      hazards := Use(before, x).hazards;
    }

    method WalkExpr(e: Expr)
      requires Valid()
      modifies this
      ensures Valid() && Now() == Walk(old(Now()), e)
      decreases e, 2
    {
      hide SameShape, Kept, Depth, WalkAll, WalkArgs, WalkBoth, WalkBranches, WalkMatch, WalkLoop, WalkBlock, WalkPart,
           Use, UseReceiver, Overwrite, Lent, Ctx.Bound, Ctx.Ok, Seen, SameScopes;
      match e {
        case Leaf =>
        case Jump =>
        case Name(x, _) => UseName(x);
        case Receiver(_) => UseSelf(e);
        case Part(_, _, _) => WalkPlace(e);
        case Many(operands) => WalkOperands(operands);
        case Perhaps(first, second) => WalkTwo(e, first, second);
        case Try(base) => WalkExpr(base);
        case Call(_) => WalkCall(e);
        case Assign(_, _) => WalkAssign(e);
        case If(_, _, _) => WalkIf(e);
        case Match(_, _) => WalkMatchArms(e);
        case Block(stmts) => CheckBlock(stmts);
        case Loop(_, _, _) => WalkForElse(e);
      }
    }

    method WalkForElse(e: Expr)
      requires Valid() && e.Loop?
      modifies this
      ensures Valid() && Now() == WalkBlock(WalkLoop(old(Now()), e), e.after)
      decreases e, 1
    {
      hide Kept, Depth, Walk, WalkLoop, WalkBlock, Seen, Ctx.Bound;
      WalkFor(e);
      CheckBlock(e.after);
    }

    ghost method UseSelf(e: Expr)
      requires Valid()
      modifies `marks, `hazards
      ensures Valid() && Now() == UseReceiver(old(Now()))
    {
      hide Kept, Depth, Seen, UseReceiver, Ctx.Bound;
      ReachUnnoticed(Now(), e);
      Note(UseReceiver(Now()));
    }

    method WalkPlace(e: Expr)
      requires Valid() && e.Part?
      modifies this
      ensures Valid() && Now() == WalkPart(old(Now()), e)
      decreases e, 0
    {
      hide Kept, Depth, Walk, WalkAll, Reach, Seen, Ctx.Bound;
      WalkExpr(e.base);
      WalkOperands(e.index);
      ReachUnnoticed(Now(), e);
      Note(Reach(Now(), e));
    }

    method WalkAssign(e: Expr)
      requires Valid() && e.Assign?
      modifies this
      ensures Valid() && Now() == Overwrite(WalkBoth(old(Now()), e, e.target, e.value), e.target, e.value)
      decreases e, 1
    {
      hide Kept, Depth, Walk, Overwrite, Seen, Ctx.Bound;
      WalkTwo(e, e.target, e.value);
      OverwriteUnnoticed(Now(), e.target, e.value);
      Note(Overwrite(Now(), e.target, e.value));
    }

    method WalkTwo(e: Expr, first: Expr, second: Expr)
      requires Valid() && (e == Perhaps(first, second) || e == Assign(first, second))
      modifies this
      ensures Valid() && Now() == WalkBoth(old(Now()), e, first, second)
      decreases e, 0
    {
      hide Kept, Depth, Walk;
      WalkExpr(first);
      WalkExpr(second);
    }

    method WalkOperands(es: seq<Expr>)
      requires Valid()
      modifies this
      ensures Valid() && Now() == WalkAll(old(Now()), es)
      decreases es, 0
    {
      hide Kept, Depth;
      assert es[0..] == es;
      for i := 0 to |es|
        invariant Valid() && WalkAll(old(Now()), es) == WalkAll(Now(), es[i..])
      {
        WalkExpr(es[i]);
        assert es[i..][1..] == es[i + 1..];
      }
    }

    method WalkCall(e: Expr)
      requires Valid() && e.Call?
      modifies this
      ensures Valid() && Now() == Lent(WalkArgs(old(Now()), e.args), e.args)
      decreases e, 0
    {
      hide Kept, Depth, Lent, Seen, Ctx.Bound;
      WalkArguments(e.args);
      LentUnnoticed(Now(), e.args);
      Note(Lent(Now(), e.args));
    }

    /** Each `take` argument is marked as soon as it was walked. */
    method WalkArguments(args: seq<Arg>)
      requires Valid()
      modifies this
      ensures Valid() && Now() == WalkArgs(old(Now()), args)
      decreases args, 0
    {
      hide Kept, Depth, Walk, WalkArg;
      assert args[0..] == args;
      for i := 0 to |args|
        invariant Valid() && WalkArgs(old(Now()), args) == WalkArgs(Now(), args[i..])
      {
        assert args[i] in args;
        WalkArgument(args[i]);
        assert args[i..][1..] == args[i + 1..];
      }
    }

    method WalkArgument(arg: Arg)
      requires Valid()
      modifies this
      ensures Valid() && Now() == WalkArg(old(Now()), arg)
      decreases arg, 1
    {
      hide Kept, Depth, Walk, Consume, Slip, Seen, Ctx.Bound;
      WalkExpr(arg.e);
      if arg.mode == Takes {
        NotLooked(Now(), arg.e);
        ConsumeTakeArg(arg.e);
      }
      if arg.mode == Keeps || (arg.mode == Takes && !Looked(arg.e)) {
        SlipUnnoticed(Now(), arg.e);
        Note(Slip(Now(), arg.e));
      }
    }

    method WalkIf(e: Expr)
      requires Valid() && e.If?
      modifies this
      ensures Valid() && Now() == WalkBranches(old(Now()), e)
      decreases e, 0
    {
      hide Kept, Depth, Walk, WalkBlock, Seen, Merge, Ctx.Bound;
      ghost var start := Now();
      WalkExpr(e.cond);
      match e.els {
        case None => CheckBlock(e.thn);
        case Some(els) =>
          var saved := consumed;
          ghost var savedMarks, c0 := marks, Now();
          CheckBlock(e.thn);
          var fromThen := consumed;
          ghost var thenMarks, c1 := marks, Now();
          RestoredOk(c0, c1);
          consumed := saved;
          marks := savedMarks;
          WalkExpr(els);
          Union(c0, c1, Now());
          ghost var c2 := Now();
          MergeConsumed(fromThen, thenMarks);
          assert Now() == c2.(consumed := Merge(c2.consumed, c1.consumed));
          assert Now() == WalkBranches(start, e);
      }
    }

    method WalkMatchArms(e: Expr)
      requires Valid() && e.Match?
      modifies this
      ensures Valid() && Now() == WalkMatch(old(Now()), e)
      decreases e, 0
    {
      hide Kept, Depth, Walk, WalkArm, WalkArms, Ctx.Bound, MatchSource, Slip, Seen;
      var borrow := IsBorrowPlace(e.scrut);
      ghost var source := MatchSource(Now(), e.scrut);
      WalkExpr(e.scrut);
      if Root(e.scrut).None? {
        SlipUnnoticed(Now(), e.scrut);
        Note(Slip(Now(), e.scrut));
      }
      WalkEachArm(e.arms, borrow, source);
    }

    /** Each arm starts from the marks before the match. */
    method WalkEachArm(arms: seq<Arm>, borrow: bool, ghost source: Source)
      requires Valid()
      modifies this
      ensures Valid() && Now() == WalkArms(old(Now()), arms, borrow, source, old(marks))
      decreases arms, 0
    {
      hide Kept, Depth, Walk, WalkArm, Ctx.Bound, Seen, Merge;
      var saved := consumed;
      var merged := saved;
      ghost var start, mergedMarks := Now(), marks;
      assert arms[0..] == arms;
      for i := 0 to |arms|
        invariant consumed == Seen(marks) && merged == Seen(mergedMarks) && |marks| == |mergedMarks|
        invariant Now().(consumed := mergedMarks).Ok() && Within(start.consumed, mergedMarks) && scopes == start.scopes
        invariant WalkArms(start, arms, borrow, source, start.consumed)
               == WalkArms(Now().(consumed := mergedMarks), arms[i..], borrow, source, start.consumed)
      {
        ghost var before := Now().(consumed := mergedMarks);
        SavedOk(before, start.consumed);
        consumed := saved;
        marks := start.consumed;
        assert arms[i] in arms;
        CheckArm(arms[i], borrow, source, |arms[i..]| == 1);
        ArmUnion(before, start.consumed, Now());
        var fromArm := consumed;
        ghost var armMarks := marks;
        consumed := merged;
        marks := mergedMarks;
        MergeConsumed(fromArm, armMarks);
        merged := consumed;
        mergedMarks := marks;
        assert arms[i..][1..] == arms[i + 1..];
      }
      consumed := merged;
      marks := mergedMarks;
    }

    method CheckArm(arm: Arm, borrow: bool, ghost source: Source, ghost last: bool)
      requires Valid()
      modifies this
      ensures Valid() && Now() == WalkArm(old(Now()), arm, borrow, source, last)
      decreases arm, 0
    {
      hide Kept, Depth, Walk, BindAll, Seen, Ctx.Bound;
      ghost var saved := marks;
      Push();
      BindNames(arm.binds, borrow, source);
      match arm.guard {
        case None =>
        case Some(g) =>
          ghost var before := Now();
          WalkExpr(g);
          hazards := WalkGuard(before, g, saved, last).hazards;
      }
      WalkExpr(arm.body);
      Pop();
    }

    method BindNames(xs: seq<(Ident, bool)>, borrow: bool, ghost source: Source)
      requires Valid() && |scopes| > 0
      modifies this
      ensures Valid() && Now() == BindAll(old(Now()), xs, borrow, source)
    {
      hide Kept, Depth, Ctx.Bind, Seen;
      assert xs[0..] == xs;
      for i := 0 to |xs|
        invariant Valid() && |scopes| > 0 && BindAll(old(Now()), xs, borrow, source) == BindAll(Now(), xs[i..], borrow, source)
      {
        BindInner(Now(), xs[i].0, borrow, if xs[i].1 then source else Whole);
        Bind(xs[i].0, borrow, if xs[i].1 then source else Whole);
        assert xs[i..][1..] == xs[i + 1..];
      }
    }

    method WalkFor(e: Expr)
      requires Valid() && e.Loop?
      modifies this
      ensures Valid() && Now() == WalkLoop(old(Now()), e)
      decreases e, 0
    {
      hide Kept, Depth, WalkHead, WalkBlock, Striding, Seen;
      loopFloor := loopFloor + [|scopes|];
      Push();
      WalkLoopHead(e.head);
      CheckBlock(e.body);
      StridingUnnoticed(Now(), e.head);
      Note(Striding(Now(), e.head));
      Pop();
      loopFloor := loopFloor[..|loopFloor| - 1];
    }

    method WalkLoopHead(head: Head)
      requires Valid() && |scopes| > 0
      modifies this
      ensures Valid() && Now() == WalkHead(old(Now()), head)
      decreases head, 1
    {
      hide Kept, Depth, Ctx.Bound, Walk, WalkAll, BindEach, Seen;
      match head {
        case Infinite =>
        case While(cond) => WalkExpr(cond);
        case Iter(binds, sources, _) =>
          WalkOperands(sources);
          BindPairs(binds);
      }
    }

    method BindPairs(binds: seq<(Ident, bool)>)
      requires Valid() && |scopes| > 0
      modifies this
      ensures Valid() && Now() == BindEach(old(Now()), binds)
    {
      hide Kept, Depth, Ctx.Bind, Seen;
      assert binds[0..] == binds;
      for i := 0 to |binds|
        invariant Valid() && |scopes| > 0 && BindEach(old(Now()), binds) == BindEach(Now(), binds[i..])
      {
        BindInner(Now(), binds[i].0, binds[i].1, Whole);
        Bind(binds[i].0, binds[i].1, Whole);
        assert binds[i..][1..] == binds[i + 1..];
      }
    }

    method CheckBlock(stmts: seq<Stmt>)
      requires Valid()
      modifies this
      ensures Valid() && Now() == WalkBlock(old(Now()), stmts)
      decreases stmts, 1
    {
      hide Kept, Depth, Seen;
      Push();
      ghost var start := Now();
      assert stmts[0..] == stmts;
      for i := 0 to |stmts|
        invariant Valid() && |scopes| > 0 && WalkStmts(start, stmts) == WalkStmts(Now(), stmts[i..])
      {
        CheckStmt(stmts[i]);
        assert stmts[i..][1..] == stmts[i + 1..];
      }
      Pop();
    }

    method CheckStmt(s: Stmt)
      requires Valid() && |scopes| > 0
      modifies this
      ensures Valid() && Now() == WalkStmt(old(Now()), s)
      decreases s, 1
    {
      hide Kept, Depth, Walk, SourceOf, Returning, MoveSource, Seen, Ctx.Bound;
      match s {
        case Let(x, None) => Bind(x, false, Whole);
        case Let(x, Some(init)) =>
          WalkExpr(init);
          var borrow := IsBorrowPlace(init);
          ghost var source := SourceOf(Now(), init);
          MoveFrom(init);
          Bind(x, borrow, source);
        case Return(None) =>
        case Return(Some(value)) =>
          WalkExpr(value);
          ReachUnnoticed(Now(), value);
          Note(Returning(Now(), value));
        case Do(e) => WalkExpr(e);
      }
    }

    method MoveFrom(init: Expr)
      requires Valid()
      modifies this
      ensures Valid() && Now() == MoveSource(old(Now()), init)
    {
      hide Kept, Depth, MoveOut, Ctx.Bound, Ctx.Outside, Slip, Seen;
      ghost var before := Now();
      match init {
        case Name(x, owns) =>
          var b := Lookup(x);
          if b == Some(false) && owns {
            MovedMarks(before, x, Rebind);
            MarkConsumed(x, Rebind);
            hazards := MoveSource(before, init).hazards;
          }
        case _ =>
          if !Looked(init) {
            SlipUnnoticed(before, init);
            Note(Slip(before, init));
          }
      }
    }
  }

  /** Checks a function from scratch. No report and no hazard means no bad run; and a report
      means a bad run, when the function is straightforward. */
  method CheckFn(f: Function) returns (reports: seq<Diag>, ghost hazards: seq<Hazard>)
    ensures reports == Check(f).diags && hazards == Check(f).hazards
    ensures reports == [] && hazards == [] ==> forall fuel: nat, tape :: RunOf(f, fuel, tape).out != Bad
    ensures reports != [] && Straightforward(f) ==> exists fuel: nat, tape :: RunOf(f, fuel, tape).out == Bad
  {
    hide Kept, Depth, RunOf, Doubted, Seen, Straightforward;
    var checker := new Checker();
    checker.Push();
    checker.BindPairs(f.params);
    checker.CheckBlock(f.body);
    reports, hazards := checker.diags, Check(f).hazards;
    if reports == [] && hazards == [] {
      forall fuel: nat, tape
        ensures RunOf(f, fuel, tape).out != Bad
      {
        AcceptedNeverBad(f, fuel, tape);
      }
    }
    if reports != [] && Straightforward(f) {
      ghost var fuel, tape := ReportsAreReal(f);
      assert RunOf(f, fuel, tape).out == Bad;
    }
  }

  /** But for its suspicions a move is a mark. */
  lemma MovedMarks(c: Ctx, x: Ident, why: Cause)
    requires c.Ok()
    ensures MoveOut(c, x, why) == c.Mark(x, why).(hazards := MoveOut(c, x, why).hazards)
  {
    hide Ctx.HasParts, Depth;
  }

  lemma ReportOk(c: Ctx, d: Diag)
    requires c.Ok()
    ensures c.Report(d).Ok()
  {
  }

  /** The checker reports the use when it made the mark. */
  lemma UseOk(c: Ctx, x: Ident)
    requires c.Ok()
    ensures Use(c, x).Ok()
    ensures var d := Depth(c.scopes, x);
            var reported := d < |c.scopes| && x in Seen(c.consumed)[d];
            Use(c, x) == (if reported then c.Report(UsedAfterMove(x, Seen(c.consumed)[d][x])) else c).(hazards := Use(c, x).hazards)
  {
    hide Kept, Depth, Seen;
    UseKept(c, x);
  }

  lemma NotLooked(c: Ctx, e: Expr)
    requires c.Ok()
    ensures !Looked(e) ==> Consume(c, e) == c
  {
    hide Depth, MoveOut;
  }

  lemma RestoredOk(c: Ctx, c': Ctx)
    requires SameShape(c, c') && c.Ok() && c'.scopes == c.scopes && c'.sources == c.sources
    ensures c'.(consumed := c.consumed).Ok()
  {
  }

  lemma SavedOk(c: Ctx, saved: seq<map<Ident, Cause>>)
    requires c.Ok() && Within(saved, c.consumed)
    ensures c.(consumed := saved).Ok()
  {
  }
}
