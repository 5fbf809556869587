/** Shapes the soundness theorem excludes, each with a function the checker accepts without a
    report and a run of it that goes bad: names and places, which the checker looks at. */
module MoveHazards {
  import opened Wrappers
  import opened Moves
  import opened MoveRuns
  import opened MoveSoundness
  import opened MoveYields

  const OWNED: seq<(Ident, bool)> := [("d", false)]
  const NAME_D := Name("d", true)
  const GIVE_D := Call([Arg(NAME_D, Takes)])

  function Empty<T>(n: nat): (s: seq<map<Ident, T>>)
    ensures |s| == n && forall i :: 0 <= i < n ==> s[i] == map[]
  {
    seq(n, _ => map[])
  }

  /** The checker's state, and the run's, with `d` bound outside `n` empty scopes. */
  function State(n: nat, marks: map<Ident, Cause>, floors: seq<nat>): Ctx {
    Ctx([map["d" := false]] + Empty(n), [map["d" := Whole]] + Empty(n), [marks] + Empty(n), floors, [], [])
  }

  function Here(n: nat, gone: bool): Env { [map["d" := Cell(false, gone, Whole)]] + Empty(n) }

  lemma DepthZero<T>(scopes: seq<map<Ident, T>>, x: Ident)
    requires |scopes| > 0 && x in scopes[0] && forall i :: 0 < i < |scopes| ==> x !in scopes[i]
    ensures Depth(scopes, x) == 0
  {
  }

  lemma DepthTop<T>(scopes: seq<map<Ident, T>>, x: Ident)
    requires |scopes| > 0 && x in scopes[|scopes| - 1]
    ensures Depth(scopes, x) == |scopes| - 1
  {
  }

  lemma EmptySplits<T>(n: nat)
    ensures Empty<T>(n) + [map[]] == Empty<T>(n + 1)
    ensures Empty<T>(n + 1)[..n] == Empty<T>(n)
  {
  }

  lemma StateDepth(n: nat, marks: map<Ident, Cause>, floors: seq<nat>)
    ensures Depth(State(n, marks, floors).scopes, "d") == 0
    ensures marks.Keys <= {"d"} ==> State(n, marks, floors).Ok()
  {
    hide Depth;
    DepthZero(State(n, marks, floors).scopes, "d");
  }

  lemma StatePush(n: nat, marks: map<Ident, Cause>, floors: seq<nat>)
    ensures State(n, marks, floors).Push() == State(n + 1, marks, floors)
    ensures State(n + 1, marks, floors).Pop() == State(n, marks, floors)
  {
    hide Depth, Empty;
    EmptySplits<bool>(n);
    EmptySplits<Source>(n);
    EmptySplits<Cause>(n);
    var c, c' := State(n, marks, floors), State(n + 1, marks, floors);
    assert c.Push().scopes == c'.scopes && c.Push().sources == c'.sources && c.Push().consumed == c'.consumed;
    assert c'.Pop().scopes == c.scopes && c'.Pop().sources == c.sources && c'.Pop().consumed == c.consumed;
  }

  lemma StateMark(n: nat, marks: map<Ident, Cause>, floors: seq<nat>, why: Cause)
    requires marks.Keys <= {"d"}
    ensures State(n, marks, floors).Ok() && State(n, marks, floors).SourceAt("d") == Whole
    ensures MoveOut(State(n, marks, floors), "d", why) == State(n, marks["d" := why], floors)
  {
    hide Depth;
    StateDepth(n, marks, floors);
    var c := State(n, marks, floors);
    assert !c.HasParts(0, "d");
    assert c.Mark("d", why).consumed == State(n, marks["d" := why], floors).consumed;
  }

  lemma HereFacts(n: nat, gone: bool)
    ensures Depth(Here(n, gone), "d") == 0
    ensures Here(n, gone) + [map[]] == Here(n + 1, gone)
    ensures Here(n + 1, gone)[..n + 1] == Here(n, gone)
    ensures MoveAway(Here(n, gone), 0, "d") == Here(n, true)
    ensures HeldHere(Here(n, gone), "d") == From(0, "d") && (Gone(Here(n, gone), "d") <==> gone)
    ensures |Here(n, gone)| == n + 1 && OwnedHere(Here(n, gone), "d") && !BorrowedHere(Here(n, gone), NAME_D)
  {
    hide Depth, Empty;
    DepthZero(Here(n, gone), "d");
    EmptySplits<Cell>(n);
    var env := Here(n, gone);
    assert Without(env[0], 0, 0, "d") == map["d" := Cell(false, true, Whole)];
    EmptyStays(n, env);
    assert MoveAway(env, 0, "d") == Here(n, true);
  }

  lemma EmptyStays(n: nat, env: Env)
    requires |env| == n + 1 && env[1..] == Empty(n)
    ensures forall i :: 1 <= i <= n ==> Without(env[i], i, 0, "d") == Here(n, true)[i]
  {
    forall i | 1 <= i <= n
      ensures Without(env[i], i, 0, "d") == Here(n, true)[i]
    {
      assert env[i] == env[1..][i - 1] == map[];
    }
  }

  lemma Entrance(f: Function)
    requires f.params == OWNED
    ensures Entry(f) == State(0, map[], []) && BindPairs([map[]], f.params) == Here(0, false)
  {
    assert f.params[1..] == [];
    EntryState();
    EntryRun();
    hide Depth, Kept;
    var c1 := NOTHING.Push().Bind("d", false, Whole);
    assert BindEach(c1, []) == c1;
    assert BindPairs(BindCell([map[]], "d", false, Whole), []) == Here(0, false);
  }

  lemma EntryState()
    ensures NOTHING.Push().Ok() && NOTHING.Push().Bind("d", false, Whole) == State(0, map[], [])
  {
    var c, c' := NOTHING.Push().Bind("d", false, Whole), State(0, map[], []);
    assert Rebound(map[], 0, "d", Whole) == map["d" := Whole];
    assert c.scopes == c'.scopes && c.sources == c'.sources && c.consumed == c'.consumed;
  }

  lemma EntryRun()
    ensures BindCell([map[]], "d", false, Whole) == Here(0, false)
  {
    assert NewCell(map[], 0, "d", Cell(false, false, Whole)) == map["d" := Cell(false, false, Whole)];
  }

  /** Forms whose value no binding holds. */
  predicate Plain(e: Expr) {
    e.Leaf? || e.Many? || e.Call? || e.Assign? || e.Loop?
    || (e.Match? && forall arm :: arm in e.arms ==> arm.body.Leaf? || arm.body.Many? || arm.body.Call?)
  }

  predicate EndsPlainly(stmts: seq<Stmt>) {
    |stmts| > 0 && (stmts[|stmts| - 1].Do? ==> Plain(stmts[|stmts| - 1].e))
  }

  lemma {:induction false} PlainEnd(c: Ctx, stmts: seq<Stmt>)
    requires c.Ok() && |c.scopes| > 0 && EndsPlainly(stmts)
    ensures YieldsStmts(c, stmts) == NOBODY
    decreases stmts
  {
    hide Depth, Declare, Yields;
    if |stmts| > 1 {
      PlainEnd(Declare(c, stmts[0]), stmts[1..]);
    } else if stmts[0].Do? {
      PlainYields(c, stmts[0].e);
    }
  }

  lemma PlainYields(c: Ctx, e: Expr)
    requires c.Ok() && Plain(e)
    ensures Yields(c, e) == NOBODY
  {
    hide Depth, YieldsArms, Settled, MatchSource;
    if e.Match? {
      PlainArms(c, e.arms, IsBorrow(c, e.scrut), if Root(e.scrut).None? then Settled(c, e.scrut) else MatchSource(c, e.scrut));
    }
  }

  lemma {:induction false} PlainArms(c: Ctx, arms: seq<Arm>, borrow: bool, source: Source)
    requires c.Ok() && forall arm :: arm in arms ==> arm.body.Leaf? || arm.body.Many? || arm.body.Call?
    ensures YieldsArms(c, arms, borrow, source) == NOBODY
    decreases arms
  {
    hide Depth, BindAll, Kept;
    if arms != [] {
      PushOk(c);
      assert arms[0] in arms;
      PlainArms(c, arms[1..], borrow, source);
      var y := Yields(BindAll(c.Push(), arms[0].binds, borrow, source), arms[0].body);
      assert y == NOBODY && y.Below(|c.scopes|) == NOBODY;
    }
  }

  /** Without clauses, and with a body that ends plainly, a function is its body. */
  lemma BodyOf(f: Function, fuel: nat, tape: seq<nat>)
    requires f.demands == [] == f.promises && EndsPlainly(f.body) && fuel > 0
    ensures Entry(f).Push().Ok() && |Entry(f).Push().scopes| > 0
    ensures var c := WalkStmts(Entry(f).Push(), f.body); Check(f).diags == c.diags && Check(f).hazards == c.hazards
    ensures EvalStmts(fuel - 1, f.body, BindPairs([map[]], f.params) + [map[]], tape).out == Bad ==> RunOf(f, fuel, tape).out == Bad
  {
    hide Depth, Kept, EvalStmts, WalkStmts, YieldsStmts, Entry;
    var c0 := Entry(f);
    PushOk(c0);
    PlainEnd(c0.Push(), f.body);
    assert YieldsBlock(c0, f.body) == NOBODY.Below(|c0.scopes|) == NOBODY;
    assert Doubted(f, c0, WalkBlock(c0, f.body)) == [];
  }

  lemma BodyAlone(f: Function, fuel: nat, tape: seq<nat>)
    requires f.params == OWNED && f.demands == [] == f.promises && EndsPlainly(f.body) && fuel > 0
    ensures State(1, map[], []).Ok()
    ensures var c := WalkStmts(State(1, map[], []), f.body); Check(f).diags == c.diags && Check(f).hazards == c.hazards
    ensures EvalStmts(fuel - 1, f.body, Here(1, false), tape).out == Bad ==> RunOf(f, fuel, tape).out == Bad
  {
    hide Depth, Kept, EvalStmts, WalkStmts, Empty, State, Here, Check, RunOf;
    Entrance(f);
    StateDepth(1, map[], []);
    StatePush(0, map[], []);
    HereFacts(0, false);
    BodyOf(f, fuel, tape);
  }

  lemma StateSize(n: nat)
    ensures |State(n, map[], []).scopes| == n + 1 && |Here(n, false)| == n + 1
  {
  }

  /** A body of one expression, and one of a statement and an expression. */
  lemma OneStep(f: Function, e: Expr, fuel: nat, tape: seq<nat>)
    requires f == Function(OWNED, [], [Do(e)], []) && Plain(e) && fuel >= 3
    ensures State(1, map[], []).Ok()
    ensures var c := Walk(State(1, map[], []), e); Check(f).diags == c.diags && Check(f).hazards == c.hazards
    ensures Eval(fuel - 3, e, Here(1, false), tape).out == Bad ==> RunOf(f, fuel, tape).out == Bad
  {
    hide Depth, Kept, Walk, Eval, Empty, State, Here, Check, RunOf;
    BodyAlone(f, fuel, tape);
    StateSize(1);
    OneStatement(State(1, map[], []), e);
    assert EvalStmt(fuel - 2, Do(e), Here(1, false), tape) == Eval(fuel - 3, e, Here(1, false), tape);
  }

  lemma TwoSteps(f: Function, s: Stmt, e: Expr, fuel: nat, tape: seq<nat>)
    requires f == Function(OWNED, [], [s, Do(e)], []) && Plain(e) && fuel >= 4
    ensures State(1, map[], []).Ok() && |State(1, map[], []).scopes| > 0
    ensures var c := Walk(WalkStmt(State(1, map[], []), s), e); Check(f).diags == c.diags && Check(f).hazards == c.hazards
    ensures var r := EvalStmt(fuel - 2, s, Here(1, false), tape);
            r.out == Next && Eval(fuel - 4, e, r.env, r.tape).out == Bad ==> RunOf(f, fuel, tape).out == Bad
  {
    hide Depth, Kept, Walk, Eval, WalkStmt, EvalStmt, Empty, State, Here, Check, RunOf;
    BodyAlone(f, fuel, tape);
    StateSize(1);
    var c1 := WalkStmt(State(1, map[], []), s);
    assert [s, Do(e)][1..] == [Do(e)] && [Do(e)][1..] == [];
    OneStatement(c1, e);
    var r := EvalStmt(fuel - 2, s, Here(1, false), tape);
    DoRun(fuel - 3, e, r.env, r.tape);
    assert [Do(e)][0] == Do(e) && [s, Do(e)][0] == s;
    assert EvalStmts(fuel - 2, [Do(e)], r.env, r.tape) == EvalStmt(fuel - 3, Do(e), r.env, r.tape);
  }

  lemma OneStatement(c: Ctx, e: Expr)
    requires c.Ok() && |c.scopes| > 0
    ensures WalkStmts(c, [Do(e)]) == Walk(c, e)
  {
    hide Depth, Kept, Walk;
    assert [Do(e)][1..] == [];
    assert WalkStmts(Walk(c, e), []) == Walk(c, e);
  }

  lemma DoWalk(c: Ctx, e: Expr)
    requires c.Ok() && |c.scopes| > 0
    ensures WalkStmt(c, Do(e)) == Walk(c, e)
  {
    hide Depth, Kept, Walk;
  }

  lemma DoRun(fuel: nat, e: Expr, env: Env, tape: seq<nat>)
    requires |env| > 0 && fuel > 0
    ensures EvalStmt(fuel, Do(e), env, tape) == Eval(fuel - 1, e, env, tape)
  {
    hide Depth, Eval;
  }

  lemma OneArg(c: Ctx, e: Expr, mode: Mode)
    requires c.Ok() && mode != Lends
    ensures Walk(c, Call([Arg(e, mode)])) == Give(Walk(c, e), Arg(e, mode))
  {
    hide Depth, Kept, Give, WalkArg, Ctx.Bound, Reach, LendsOwner;
    var arg := Arg(e, mode);
    var args := [arg];
    var c1 := WalkArg(c, arg);
    assert args[0] == arg && args[1..] == [];
    assert WalkArgs(c1, []) == c1;
    assert WalkArgs(c, args) == c1;
    NothingLent(c1, arg);
    CallWalk(c, args);
    ArgWalk(c, arg);
  }

  lemma CallWalk(c: Ctx, args: seq<Arg>)
    requires c.Ok()
    ensures Walk(c, Call(args)) == Lent(WalkArgs(c, args), args)
  {
    hide Depth, Kept, WalkArgs, Lent;
  }

  lemma ArgWalk(c: Ctx, arg: Arg)
    requires c.Ok()
    ensures WalkArg(c, arg) == Give(Walk(c, arg.e), arg)
  {
    hide Depth, Kept, Give;
  }

  lemma NothingLent(c: Ctx, arg: Arg)
    requires c.Ok() && arg.mode != Lends
    ensures Lent(c, [arg]) == c
  {
    hide Depth, Kept;
    assert [arg][1..] == [];
    assert Lent(c, []) == c;
  }

  lemma OneArgRun(fuel: nat, e: Expr, mode: Mode, env: Env, tape: seq<nat>)
    requires fuel >= 3 && mode != Lends
    ensures var r := Eval(fuel - 2, e, env, tape);
            Eval(fuel, Call([Arg(e, mode)]), env, tape) == if r.out == Next then GiveAway(r) else r.(value := New)
  {
    hide Depth, GiveAway;
    var arg := Arg(e, mode);
    assert [arg][1..] == [];
    var r := Eval(fuel - 2, e, env, tape);
    var g := GiveAway(r);
    assert g.value == New by { GaveAway(r); }
    assert EvalArgs(fuel - 2, [], g.env, g.tape) == Run(Next, g.env, g.tape, New);
    assert !LentGone(EvalArgs(fuel - 1, [arg], env, tape).env, [arg]);
  }

  lemma GaveAway(r: Run)
    ensures GiveAway(r).value == New
  {
  }

  lemma NameDWalk(c: Ctx)
    requires c.Ok() && c.CauseOf("d") == None
    ensures Walk(c, NAME_D) == c
  {
    hide Depth;
  }

  lemma NameRun(fuel: nat, n: nat, gone: bool, tape: seq<nat>)
    requires fuel > 0
    ensures Eval(fuel, NAME_D, Here(n, gone), tape) == Run(if gone then Bad else Next, Here(n, gone), tape, From(0, "d"))
  {
    hide Depth, Here;
    HereFacts(n, gone);
  }

  /** Giving `d` away once marks it, and a run that names it again goes bad. */
  lemma GiveWalk(n: nat)
    ensures var c := State(n, map[], []);
            c.Ok() && Walk(c, NAME_D) == c && Walk(c, GIVE_D) == State(n, map["d" := TakeArg], [])
  {
    hide Depth, Empty;
    var c := State(n, map[], []);
    StateDepth(n, map[], []);
    StateMark(n, map[], [], TakeArg);
    OneArg(c, NAME_D, Takes);
    assert Walk(c, NAME_D) == c;
    assert Consume(c, NAME_D) == MoveOut(c, "d", TakeArg);
    assert map[]["d" := TakeArg] == map["d" := TakeArg];
  }

  lemma GiveRun(fuel: nat, n: nat, tape: seq<nat>)
    requires fuel >= 3
    ensures Eval(fuel, GIVE_D, Here(n, false), tape) == Run(Next, Here(n, true), tape, New)
    ensures Eval(fuel, NAME_D, Here(n, true), tape).out == Bad
  {
    hide Depth, Empty, Here, Eval;
    HereFacts(n, false);
    NameRun(fuel - 2, n, false, tape);
    NameRun(fuel, n, true, tape);
    OneArgRun(fuel, NAME_D, Takes, Here(n, false), tape);
  }

  /** The target is looked at before the value gives it away, and written after. */
  const OVERWRITE_GIVEN := Function(OWNED, [], [Do(Assign(NAME_D, GIVE_D))], [])

  lemma OverwriteHazardIsReal()
    ensures Check(OVERWRITE_GIVEN).diags == [] && Check(OVERWRITE_GIVEN).hazards == [ReachesMoved("d")]
    ensures RunOf(OVERWRITE_GIVEN, 9, []).out == Bad
  {
    hide Depth, Empty, Eval, Walk, Check, RunOf;
    var e := Assign(NAME_D, GIVE_D);
    OverwriteWalk(e);
    OverwriteRun(6, e, []);
    OneStep(OVERWRITE_GIVEN, e, 9, []);
  }

  lemma OverwriteWalk(e: Expr)
    requires e == Assign(NAME_D, GIVE_D)
    ensures var c := State(1, map[], []);
            c.Ok() && Walk(c, e).diags == [] && Walk(c, e).hazards == [ReachesMoved("d")]
  {
    hide Depth, Empty, Walk, Kept, Yields, Slip, State;
    var c, c' := State(1, map[], []), State(1, map["d" := TakeArg], []);
    GiveWalk(1);
    StateDepth(1, map["d" := TakeArg], []);
    AssignWalk(c, e);
    PlainYields(c', GIVE_D);
    SlipNothing(c', GIVE_D);
    StateClean(1, map["d" := TakeArg], []);
  }

  lemma AssignWalk(c: Ctx, e: Expr)
    requires c.Ok() && e.Assign?
    ensures Walk(c, e) == Overwrite(Walk(Walk(c, e.target), e.value), e.target, e.value)
  {
    hide Depth, Kept, Overwrite;
  }

  lemma StateClean(n: nat, marks: map<Ident, Cause>, floors: seq<nat>)
    ensures State(n, marks, floors).diags == [] && State(n, marks, floors).hazards == []
    ensures State(n, marks, floors).CauseOf("d") == if "d" in marks then Some(marks["d"]) else None
  {
    hide Depth, Empty;
    StateDepth(n, marks, floors);
  }

  /** Nobody's value leaves no trace. */
  lemma SlipNothing(c: Ctx, e: Expr)
    requires c.Ok() && Yields(c, e) == NOBODY
    ensures Slip(c, e) == c
  {
    hide Yields, Depth;
    assert Doubts(c, NOBODY) == [];
    assert c.MarkUnseen({}).consumed == c.consumed by {
      forall i | 0 <= i < |c.scopes|
        ensures c.consumed[i] + UnseenIn(c.scopes[i], c.consumed[i], i, {}) == c.consumed[i]
      {
      }
    }
  }

  lemma OverwriteRun(fuel: nat, e: Expr, tape: seq<nat>)
    requires e == Assign(NAME_D, GIVE_D) && fuel >= 4
    ensures Eval(fuel, e, Here(1, false), tape).out == Bad
  {
    hide Depth, Empty, EvalArgs, Here;
    NameRun(fuel - 1, 1, false, tape);
    GiveRun(fuel - 1, 1, tape);
    HereFacts(1, true);
    assert GiveAway(Run(Next, Here(1, true), tape, New)) == Run(Next, Here(1, true), tape, New);
  }

  /** What one arm's guard gives away, the next arm does not see. */
  const GIVING_ARM := Arm([], Some(GIVE_D), Leaf)
  const READING_ARM := Arm([], None, Many([NAME_D]))
  const GUARD_GIVES := Function(OWNED, [], [Do(Match(Leaf, [GIVING_ARM, READING_ARM]))], [])

  lemma GuardHazardIsReal()
    ensures Check(GUARD_GIVES).diags == [] && Check(GUARD_GIVES).hazards == [GuardMoves]
    ensures RunOf(GUARD_GIVES, 12, [1, 0, 1]).out == Bad
  {
    hide Depth, Empty, Eval, Walk, Check, RunOf;
    var e := Match(Leaf, [GIVING_ARM, READING_ARM]);
    GuardWalk(e);
    GuardHazardRun(e);
    OneStep(GUARD_GIVES, e, 12, [1, 0, 1]);
  }

  lemma GuardWalk(e: Expr)
    requires e == Match(Leaf, [GIVING_ARM, READING_ARM])
    ensures var c := State(1, map[], []);
            c.Ok() && Walk(c, e).diags == [] && Walk(c, e).hazards == [GuardMoves]
  {
    var c := State(1, map[], []);
    StateDepth(1, map[], []);
    hide State, Depth, Walk, WalkArms, Kept;
    BothArmsWalk(c);
    LeafWalk(c);
    MatchWalk(c, e);
    LeafMatch(c, e);
  }

  lemma LeafMatch(c: Ctx, e: Expr)
    requires c.Ok() && e.Match? && e.scrut == Leaf
    ensures WalkMatch(c, e) == WalkArms(c, e.arms, false, Whole, c.consumed)
  {
    hide Depth, WalkArms, Kept, Slip;
    LeafWalk(c);
    SlipNothing(c, Leaf);
  }

  lemma BothArmsWalk(c: Ctx)
    requires c == State(1, map[], []) && c.Ok()
    ensures var c' := WalkArms(c, [GIVING_ARM, READING_ARM], false, Whole, c.consumed);
            c'.diags == [] && c'.hazards == [GuardMoves]
  {
    hide Depth, Empty, Walk, WalkArm, Merge;
    FirstArmWalk();
    var c1 := WalkArm(c, GIVING_ARM, false, Whole, false);
    var c2 := c1.(consumed := Merge(c.consumed, c1.consumed));
    ArmUnion(c, c.consumed, c1);
    SecondArmWalk(c2.(consumed := c.consumed));
    assert [GIVING_ARM, READING_ARM][1..] == [READING_ARM];
    LastArm(c2, READING_ARM, Whole, c.consumed);
  }

  lemma LastArm(c: Ctx, arm: Arm, source: Source, saved: seq<map<Ident, Cause>>)
    requires c.Ok() && Within(saved, c.consumed)
    ensures var c1 := WalkArm(c.(consumed := saved), arm, false, source, true);
            var c' := WalkArms(c, [arm], false, source, saved);
            c'.diags == c1.diags && c'.hazards == c1.hazards
  {
    hide Depth, Walk, WalkArm, Merge;
    var c1 := WalkArm(c.(consumed := saved), arm, false, source, true);
    ArmUnion(c, saved, c1);
    var c2 := c1.(consumed := Merge(c.consumed, c1.consumed));
    assert [arm][1..] == [];
    assert WalkArms(c2, [], false, source, saved) == c2;
  }

  lemma LeafWalk(c: Ctx)
    requires c.Ok()
    ensures Walk(c, Leaf) == c
  {
  }

  lemma MatchWalk(c: Ctx, e: Expr)
    requires c.Ok() && e.Match?
    ensures Walk(c, e) == WalkMatch(c, e)
  {
  }

  lemma FirstArmWalk()
    ensures var c := State(1, map[], []);
            c.Ok() && var c1 := WalkArm(c, GIVING_ARM, false, Whole, false);
            c1.diags == [] && c1.hazards == [GuardMoves]
  {
    hide Depth, Empty, Walk, Kept;
    var c := State(1, map[], []);
    StateDepth(1, map[], []);
    StatePush(1, map[], []);
    GiveWalk(2);
    var c1 := Walk(c.Push(), GIVE_D);
    assert c1.consumed[0].Keys == {"d"} && c.consumed[0].Keys == {};
    LeafWalk(c1.Suspect(GuardMoves));
  }

  lemma SecondArmWalk(c: Ctx)
    requires c.scopes == State(1, map[], []).scopes && c.sources == State(1, map[], []).sources
    requires c.consumed == State(1, map[], []).consumed && c.diags == []
    ensures c.Ok() && var c1 := WalkArm(c, READING_ARM, false, Whole, true);
            c1.diags == [] && c1.hazards == c.hazards
  {
    hide Depth, Empty, Walk, WalkArm, State, Ctx.Push;
    StateDepth(1, map[], []);
    SameOk(State(1, map[], []), c);
    PlainArm(c, Many([NAME_D]), Whole, true);
    Repushed(c);
    NothingMoved(c.Push());
    NameDWalk(c.Push());
    OneOperand(c.Push(), NAME_D);
    Repopped(c);
  }

  lemma OneOperand(c: Ctx, e: Expr)
    requires c.Ok()
    ensures Walk(c, Many([e])) == Walk(c, e)
  {
    hide Depth, Kept, Walk;
    ManyWalk(c, [e]);
    assert [e][1..] == [];
    assert WalkAll(Walk(c, e), []) == Walk(c, e);
  }

  lemma OneOperandRun(fuel: nat, e: Expr, env: Env, tape: seq<nat>)
    requires fuel >= 3
    ensures Eval(fuel - 2, e, env, tape).out == Bad ==> Eval(fuel, Many([e]), env, tape).out == Bad
  {
    hide Depth;
    assert [e][1..] == [];
  }

  lemma SameOk(c: Ctx, c': Ctx)
    requires c.Ok() && c'.scopes == c.scopes && c'.sources == c.sources && c'.consumed == c.consumed
    ensures c'.Ok()
  {
  }

  lemma Repopped(c: Ctx)
    requires |c.scopes| == |c.sources| == |c.consumed|
    ensures c.Push().Pop().diags == c.diags && c.Push().Pop().hazards == c.hazards
  {
  }

  lemma NothingMoved(c: Ctx)
    requires c.scopes == State(2, map[], []).scopes && c.consumed == State(2, map[], []).consumed
    ensures c.CauseOf("d") == None
  {
    hide Depth, Empty;
    StateDepth(2, map[], []);
  }

  lemma Repushed(c: Ctx)
    requires c.scopes == State(1, map[], []).scopes && c.sources == State(1, map[], []).sources
    requires c.consumed == State(1, map[], []).consumed
    ensures c.Push().scopes == State(2, map[], []).scopes && c.Push().sources == State(2, map[], []).sources
    ensures c.Push().consumed == State(2, map[], []).consumed
  {
    hide Depth, Empty;
    StatePush(1, map[], []);
  }

  lemma PlainArm(c: Ctx, e: Expr, source: Source, last: bool)
    requires c.Ok()
    ensures c.Push().Ok() && WalkArm(c, Arm([], None, e), false, source, last) == Walk(c.Push(), e).Pop()
  {
    hide Depth, Walk, Kept;
    assert BindAll(c.Push(), [], false, source) == c.Push();
  }

  lemma GuardHazardRun(e: Expr)
    requires e == Match(Leaf, [GIVING_ARM, READING_ARM])
    ensures Eval(9, e, Here(1, false), [1, 0, 1]).out == Bad
  {
    hide Depth, Empty, Eval, Here, EvalArms;
    HereFacts(1, false);
    HereFacts(1, true);
    GiveRun(6, 2, [0, 1]);
    assert [1, 0, 1][1..] == [0, 1] && [0, 1][1..] == [1];
    assert e.arms[1..] == [READING_ARM];
    ReadingArm(7, [1]);
    ArmsRun(8, e.arms, false, Whole, Here(1, false), [1, 0, 1]);
    assert BindCells(Here(1, false) + [map[]], [], false, Whole) == Here(2, false);
    assert EvalGuard(7, Some(GIVE_D), Here(2, false), [0, 1]) == Run(Next, Here(2, true), [0, 1], New);
    MatchRuns(9, e, Here(1, false), [1, 0, 1]);
    LeafRun(8, Here(1, false), [1, 0, 1]);
  }

  lemma ReadingArm(fuel: nat, tape: seq<nat>)
    requires fuel >= 5 && Choice(tape) != 0
    ensures EvalArms(fuel, [READING_ARM], false, Whole, Here(1, true), tape).out == Bad
  {
    hide Depth, Empty, Eval, Here, EvalArms;
    HereFacts(1, true);
    NameRun(fuel - 3, 2, true, Rest(tape));
    OneOperandRun(fuel - 1, NAME_D, Here(2, true), Rest(tape));
    assert BindCells(Here(1, true) + [map[]], [], false, Whole) == Here(2, true);
    ArmsRun(fuel, [READING_ARM], false, Whole, Here(1, true), tape);
  }

  lemma LeafRun(fuel: nat, env: Env, tape: seq<nat>)
    requires fuel > 0
    ensures Eval(fuel, Leaf, env, tape) == Run(Next, env, tape, New)
  {
  }

  /** A rebinding marks its source without asking whether a loop may come back to it. */
  const REBIND_D := Let("b", Some(NAME_D))
  const REBIND_IN_LOOP := Function(OWNED, [], [Do(Loop(Infinite, [REBIND_D], []))], [])

  lemma LoopHazardIsReal()
    ensures Check(REBIND_IN_LOOP).diags == [] && Check(REBIND_IN_LOOP).hazards == [MovedInLoop]
    ensures RunOf(REBIND_IN_LOOP, 14, [1, 1]).out == Bad
  {
    hide Depth, Empty, Eval, Walk, Check, RunOf;
    var e := Loop(Infinite, [REBIND_D], []);
    RebindWalk(e);
    RebindRun(e);
    OneStep(REBIND_IN_LOOP, e, 14, [1, 1]);
  }

  lemma RebindWalk(e: Expr)
    requires e == Loop(Infinite, [REBIND_D], [])
    ensures var c := State(1, map[], []);
            c.Ok() && Walk(c, e).diags == [] && Walk(c, e).hazards == [MovedInLoop]
  {
    hide Depth, Empty, Walk, WalkStmts;
    var c := State(1, map[], []);
    StateDepth(1, map[], []);
    StatePush(1, map[], [2]);
    StatePush(2, map[], [2]);
    RebindOnce();
    var c1 := State(2, map[], [2]);
    assert Floored(c) == c1;
    var c2 := WalkBlock(c1, e.body);
    assert c2.diags == [] && c2.hazards == [MovedInLoop];
    InfiniteLoop(c, e);
  }

  lemma InfiniteLoop(c: Ctx, e: Expr)
    requires c.Ok() && e.Loop? && e.head == Infinite && e.after == []
    ensures Floored(c).Ok() && var c2 := WalkBlock(Floored(c), e.body);
            Walk(c, e).diags == c2.diags && Walk(c, e).hazards == c2.hazards
  {
    hide Depth, Kept, Walk, WalkBlock;
    assert WalkHead(Floored(c), Infinite) == Floored(c);
    var c2 := WalkBlock(Floored(c), e.body);
    assert Striding(c2, Infinite) == c2;
    EmptyBlock(WalkLoop(c, e));
    LoopWalk(c, e);
  }

  lemma LoopWalk(c: Ctx, e: Expr)
    requires c.Ok() && e.Loop?
    ensures Walk(c, e) == WalkBlock(WalkLoop(c, e), e.after)
  {
    hide Depth, Kept, WalkBlock, WalkLoop;
  }

  lemma EmptyBlock(c: Ctx)
    requires c.Ok()
    ensures WalkBlock(c, []).diags == c.diags && WalkBlock(c, []).hazards == c.hazards
  {
    hide Depth, Kept;
    assert WalkStmts(c.Push(), []) == c.Push();
  }

  lemma RebindOnce()
    ensures var c := State(3, map[], [2]);
            c.Ok() && WalkStmts(c, [REBIND_D]).diags == [] && WalkStmts(c, [REBIND_D]).hazards == [MovedInLoop]
  {
    hide Depth, Empty, Walk, MoveSource, Kept;
    var c := State(3, map[], [2]);
    StateDepth(3, map[], [2]);
    StateClean(3, map[], [2]);
    NameDWalk(c);
    RebindMoves();
    assert [REBIND_D][1..] == [];
    var c1 := WalkStmt(c, REBIND_D);
    assert WalkStmts(c1, []) == c1;
  }

  lemma RebindMoves()
    ensures var c := State(3, map[], [2]);
            c.Ok() && MoveSource(c, NAME_D).diags == [] && MoveSource(c, NAME_D).hazards == [MovedInLoop]
  {
    hide Depth, Empty;
    StateDepth(3, map[], [2]);
    StateMark(3, map[], [2], Rebind);
  }

  lemma RebindRun(e: Expr)
    requires e == Loop(Infinite, [REBIND_D], [])
    ensures Eval(11, e, Here(1, false), [1, 1]).out == Bad
  {
    hide Depth, Empty, Here, EvalBlock, Iterate;
    RebindRound(9, e, [1]);
    RebindAgain(8, e, []);
    assert [1, 1][1..] == [1] && [1][1..] == [];
  }

  lemma RebindRound(fuel: nat, e: Expr, tape: seq<nat>)
    requires e == Loop(Infinite, [REBIND_D], []) && fuel >= 6
    ensures forall t :: Choice(t) == 1 && Rest(t) == tape ==>
              Iterate(fuel, e, Here(1, false), t) == Iterate(fuel - 1, e, Here(1, true), tape)
  {
    hide Depth, Empty, Here, EvalBlock, Eval;
    HereFacts(1, false);
    HereFacts(1, true);
    RebindBody(fuel - 1, false, tape);
  }

  lemma RebindAgain(fuel: nat, e: Expr, tape: seq<nat>)
    requires e == Loop(Infinite, [REBIND_D], []) && fuel >= 6
    ensures forall t :: Choice(t) == 1 && Rest(t) == tape ==> Iterate(fuel, e, Here(1, true), t).out == Bad
  {
    hide Depth, Empty, Here, EvalBlock, Eval;
    HereFacts(1, true);
    RebindBody(fuel - 1, true, tape);
  }

  /** The first pass moves `d` away, the second one finds it gone. */
  lemma RebindBody(fuel: nat, gone: bool, tape: seq<nat>)
    requires fuel >= 5
    ensures var r := EvalBlock(fuel, [REBIND_D], Here(2, gone), tape);
            if gone then r.out == Bad else r == Run(Next, Here(2, true), tape, New)
  {
    hide Depth, Empty, Here, BindCell, Eval;
    HereFacts(2, gone);
    HereFacts(3, gone);
    NameRun(fuel - 3, 3, gone, tape);
    if !gone {
      HereFacts(2, true);
      HereFacts(3, true);
      RebindStmt(fuel - 2, tape);
      var env := BindCell(Here(3, true), "b", false, Whole);
      assert env[..3] == Here(3, true)[..3] == Here(2, true);
      assert EvalStmts(fuel - 1, [REBIND_D], Here(3, false), tape) == Run(Next, env, tape, New);
    } else {
      assert EvalStmt(fuel - 2, REBIND_D, Here(3, true), tape).out == Bad;
      assert EvalStmts(fuel - 1, [REBIND_D], Here(3, true), tape).out == Bad;
    }
  }

  lemma RebindStmt(fuel: nat, tape: seq<nat>)
    requires fuel >= 2
    ensures EvalStmt(fuel, REBIND_D, Here(3, false), tape) == Run(Next, BindCell(Here(3, true), "b", false, Whole), tape, New)
  {
    hide Depth, Empty, Here, BindCell;
    HereFacts(3, false);
    NameRun(fuel - 1, 3, false, tape);
    assert OwnedHere(Here(3, false), "d") && Depth(Here(3, false), "d") == 0;
    assert !BorrowedHere(Here(3, false), NAME_D);
  }

  /** A binding to a part of `d` is a second holder of it, which the checker does not see. */
  const PART_D := Part(NAME_D, [], true)
  const LET_PART := Let("w", Some(PART_D))
  const NAME_W := Name("w", true)
  const GIVE_W := Call([Arg(NAME_W, Takes)])

  /** The checker's state, and the run's, with `d` outside and the part `w` bound in the body. */
  function Aliased(d: map<Ident, Cause>): Ctx {
    Ctx([map["d" := false], map["w" := false]], [map["d" := Whole], map["w" := Of(0, "d")]], [d, map[]], [], [], [])
  }

  function AliasedHere(gone: bool): Env {
    [map["d" := Cell(false, gone, Whole)], map["w" := Cell(false, gone, Of(0, "d"))]]
  }

  lemma AliasedDepths(d: map<Ident, Cause>)
    requires d.Keys <= {"d"}
    ensures var c := Aliased(d);
            c.Ok() && Depth(c.scopes, "d") == 0 && Depth(c.scopes, "w") == 1
    ensures forall gone :: Depth(AliasedHere(gone), "d") == 0 && Depth(AliasedHere(gone), "w") == 1
  {
    hide Depth;
    DepthZero(Aliased(d).scopes, "d");
    DepthTop(Aliased(d).scopes, "w");
    forall gone
      ensures Depth(AliasedHere(gone), "d") == 0 && Depth(AliasedHere(gone), "w") == 1
    {
      DepthZero(AliasedHere(gone), "d");
      DepthTop(AliasedHere(gone), "w");
    }
  }

  lemma LetPartWalk()
    ensures State(1, map[], []).Ok() && WalkStmt(State(1, map[], []), LET_PART) == Aliased(map[])
  {
    hide Depth, Empty, Walk;
    var c := State(1, map[], []);
    StateDepth(1, map[], []);
    StateMark(1, map[], [], Rebind);
    OneEmpty<bool>();
    OneEmpty<Source>();
    OneEmpty<Cause>();
    PartWalk(1);
    assert SourceOf(c, PART_D) == Of(0, "d");
    var c1 := c.Bind("w", false, Of(0, "d"));
    assert Rebound(map[], 1, "w", Of(0, "d")) == map["w" := Of(0, "d")];
    assert map[]["w" := false] == map["w" := false];
    assert c1.scopes == Aliased(map[]).scopes && c1.sources == Aliased(map[]).sources && c1.consumed == Aliased(map[]).consumed;
  }

  lemma PartWalk(n: nat)
    ensures State(n, map[], []).Ok() && Walk(State(n, map[], []), PART_D) == State(n, map[], [])
  {
    hide Depth, Empty, State, Kept;
    StateDepth(n, map[], []);
    StateClean(n, map[], []);
    NameDWalk(State(n, map[], []));
    assert WalkAll(State(n, map[], []), []) == State(n, map[], []);
  }

  lemma PartRun(fuel: nat, n: nat, tape: seq<nat>)
    requires fuel >= 2
    ensures Eval(fuel, PART_D, Here(n, false), tape) == Run(Next, Here(n, false), tape, Piece(Of(0, "d")))
  {
    hide Depth, Empty;
    HereFacts(n, false);
    NameRun(fuel - 1, n, false, tape);
  }

  lemma OneEmpty<T>()
    ensures Empty<T>(1) == [map[]]
  {
  }

  lemma LetPartRun(fuel: nat, tape: seq<nat>)
    requires fuel >= 3
    ensures EvalStmt(fuel, LET_PART, Here(1, false), tape) == Run(Next, AliasedHere(false), tape, New)
  {
    hide Depth, Empty, Eval;
    HereFacts(1, false);
    OneEmpty<Cell>();
    PartRun(fuel - 1, 1, tape);
    var env := Here(1, false);
    assert !BorrowedHere(env, PART_D);
    assert NewCell(map[], 1, "w", Cell(false, false, Of(0, "d"))) == map["w" := Cell(false, false, Of(0, "d"))];
    assert BindCell(env, "w", false, Of(0, "d")) == AliasedHere(false);
  }

  /** Giving the part away leaves `d` to drop it again. */
  const GIVES_PART := Function(OWNED, [], [LET_PART, Do(GIVE_W)], [])

  lemma PartHazardIsReal()
    ensures Check(GIVES_PART).diags == [] && Check(GIVES_PART).hazards == [GivesPart]
    ensures RunOf(GIVES_PART, 9, []).out == Bad
  {
    hide Depth, Empty, Eval, Walk, WalkStmt, EvalStmt, Check, RunOf;
    TwoSteps(GIVES_PART, LET_PART, GIVE_W, 9, []);
    LetPartWalk();
    LetPartRun(7, []);
    GiveWWalk(Aliased(map[]));
    GiveWRun(5, AliasedHere(false), []);
  }

  /** A part `w` in the innermost scope is given away without a report. */
  lemma GiveWWalk(c: Ctx)
    requires c.Ok() && c.floors == [] && c.diags == [] && c.hazards == [] && |c.scopes| > 0
    requires var top := |c.scopes| - 1;
             "w" in c.scopes[top] && !c.scopes[top]["w"] && c.sources[top]["w"] == Of(0, "d") && "w" !in c.consumed[top]
             && !c.HasParts(top, "w")
    ensures Walk(c, GIVE_W).diags == [] && Walk(c, GIVE_W).hazards == [GivesPart]
  {
    hide Depth, Ctx.HasParts, Walk;
    DepthTop(c.scopes, "w");
    NameWalk(c, NAME_W);
    OneArg(c, NAME_W, Takes);
    assert c.SourceAt("w") == Of(0, "d") && Consume(c, NAME_W) == c.Mark("w", TakeArg).Suspect(GivesPart);
  }

  lemma NameWalk(c: Ctx, e: Expr)
    requires c.Ok() && e.Name? && c.CauseOf(e.x) == None
    ensures Walk(c, e) == c
  {
    hide Depth;
  }

  lemma GiveWRun(fuel: nat, env: Env, tape: seq<nat>)
    requires fuel >= 3 && |env| > 0
    requires "w" in env[|env| - 1] && env[|env| - 1]["w"] == Cell(false, false, Of(0, "d"))
    ensures Eval(fuel, GIVE_W, env, tape).out == Bad
  {
    hide Depth;
    DepthTop(env, "w");
    assert Eval(fuel - 2, NAME_W, env, tape) == Run(Next, env, tape, Piece(Of(0, "d")));
    OneArgRun(fuel, NAME_W, Takes, env, tape);
  }

  /** And giving `d` away takes the part along. */
  const PART_IS_LEFT := Function(OWNED, [], [LET_PART, Do(Many([GIVE_D, NAME_W]))], [])

  lemma LeftPartHazardIsReal()
    ensures Check(PART_IS_LEFT).diags == [] && Check(PART_IS_LEFT).hazards == [PartOutlives]
    ensures RunOf(PART_IS_LEFT, 12, []).out == Bad
  {
    hide Depth, Empty, Eval, Walk, WalkStmt, EvalStmt, Check, RunOf;
    var e := Many([GIVE_D, NAME_W]);
    TwoSteps(PART_IS_LEFT, LET_PART, e, 12, []);
    LetPartWalk();
    LetPartRun(10, []);
    GiveThenUseWalk(e);
    GiveThenUseRun(8, e, []);
  }

  lemma GiveThenUseWalk(e: Expr)
    requires e == Many([GIVE_D, NAME_W])
    ensures var c := Aliased(map[]);
            c.Ok() && Walk(c, e).diags == [] && Walk(c, e).hazards == [PartOutlives]
  {
    hide Depth;
    var c := Aliased(map[]);
    var c1 := c.Mark("d", TakeArg).Suspect(PartOutlives);
    AliasedDepths(map[]);
    AliasedDepths(map["d" := TakeArg]);
    GiveDWalk();
    assert c1.consumed == Aliased(map["d" := TakeArg]).consumed by {
      assert map[]["d" := TakeArg] == map["d" := TakeArg];
    }
    NameWalk(c1, NAME_W);
    hide Walk;
    TwoOperands(c, GIVE_D, NAME_W);
  }

  lemma TwoOperands(c: Ctx, first: Expr, second: Expr)
    requires c.Ok()
    ensures Walk(c, Many([first, second])) == Walk(Walk(c, first), second)
  {
    hide Depth, Kept, Walk;
    var c1 := Walk(c, first);
    ManyWalk(c, [first, second]);
    assert [first, second][1..] == [second] && [second][1..] == [];
    assert WalkAll(c1, [second]) == WalkAll(Walk(c1, second), []) == Walk(c1, second);
    assert WalkAll(c, [first, second]) == WalkAll(c1, [second]);
  }

  lemma ManyWalk(c: Ctx, es: seq<Expr>)
    requires c.Ok()
    ensures Walk(c, Many(es)) == WalkAll(c, es)
  {
    hide Depth, Kept, WalkAll;
  }

  lemma GiveDWalk()
    ensures var c := Aliased(map[]);
            c.Ok() && Walk(c, GIVE_D) == c.Mark("d", TakeArg).Suspect(PartOutlives)
  {
    hide Depth, Walk;
    var c := Aliased(map[]);
    AliasedDepths(map[]);
    NameDWalk(c);
    OneArg(c, NAME_D, Takes);
    assert c.sources[1]["w"] == Of(0, "d") && c.HasParts(0, "d");
    assert Consume(c, NAME_D) == c.Mark("d", TakeArg).Suspect(PartOutlives);
  }

  lemma GiveThenUseRun(fuel: nat, e: Expr, tape: seq<nat>)
    requires fuel >= 6 && e == Many([GIVE_D, NAME_W])
    ensures Eval(fuel, e, AliasedHere(false), tape).out == Bad
  {
    hide Depth;
    var env, left := AliasedHere(false), AliasedHere(true);
    AliasedDepths(map[]);
    GiveDRun(fuel - 2, tape);
    assert e.operands[1..] == [NAME_W];
    assert Eval(fuel - 3, NAME_W, left, tape).out == Bad;
    hide Eval;
    assert EvalAll(fuel - 2, [NAME_W], left, tape).out == Bad;
    assert EvalAll(fuel - 1, e.operands, env, tape).out == Bad;
    ManyRun(fuel, e, env, tape);
  }

  lemma ManyRun(fuel: nat, e: Expr, env: Env, tape: seq<nat>)
    requires fuel > 0 && e.Many?
    ensures Eval(fuel, e, env, tape) == EvalAll(fuel - 1, e.operands, env, tape).(value := New)
  {
    hide EvalAll;
  }

  lemma GiveDRun(fuel: nat, tape: seq<nat>)
    requires fuel >= 4
    ensures Eval(fuel, GIVE_D, AliasedHere(false), tape) == Run(Next, AliasedHere(true), tape, New)
  {
    hide Depth;
    var env, left := AliasedHere(false), AliasedHere(true);
    AliasedDepths(map[]);
    assert Eval(fuel - 2, NAME_D, env, tape) == Run(Next, env, tape, From(0, "d"));
    assert Without(env[0], 0, 0, "d") == left[0] && Without(env[1], 1, 0, "d") == left[1];
    assert MoveAway(env, 0, "d") == left;
    hide Eval;
    OneArgRun(fuel, NAME_D, Takes, env, tape);
  }

  /** A pattern binds parts too. */
  const TAKES_PART := Match(NAME_D, [Arm([("w", true)], None, GIVE_W)])
  const MATCH_GIVES_PART := Function(OWNED, [], [Do(TAKES_PART)], [])

  lemma PatternHazardIsReal()
    ensures Check(MATCH_GIVES_PART).diags == [] && Check(MATCH_GIVES_PART).hazards == [GivesPart]
    ensures RunOf(MATCH_GIVES_PART, 9, [1]).out == Bad
  {
    hide Depth, Empty, Eval, Walk, Check, RunOf;
    OneStep(MATCH_GIVES_PART, TAKES_PART, 9, [1]);
    PatternWalk(State(1, map[], []), TAKES_PART);
    PatternRun(6, TAKES_PART, [1]);
  }

  /** The same state with an empty scope between. */
  function Matched(d: map<Ident, Cause>): Ctx {
    Ctx([map["d" := false], map[], map["w" := false]], [map["d" := Whole], map[], map["w" := Of(0, "d")]],
      [d, map[], map[]], [], [], [])
  }

  lemma PatternWalk(c: Ctx, e: Expr)
    requires c == State(1, map[], []) && e == TAKES_PART
    ensures c.Ok() && Walk(c, e).diags == [] && Walk(c, e).hazards == [GivesPart]
  {
    hide Depth, Empty, Walk, WalkArm, WalkArms, Merge;
    StateDepth(1, map[], []);
    StateMark(1, map[], [], Rebind);
    NameDWalk(c);
    assert MatchSource(c, NAME_D) == Of(0, "d") && !IsBorrow(c, NAME_D);
    PatternArm(c, e.arms[0]);
    OnlyArm(c, e.arms[0], Of(0, "d"));
    assert e.arms == [e.arms[0]];
    MatchWalk(c, e);
  }

  lemma PatternArm(c: Ctx, arm: Arm)
    requires c == State(1, map[], []) && arm == Arm([("w", true)], None, GIVE_W)
    ensures c.Ok()
    ensures var c1 := WalkArm(c, arm, false, Of(0, "d"), true); c1.diags == [] && c1.hazards == [GivesPart]
  {
    hide Depth, Walk, Kept, State, Matched, Ctx.Push, Ctx.Bind;
    StateDepth(1, map[], []);
    PushOk(c);
    MatchedIs(c);
    MatchedGives();
    assert arm.binds[1..] == [];
    assert BindAll(Matched(map[]), [], false, Of(0, "d")) == Matched(map[]);
    assert BindAll(c.Push(), arm.binds, false, Of(0, "d")) == Matched(map[]);
  }

  lemma MatchedIs(c: Ctx)
    requires c == State(1, map[], [])
    ensures Matched(map[]).Ok() && |Matched(map[]).scopes| > 0
    ensures c.Ok() && c.Push().Ok() && |c.Push().scopes| > 0 && c.Push().Bind("w", false, Of(0, "d")) == Matched(map[])
  {
    hide Depth, Empty, Walk, Kept;
    StateDepth(1, map[], []);
    OneEmpty<bool>();
    OneEmpty<Source>();
    OneEmpty<Cause>();
    var c1 := c.Push().Bind("w", false, Of(0, "d"));
    assert Rebound(map[], 2, "w", Of(0, "d")) == map["w" := Of(0, "d")];
    assert map[]["w" := false] == map["w" := false];
    var m := Matched(map[]);
    assert c1.scopes == m.scopes && c1.sources == m.sources && c1.consumed == m.consumed;
  }

  lemma MatchedGives()
    ensures Matched(map[]).Ok()
    ensures Walk(Matched(map[]), GIVE_W).diags == [] && Walk(Matched(map[]), GIVE_W).hazards == [GivesPart]
  {
    hide Depth, Walk;
    GiveWWalk(Matched(map[]));
  }

  /** A match with one arm reports what the arm does. */
  lemma OnlyArm(c: Ctx, arm: Arm, source: Source)
    requires c.Ok()
    ensures var c1 := WalkArm(c, arm, false, source, true);
            var c' := WalkArms(c, [arm], false, source, c.consumed);
            c'.diags == c1.diags && c'.hazards == c1.hazards
  {
    LastArm(c, arm, source, c.consumed);
    assert c.(consumed := c.consumed) == c;
  }

  lemma PatternRun(fuel: nat, e: Expr, tape: seq<nat>)
    requires fuel >= 5 && e == TAKES_PART && Choice(tape) != 0
    ensures Eval(fuel, e, Here(1, false), tape).out == Bad
  {
    hide Depth, Empty, EvalArms, Here, Eval;
    HereFacts(1, false);
    var env := Here(1, false);
    NameRun(fuel - 1, 1, false, tape);
    HereSource(1);
    assert MatchedHere(env, "d") == Of(0, "d");
    PatternArmRun(fuel - 1, e.arms, env, tape);
    MatchRuns(fuel, e, env, tape);
  }

  lemma HereSource(n: nat)
    ensures PartHere(Here(n, false), "d") == Of(0, "d")
  {
    hide Depth, Empty;
    HereFacts(n, false);
  }

  lemma PatternArmRun(fuel: nat, arms: seq<Arm>, env: Env, tape: seq<nat>)
    requires fuel >= 4 && arms == TAKES_PART.arms && env == Here(1, false) && Choice(tape) != 0
    ensures EvalArms(fuel, arms, false, Of(0, "d"), env, tape).out == Bad
  {
    hide Depth, Empty, Eval, BindCells;
    PatternBinds(arms[0].binds, env);
    var inner := env + [map["w" := Cell(false, false, Of(0, "d"))]];
    GiveWRun(fuel - 1, inner, Rest(tape));
  }

  lemma PatternBinds(binds: seq<(Ident, bool)>, env: Env)
    requires binds == [("w", true)] && env == Here(1, false)
    ensures BindCells(env + [map[]], binds, false, Of(0, "d")) == env + [map["w" := Cell(false, false, Of(0, "d"))]]
  {
    hide Depth;
    assert NewCell(map[], 2, "w", Cell(false, false, Of(0, "d"))) == map["w" := Cell(false, false, Of(0, "d"))];
    assert BindCell(env + [map[]], "w", false, Of(0, "d")) == env + [map["w" := Cell(false, false, Of(0, "d"))]];
    assert binds[1..] == [];
  }
}
