/** Moves in forms that the checker does not look at, and code that it does not walk: each
    with a function it accepts without a report and a run of it that goes bad. */
module MoveSlips {
  import opened Wrappers
  import opened Moves
  import opened MoveRuns
  import opened MoveSoundness
  import opened MoveHazards

  // ----- `d` slips away, and is given away again -----

  const SLIPPED := map["d" := Unseen]

  /** Nothing marks `d` where a block's result is given away. */
  const RESULT_GIVEN := Call([Arg(Block([Do(NAME_D)]), Takes)])
  const GIVES_RESULT := Function(OWNED, [], [Do(RESULT_GIVEN), Do(GIVE_D)], [])

  lemma ResultHazardIsReal()
    ensures Check(GIVES_RESULT).diags == [] && Check(GIVES_RESULT).hazards == [UsedUnseen("d")]
    ensures RunOf(GIVES_RESULT, 14, []).out == Bad
  {
    hide Depth, Empty, Eval, Walk, WalkStmt, EvalStmt, Check, RunOf;
    TwoSteps(GIVES_RESULT, Do(RESULT_GIVEN), GIVE_D, 14, []);
    DoWalk(State(1, map[], []), RESULT_GIVEN);
    DoRun(12, RESULT_GIVEN, Here(1, false), []);
    BlockWalk(1);
    GivenUnseen(Block([Do(NAME_D)]), Takes);
    BlockRun(9, 1, []);
    GivenAway(11, Block([Do(NAME_D)]), Takes, []);
    UseOfSlipped();
    GiveGone(10, []);
  }

  /** Whatever yields `d`, given to an owner the checker does not look for. */
  lemma GivenUnseen(e: Expr, mode: Mode)
    requires mode == Keeps || (mode == Takes && !Looked(e))
    requires State(1, map[], []).Ok() && Walk(State(1, map[], []), e) == State(1, map[], [])
    requires Yields(State(1, map[], []), e) == Yield({(0, "d")}, false)
    ensures Walk(State(1, map[], []), Call([Arg(e, mode)])) == State(1, SLIPPED, [])
  {
    hide Depth, Walk, Yields, State, Slip;
    OneArg(State(1, map[], []), e, mode);
    Slipped(e);
  }

  lemma Slipped(e: Expr)
    requires State(1, map[], []).Ok() && Yields(State(1, map[], []), e) == Yield({(0, "d")}, false)
    ensures Slip(State(1, map[], []), e) == State(1, SLIPPED, [])
  {
    hide Depth, Yields, Empty;
    var c := State(1, map[], []);
    assert !c.HasParts(0, "d");
    assert Doubts(c, Yield({(0, "d")}, false)) == [];
    OneEmpty<bool>();
    OneEmpty<Cause>();
    var holders: set<(nat, Ident)> := {(0, "d")};
    assert c.scopes[0] == map["d" := false] && c.scopes[1] == map[] && c.consumed[0] == map[] && c.consumed[1] == map[];
    var marks := c.MarkUnseen(holders).consumed;
    assert marks[0] == c.consumed[0] + UnseenIn(c.scopes[0], c.consumed[0], 0, holders) == SLIPPED;
    assert marks[1] == c.consumed[1] + UnseenIn(c.scopes[1], c.consumed[1], 1, holders) == map[];
    assert marks == State(1, SLIPPED, []).consumed;
  }

  lemma GivenAway(fuel: nat, e: Expr, mode: Mode, tape: seq<nat>)
    requires fuel >= 3 && mode != Lends
    requires Eval(fuel - 2, e, Here(1, false), tape) == Run(Next, Here(1, false), tape, From(0, "d"))
    ensures Eval(fuel, Call([Arg(e, mode)]), Here(1, false), tape) == Run(Next, Here(1, true), tape, New)
  {
    hide Depth, Eval, Here, MoveAway;
    HereFacts(1, false);
    OneArgRun(fuel, e, mode, Here(1, false), tape);
  }

  lemma UseOfSlipped()
    ensures var c := State(1, SLIPPED, []);
            c.Ok() && Walk(c, GIVE_D).diags == [] && Walk(c, GIVE_D).hazards == [UsedUnseen("d")]
  {
    hide Depth, Empty;
    var c := State(1, SLIPPED, []);
    StateDepth(1, SLIPPED, []);
    StateClean(1, SLIPPED, []);
    StateMark(1, SLIPPED, [], TakeArg);
    UseSlipped(c);
  }

  /** The checker makes nothing of a use after a move it did not see. */
  lemma UseSlipped(c: Ctx)
    requires c.Ok() && c.floors == [] && c.diags == [] && c.hazards == []
    requires c.CauseOf("d") == Some(Unseen) && c.Lookup("d") == Some(false) && c.SourceAt("d") == Whole
    requires !c.HasParts(Depth(c.scopes, "d"), "d")
    ensures Walk(c, GIVE_D).diags == [] && Walk(c, GIVE_D).hazards == [UsedUnseen("d")]
  {
    hide Depth, Ctx.HasParts, Walk;
    OneArg(c, NAME_D, Takes);
    NameUse(c);
    var c1 := c.Suspect(UsedUnseen("d"));
    SamePlace(c, c1);
    assert Consume(c1, NAME_D) == c1.Mark("d", TakeArg);
  }

  lemma NameUse(c: Ctx)
    requires c.Ok()
    ensures Walk(c, NAME_D) == Use(c, "d")
  {
    hide Depth, Kept;
  }

  lemma SamePlace(c: Ctx, c': Ctx)
    requires c.Ok() && c'.Ok() && c'.scopes == c.scopes && c'.sources == c.sources && c'.floors == c.floors
    ensures c'.Lookup("d") == c.Lookup("d") && c'.SourceAt("d") == c.SourceAt("d")
    ensures forall d: nat :: c'.HasParts(d, "d") == c.HasParts(d, "d")
  {
    hide Depth;
  }

  lemma GiveGone(fuel: nat, tape: seq<nat>)
    requires fuel >= 3
    ensures Eval(fuel, GIVE_D, Here(1, true), tape).out == Bad
  {
    hide Depth, Eval, Here;
    NameRun(fuel - 2, 1, true, tape);
    OneArgRun(fuel, NAME_D, Takes, Here(1, true), tape);
  }

  lemma BlockWalk(n: nat)
    ensures var c := State(n, map[], []);
            c.Ok() && Walk(c, Block([Do(NAME_D)])) == c && WalkBlock(c, [Do(NAME_D)]) == c
            && Yields(c, Block([Do(NAME_D)])) == Yield({(0, "d")}, false) == YieldsBlock(c, [Do(NAME_D)])
  {
    hide Depth, Empty, Kept, State, Walk, Yields;
    var c := State(n, map[], []);
    StateDepth(n, map[], []);
    StateDepth(n + 1, map[], []);
    StatePush(n, map[], []);
    StateSize(n);
    NameYielded(n + 1);
    OneStatement(c.Push(), NAME_D);
    BlockIs(c, [Do(NAME_D)]);
    assert YieldsStmts(c.Push(), [Do(NAME_D)]) == Yields(c.Push(), NAME_D);
    assert Yield({(0, "d")}, false).Below(n + 1) == Yield({(0, "d")}, false);
  }

  lemma BlockIs(c: Ctx, stmts: seq<Stmt>)
    requires c.Ok()
    ensures Walk(c, Block(stmts)) == WalkBlock(c, stmts) && Yields(c, Block(stmts)) == YieldsBlock(c, stmts)
  {
    hide Depth, Kept, WalkBlock, YieldsBlock;
  }

  lemma BlockRun(fuel: nat, n: nat, tape: seq<nat>)
    requires fuel >= 5
    ensures Eval(fuel, Block([Do(NAME_D)]), Here(n, false), tape) == Run(Next, Here(n, false), tape, From(0, "d"))
    ensures EvalBlock(fuel - 1, [Do(NAME_D)], Here(n, false), tape) == Run(Next, Here(n, false), tape, From(0, "d"))
  {
    hide Depth, Here;
    HereFacts(n, false);
    HereFacts(n + 1, false);
    NameRun(fuel - 4, n + 1, false, tape);
    DoRun(fuel - 3, NAME_D, Here(n + 1, false), tape);
    assert EvalStmts(fuel - 2, [Do(NAME_D)], Here(n + 1, false), tape) == Run(Next, Here(n + 1, false), tape, From(0, "d"));
  }

  /** Nor where a literal's field, or a parameter of a callee that is not resolved, keeps it. */
  const KEPT := Call([Arg(NAME_D, Keeps)])
  const KEEPS := Function(OWNED, [], [Do(KEPT), Do(GIVE_D)], [])

  lemma LiteralHazardIsReal()
    ensures Check(KEEPS).diags == [] && Check(KEEPS).hazards == [UsedUnseen("d")]
    ensures RunOf(KEEPS, 14, []).out == Bad
  {
    hide Depth, Empty, Eval, Walk, WalkStmt, EvalStmt, Check, RunOf;
    TwoSteps(KEEPS, Do(KEPT), GIVE_D, 14, []);
    DoWalk(State(1, map[], []), KEPT);
    DoRun(12, KEPT, Here(1, false), []);
    NameYielded(1);
    GivenUnseen(NAME_D, Keeps);
    NameRun(9, 1, false, []);
    GivenAway(11, NAME_D, Keeps, []);
    UseOfSlipped();
    GiveGone(10, []);
  }

  lemma NameYielded(n: nat)
    ensures var c := State(n, map[], []);
            c.Ok() && Walk(c, NAME_D) == c && Yields(c, NAME_D) == Yield({(0, "d")}, false)
  {
    hide Depth, Empty;
    StateDepth(n, map[], []);
    StateMark(n, map[], [], Rebind);
    StateClean(n, map[], []);
    NameDWalk(State(n, map[], []));
  }

  /** Nor where it is assigned, here to a global. */
  const STORED := Assign(Name("g", true), NAME_D)
  const STORES := Function(OWNED, [], [Do(STORED), Do(GIVE_D)], [])

  lemma AssignHazardIsReal()
    ensures Check(STORES).diags == [] && Check(STORES).hazards == [UsedUnseen("d")]
    ensures RunOf(STORES, 14, []).out == Bad
  {
    hide Depth, Empty, Eval, Walk, WalkStmt, EvalStmt, Check, RunOf;
    TwoSteps(STORES, Do(STORED), GIVE_D, 14, []);
    DoWalk(State(1, map[], []), STORED);
    DoRun(12, STORED, Here(1, false), []);
    StoredWalk();
    StoredRun(11, []);
    UseOfSlipped();
    GiveGone(10, []);
  }

  lemma StoredWalk()
    ensures var c := State(1, map[], []); c.Ok() && Walk(c, STORED) == State(1, SLIPPED, [])
  {
    hide Depth, Empty, Walk, Slip, Yields, State, Kept;
    var c := State(1, map[], []);
    StateDepth(1, map[], []);
    StateDepth(1, SLIPPED, []);
    NameYielded(1);
    Slipped(NAME_D);
    GlobalUnknown(map[]);
    GlobalUnknown(SLIPPED);
    NameWalk(c, STORED.target);
    AssignWalk(c, STORED);
  }

  lemma GlobalUnknown(marks: map<Ident, Cause>)
    ensures State(1, marks, []).CauseOf("g") == None
    ensures forall gone :: Depth(Here(1, gone), "g") == 2
  {
    forall gone
      ensures Depth(Here(1, gone), "g") == 2
    {
      assert "g" !in Here(1, gone)[0] && "g" !in Here(1, gone)[1];
    }
    assert "g" !in State(1, marks, []).scopes[0] && "g" !in State(1, marks, []).scopes[1];
  }

  lemma StoredRun(fuel: nat, tape: seq<nat>)
    requires fuel >= 3
    ensures Eval(fuel, STORED, Here(1, false), tape) == Run(Next, Here(1, true), tape, New)
  {
    hide Depth, Here;
    HereFacts(1, false);
    HereFacts(1, true);
    GlobalUnknown(map[]);
    NameRun(fuel - 1, 1, false, tape);
    assert Eval(fuel - 1, STORED.target, Here(1, false), tape) == Run(Next, Here(1, false), tape, New);
  }

  /** Nor where it comes out of one branch of an `if` that a new binding is made from. */
  const EITHER := If(Leaf, [Do(NAME_D)], Some(Leaf))
  const LET_EITHER := Let("w", Some(EITHER))
  const BOTH_GIVEN := Many([GIVE_W, GIVE_D])
  const BINDS_RESULT := Function(OWNED, [], [LET_EITHER, Do(BOTH_GIVEN)], [])

  lemma InitialiserHazardIsReal()
    ensures Check(BINDS_RESULT).diags == [] && Check(BINDS_RESULT).hazards == [UsedUnseen("d")]
    ensures RunOf(BINDS_RESULT, 16, [1]).out == Bad
  {
    hide Depth, Empty, Eval, Walk, WalkStmt, EvalStmt, Check, RunOf;
    TwoSteps(BINDS_RESULT, LET_EITHER, BOTH_GIVEN, 16, [1]);
    LetEitherWalk();
    GiveBothWalk();
    LetEitherRun(14, [1]);
    GiveBothRun(12, []);
  }

  /** The state with `w` beside `d`, whose value it has now. */
  function Beside(marks: map<Ident, Cause>): Ctx {
    Ctx([map["d" := false], map["w" := false]], [map["d" := Whole], map["w" := Whole]], [SLIPPED, marks], [], [], [])
  }

  function BesideHere(gone: bool): Env {
    [map["d" := Cell(false, true, Whole)], map["w" := Cell(false, gone, Whole)]]
  }

  lemma BesideFacts(marks: map<Ident, Cause>)
    requires marks.Keys <= {"w"}
    ensures var c := Beside(marks);
            && c.Ok() && Depth(c.scopes, "w") == 1 && Depth(c.scopes, "d") == 0
            && c.CauseOf("d") == Some(Unseen) && c.Lookup("d") == Some(false) && c.SourceAt("d") == Whole
            && !c.HasParts(0, "d") && !c.HasParts(1, "w")
    ensures forall gone :: Depth(BesideHere(gone), "d") == 0 && Depth(BesideHere(gone), "w") == 1
  {
    hide Depth;
    DepthZero(Beside(marks).scopes, "d");
    DepthTop(Beside(marks).scopes, "w");
    forall gone
      ensures Depth(BesideHere(gone), "d") == 0 && Depth(BesideHere(gone), "w") == 1
    {
      DepthZero(BesideHere(gone), "d");
      DepthTop(BesideHere(gone), "w");
    }
  }

  lemma LetEitherWalk()
    ensures State(1, map[], []).Ok() && |State(1, map[], []).scopes| > 0
    ensures WalkStmt(State(1, map[], []), LET_EITHER) == Beside(map[])
  {
    hide Depth, Walk, Slip, Yields, Kept, Empty;
    StateSize(1);
    EitherWalk();
    Slipped(EITHER);
    OneEmpty<bool>();
    OneEmpty<Source>();
    OneEmpty<Cause>();
    assert SourceOf(State(1, map[], []), EITHER) == Settled(State(1, map[], []), EITHER) == Whole;
    var c, c' := State(1, SLIPPED, []).Bind("w", false, Whole), Beside(map[]);
    assert Rebound(map[], 1, "w", Whole) == map["w" := Whole];
    assert map[]["w" := false] == map["w" := false];
    assert c.scopes == c'.scopes && c.sources == c'.sources && c.consumed == c'.consumed;
  }

  lemma GiveBothWalk()
    ensures Beside(map[]).Ok()
    ensures var c := Walk(Beside(map[]), BOTH_GIVEN); c.diags == [] && c.hazards == [UsedUnseen("d")]
  {
    hide Depth, Walk, Ctx.HasParts;
    var c, c1 := Beside(map[]), Beside(map["w" := TakeArg]);
    BesideFacts(map[]);
    BesideFacts(map["w" := TakeArg]);
    NameWalk(c, NAME_W);
    OneArg(c, NAME_W, Takes);
    assert map[]["w" := TakeArg] == map["w" := TakeArg];
    assert c.Mark("w", TakeArg).consumed == c1.consumed;
    assert Consume(c, NAME_W) == c1;
    UseSlipped(c1);
    TwoOperands(c, GIVE_W, GIVE_D);
  }

  lemma EitherWalk()
    ensures var c := State(1, map[], []);
            c.Ok() && Walk(c, EITHER) == c && Yields(c, EITHER) == Yield({(0, "d")}, false)
  {
    hide Depth, Empty, WalkBlock, Kept, YieldsBlock;
    var c := State(1, map[], []);
    BlockWalk(1);
    LeafWalk(c);
    MergeSelf(c.consumed);
    assert c.(consumed := c.consumed) == c;
    assert WalkBranches(c, EITHER) == c;
    assert Yields(c, Leaf) == NOBODY;
    assert Yield({(0, "d")}, false).Or(NOBODY) == Yield({(0, "d")}, false);
  }

  lemma MergeSelf(marks: seq<map<Ident, Cause>>)
    ensures Merge(marks, marks) == marks
  {
    forall i | 0 <= i < |marks|
      ensures Both(marks[i], marks[i]) == marks[i]
    {
    }
  }

  lemma LetEitherRun(fuel: nat, tape: seq<nat>)
    requires fuel >= 7 && Choice(tape) != 0
    ensures EvalStmt(fuel, LET_EITHER, Here(1, false), tape) == Run(Next, BesideHere(false), Rest(tape), New)
  {
    hide Depth, Here, EvalBlock, BindCell;
    HereFacts(1, false);
    LeafRun(fuel - 2, Here(1, false), tape);
    BlockRun(fuel - 1, 1, Rest(tape));
    BesideBound();
    assert Eval(fuel - 1, EITHER, Here(1, false), tape) == EvalBlock(fuel - 2, [Do(NAME_D)], Here(1, false), Rest(tape));
  }

  lemma BesideBound()
    ensures BindCell(Here(1, true), "w", false, Whole) == BesideHere(false)
  {
    hide Empty;
    OneEmpty<Cell>();
    assert NewCell(map[], 1, "w", Cell(false, false, Whole)) == map["w" := Cell(false, false, Whole)];
  }

  lemma GiveBothRun(fuel: nat, tape: seq<nat>)
    requires fuel >= 6
    ensures Eval(fuel, BOTH_GIVEN, BesideHere(false), tape).out == Bad
  {
    hide Depth, Eval;
    BesideGiven(fuel - 2, tape);
    assert [GIVE_W, GIVE_D][1..] == [GIVE_D];
    assert EvalAll(fuel - 2, [GIVE_D], BesideHere(true), tape).out == Bad;
    assert EvalAll(fuel - 1, [GIVE_W, GIVE_D], BesideHere(false), tape).out == Bad;
    ManyRun(fuel, BOTH_GIVEN, BesideHere(false), tape);
  }

  lemma BesideGiven(fuel: nat, tape: seq<nat>)
    requires fuel >= 4
    ensures Eval(fuel, GIVE_W, BesideHere(false), tape) == Run(Next, BesideHere(true), tape, New)
    ensures Eval(fuel - 1, GIVE_D, BesideHere(true), tape).out == Bad
  {
    hide Depth;
    BesideFacts(map[]);
    var env, left := BesideHere(false), BesideHere(true);
    assert Eval(fuel - 2, NAME_W, env, tape) == Run(Next, env, tape, From(1, "w"));
    assert Without(env[0], 0, 1, "w") == left[0] && Without(env[1], 1, 1, "w") == left[1];
    assert MoveAway(env, 1, "w") == left;
    assert Eval(fuel - 3, NAME_D, left, tape).out == Bad;
    hide Eval;
    OneArgRun(fuel, NAME_W, Takes, env, tape);
    OneArgRun(fuel - 1, NAME_D, Takes, left, tape);
  }

  // ----- the receiver is not looked at -----

  const GIVE_SELF := Call([Arg(Receiver(true), Takes)])
  const SELF_TWICE := Many([GIVE_SELF, GIVE_SELF])
  const GIVES_SELF := Function([("self", false)], [], [Do(SELF_TWICE)], [])

  function Inside(marks: map<Ident, Cause>): Ctx {
    Ctx([map["self" := false], map[]], [map["self" := Whole], map[]], [marks, map[]], [], [], [])
  }

  function InsideHere(gone: bool): Env { [map["self" := Cell(false, gone, Whole)], map[]] }

  lemma ReceiverHazardIsReal()
    ensures Check(GIVES_SELF).diags == [] && Check(GIVES_SELF).hazards == [UsedUnseen("self")]
    ensures RunOf(GIVES_SELF, 14, []).out == Bad
  {
    hide Depth, Eval, Walk, Check, RunOf, Entry;
    InsideEntry();
    BodyOf(GIVES_SELF, 14, []);
    SelfTwiceWalk();
    OneStatement(Inside(map[]), SELF_TWICE);
    SelfTwiceRun(11, []);
    DoRun(12, SELF_TWICE, InsideHere(false), []);
  }

  lemma InsideEntry()
    ensures Entry(GIVES_SELF).Push() == Inside(map[])
    ensures BindPairs([map[]], GIVES_SELF.params) + [map[]] == InsideHere(false)
  {
    hide Depth, Kept;
    assert GIVES_SELF.params[1..] == [];
    var c := NOTHING.Push().Bind("self", false, Whole);
    NothingBound();
    assert BindEach(c, []) == c;
    var env := BindCell([map[]], "self", false, Whole);
    assert NewCell(map[], 0, "self", Cell(false, false, Whole)) == map["self" := Cell(false, false, Whole)];
    assert BindPairs(env, []) == env;
  }

  lemma NothingBound()
    ensures NOTHING.Push().Ok() && |NOTHING.Push().scopes| > 0
    ensures NOTHING.Push().Bind("self", false, Whole).Ok() && NOTHING.Push().Bind("self", false, Whole).Push() == Inside(map[])
  {
    hide Depth, Kept;
    var c := NOTHING.Push();
    assert c.Ok();
    BindInner(c, "self", false, Whole);
    var c1 := c.Bind("self", false, Whole);
    assert Rebound(map[], 0, "self", Whole) == map["self" := Whole];
    assert c1.scopes == [map["self" := false]] && c1.sources == [map["self" := Whole]] && c1.consumed == [map[]];
  }

  lemma InsideFacts(marks: map<Ident, Cause>)
    requires marks.Keys <= {"self"}
    ensures var c := Inside(marks);
            && c.Ok() && Depth(c.scopes, "self") == 0 && c.SourceAt("self") == Whole && !c.HasParts(0, "self")
            && c.CauseOf("self") == if "self" in marks then Some(marks["self"]) else None
    ensures forall gone :: Depth(InsideHere(gone), "self") == 0
  {
    hide Depth;
    DepthZero(Inside(marks).scopes, "self");
    forall gone
      ensures Depth(InsideHere(gone), "self") == 0
    {
      DepthZero(InsideHere(gone), "self");
    }
  }

  lemma SelfTwiceWalk()
    ensures Inside(map[]).Ok()
    ensures var c := Walk(Inside(map[]), SELF_TWICE); c.diags == [] && c.hazards == [UsedUnseen("self")]
  {
    hide Depth, Walk, Ctx.HasParts, Slip;
    var c, c1 := Inside(map[]), Inside(map["self" := Unseen]);
    InsideFacts(map[]);
    InsideFacts(map["self" := Unseen]);
    SelfWalk(c);
    SelfWalk(c1);
    OneArg(c, Receiver(true), Takes);
    OneArg(c1, Receiver(true), Takes);
    SelfSlips(c, map[]);
    SelfSlips(c1.Suspect(UsedUnseen("self")), map["self" := Unseen]);
    TwoOperands(c, GIVE_SELF, GIVE_SELF);
  }

  lemma SelfWalk(c: Ctx)
    requires c.Ok()
    ensures Walk(c, Receiver(true)) == UseReceiver(c)
  {
    hide Depth, Kept;
  }

  lemma SelfSlips(c: Ctx, marks: map<Ident, Cause>)
    requires c == Inside(marks).(hazards := c.hazards) && (marks == map[] || marks == map["self" := Unseen]) && c.Ok()
    ensures Slip(c, Receiver(true)) == Inside(map["self" := Unseen]).(hazards := c.hazards)
  {
    hide Depth;
    InsideFacts(marks);
    assert c.SourceAt("self") == Whole && c.Lookup("self") == Some(false);
    var holders: set<(nat, Ident)> := {(0, "self")};
    assert Yields(c, Receiver(true)) == Yield(holders, false);
    assert Doubts(c, Yield(holders, false)) == [];
    var marked := c.MarkUnseen(holders).consumed;
    assert marked[0] == marks + UnseenIn(map["self" := false], marks, 0, holders) == map["self" := Unseen];
    assert marked[1] == map[] + UnseenIn(map[], map[], 1, holders) == map[];
    assert marked == [map["self" := Unseen], map[]];
  }

  lemma SelfTwiceRun(fuel: nat, tape: seq<nat>)
    requires fuel >= 6
    ensures Eval(fuel, SELF_TWICE, InsideHere(false), tape).out == Bad
  {
    hide Depth, Eval;
    SelfGiven(fuel - 2, tape);
    assert [GIVE_SELF, GIVE_SELF][1..] == [GIVE_SELF];
    assert EvalAll(fuel - 2, [GIVE_SELF], InsideHere(true), tape).out == Bad;
    assert EvalAll(fuel - 1, [GIVE_SELF, GIVE_SELF], InsideHere(false), tape).out == Bad;
    ManyRun(fuel, SELF_TWICE, InsideHere(false), tape);
  }

  lemma SelfGiven(fuel: nat, tape: seq<nat>)
    requires fuel >= 4
    ensures Eval(fuel, GIVE_SELF, InsideHere(false), tape) == Run(Next, InsideHere(true), tape, New)
    ensures Eval(fuel - 1, GIVE_SELF, InsideHere(true), tape).out == Bad
  {
    hide Depth, Eval, InsideHere;
    SelfRun(fuel - 2, tape);
    SelfRun(fuel - 3, tape);
    OneArgRun(fuel, Receiver(true), Takes, InsideHere(false), tape);
    OneArgRun(fuel - 1, Receiver(true), Takes, InsideHere(true), tape);
  }

  lemma SelfRun(fuel: nat, tape: seq<nat>)
    requires fuel > 0
    ensures Eval(fuel, Receiver(true), InsideHere(false), tape) == Run(Next, InsideHere(false), tape, From(0, "self"))
    ensures Eval(fuel, Receiver(true), InsideHere(true), tape).out == Bad
    ensures MoveAway(InsideHere(false), 0, "self") == InsideHere(true)
  {
    hide Depth;
    InsideFacts(map[]);
    var env, left := InsideHere(false), InsideHere(true);
    assert Without(env[0], 0, 0, "self") == left[0] && Without(env[1], 1, 0, "self") == left[1];
  }

  // ----- a part goes with a result -----

  const PART_RESULT := Call([Arg(Block([Do(PART_D)]), Takes)])
  const GIVES_PART_RESULT := Function(OWNED, [], [Do(PART_RESULT)], [])

  lemma ResultPartHazardIsReal()
    ensures Check(GIVES_PART_RESULT).diags == [] && Check(GIVES_PART_RESULT).hazards == [GivesPart]
    ensures RunOf(GIVES_PART_RESULT, 12, []).out == Bad
  {
    hide Depth, Empty, Eval, Walk, Check, RunOf;
    OneStep(GIVES_PART_RESULT, PART_RESULT, 12, []);
    PartResultWalk();
    PartResultRun(9, []);
  }

  lemma PartResultWalk()
    ensures State(1, map[], []).Ok()
    ensures var c := Walk(State(1, map[], []), PART_RESULT); c.diags == [] && c.hazards == [GivesPart]
  {
    hide Depth, Empty, Kept, State, Walk, Yields;
    var c := State(1, map[], []);
    var e := Block([Do(PART_D)]);
    StateDepth(1, map[], []);
    StateDepth(2, map[], []);
    StatePush(1, map[], []);
    StateClean(1, map[], []);
    StateSize(1);
    PartWalk(2);
    OneStatement(c.Push(), PART_D);
    BlockIs(c, [Do(PART_D)]);
    PartYielded(2);
    assert YieldsStmts(c.Push(), [Do(PART_D)]) == Yields(c.Push(), PART_D);
    assert Yields(c, e) == Yield({}, true);
    OneArg(c, e, Takes);
    SlipsPart(c, e);
  }

  lemma PartYielded(n: nat)
    ensures State(n, map[], []).Ok() && Yields(State(n, map[], []), PART_D) == Yield({}, true)
  {
    hide Depth, Empty;
    StateDepth(n, map[], []);
  }

  lemma SlipsPart(c: Ctx, e: Expr)
    requires c.Ok() && Yields(c, e) == Yield({}, true)
    ensures Slip(c, e).diags == c.diags && Slip(c, e).hazards == c.hazards + [GivesPart]
  {
    hide Depth, Yields;
    assert Doubts(c, Yield({}, true)) == [GivesPart];
  }

  lemma PartResultRun(fuel: nat, tape: seq<nat>)
    requires fuel >= 8
    ensures Eval(fuel, PART_RESULT, Here(1, false), tape).out == Bad
  {
    hide Depth, Here, Empty;
    HereFacts(1, false);
    HereFacts(2, false);
    DoRun(fuel - 5, PART_D, Here(2, false), tape);
    PartRun(fuel - 6, 2, tape);
    assert EvalStmts(fuel - 4, [Do(PART_D)], Here(2, false), tape) == Run(Next, Here(2, false), tape, Piece(Of(0, "d")));
    assert Eval(fuel - 2, Block([Do(PART_D)]), Here(1, false), tape).value.Piece?;
    hide Eval;
    OneArgRun(fuel, Block([Do(PART_D)]), Takes, Here(1, false), tape);
  }

  const RETURNS_PART := Function(OWNED, [], [Return(Some(PART_D))], [])

  lemma ReturnHazardIsReal()
    ensures Check(RETURNS_PART).diags == [] && Check(RETURNS_PART).hazards == [ReturnsPart]
    ensures RunOf(RETURNS_PART, 9, []).out == Bad
  {
    hide Depth, Empty, Walk, Eval, Check, RunOf, State, Here;
    BodyAlone(RETURNS_PART, 9, []);
    var c := State(1, map[], []);
    StateDepth(1, map[], []);
    StateClean(1, map[], []);
    StateSize(1);
    PartWalk(1);
    PartYielded(1);
    assert [Return(Some(PART_D))][1..] == [];
    var c1 := WalkStmt(c, Return(Some(PART_D)));
    assert WalkStmts(c1, []) == c1;
    PartReturned(8, []);
  }

  lemma PartReturned(fuel: nat, tape: seq<nat>)
    requires fuel >= 4
    ensures EvalStmts(fuel, [Return(Some(PART_D))], Here(1, false), tape).out == Bad
  {
    hide Depth, Eval, Here;
    HereFacts(1, false);
    PartRun(fuel - 2, 1, tape);
  }

  // ----- a place is reached after it was moved -----

  const LENT_AND_GIVEN := Call([Arg(NAME_D, Lends), Arg(NAME_D, Takes)])
  const LENDS_GIVEN := Function(OWNED, [], [Do(LENT_AND_GIVEN)], [])

  lemma LentHazardIsReal()
    ensures Check(LENDS_GIVEN).diags == [] && Check(LENDS_GIVEN).hazards == [ReachesMoved("d")]
    ensures RunOf(LENDS_GIVEN, 9, []).out == Bad
  {
    hide Depth, Empty, Eval, Walk, Check, RunOf;
    OneStep(LENDS_GIVEN, LENT_AND_GIVEN, 9, []);
    LentWalk();
    LentRun(6, []);
  }

  lemma LentWalk()
    ensures State(1, map[], []).Ok()
    ensures var c := Walk(State(1, map[], []), LENT_AND_GIVEN); c.diags == [] && c.hazards == [ReachesMoved("d")]
  {
    hide Depth, Empty, Walk, Kept, State;
    var c, c1 := State(1, map[], []), State(1, map["d" := TakeArg], []);
    var args := LENT_AND_GIVEN.args;
    StateDepth(1, map["d" := TakeArg], []);
    StateClean(1, map["d" := TakeArg], []);
    GiveWalk(1);
    GivenName(c);
    assert args[1..] == [args[1]] && args[1..][1..] == [];
    assert WalkArgs(c, args[1..]) == WalkArgs(c1, []) == c1;
    assert WalkArgs(c, args) == WalkArgs(c, args[1..]);
    CallWalk(c, args);
    var c2 := c1.Suspect(ReachesMoved("d"));
    assert Reach(c1, NAME_D) == c2;
    NothingLent(c2, args[1]);
    assert Lent(c1, args) == Lent(c2, args[1..]);
  }

  lemma GivenName(c: Ctx)
    requires c == State(1, map[], []) && c.Ok()
    ensures WalkArg(c, Arg(NAME_D, Lends)) == c && WalkArg(c, Arg(NAME_D, Takes)) == State(1, map["d" := TakeArg], [])
  {
    hide Depth, Empty, Walk, Kept;
    GiveWalk(1);
    ArgWalk(c, Arg(NAME_D, Lends));
    ArgWalk(c, Arg(NAME_D, Takes));
    OneArg(c, NAME_D, Takes);
  }

  lemma LentRun(fuel: nat, tape: seq<nat>)
    requires fuel >= 6
    ensures Eval(fuel, LENT_AND_GIVEN, Here(1, false), tape).out == Bad
  {
    hide Depth, Here;
    var args := LENT_AND_GIVEN.args;
    HereFacts(1, false);
    HereFacts(1, true);
    NameRun(fuel - 2, 1, false, tape);
    NameRun(fuel - 3, 1, false, tape);
    assert args[1..] == [args[1]] && args[1..][1..] == [];
    assert EvalArgs(fuel - 2, args[1..], Here(1, false), tape) == Run(Next, Here(1, true), tape, New);
    assert EvalArgs(fuel - 1, args, Here(1, false), tape) == Run(Next, Here(1, true), tape, New);
    assert LendsOwner(args[0]) && Gone(Here(1, true), Root(args[0].e).value);
  }

  const INDEXED := Part(NAME_D, [GIVE_D], false)
  const INDEX_GIVES := Function(OWNED, [], [Do(Many([INDEXED]))], [])

  lemma IndexHazardIsReal()
    ensures Check(INDEX_GIVES).diags == [] && Check(INDEX_GIVES).hazards == [ReachesMoved("d")]
    ensures RunOf(INDEX_GIVES, 12, []).out == Bad
  {
    hide Depth, Empty, Eval, Walk, Check, RunOf;
    OneStep(INDEX_GIVES, Many([INDEXED]), 12, []);
    OneOperand(State(1, map[], []), INDEXED);
    IndexWalk();
    IndexRun(7, []);
    OneOperandRun(9, INDEXED, Here(1, false), []);
  }

  lemma IndexWalk()
    ensures State(1, map[], []).Ok()
    ensures var c := Walk(State(1, map[], []), INDEXED); c.diags == [] && c.hazards == [ReachesMoved("d")]
  {
    hide Depth, Empty, Kept, State, WalkArgs;
    var c, c1 := State(1, map[], []), State(1, map["d" := TakeArg], []);
    StateDepth(1, map["d" := TakeArg], []);
    StateClean(1, map["d" := TakeArg], []);
    GiveWalk(1);
    OneOf(c, GIVE_D);
    hide Walk;
    PlaceWalk(c, INDEXED);
    assert Reach(c1, INDEXED) == c1.Suspect(ReachesMoved("d"));
  }

  lemma OneOf(c: Ctx, e: Expr)
    requires c.Ok()
    ensures WalkAll(c, [e]) == Walk(c, e)
  {
    hide Depth, Kept, Walk;
    assert [e][1..] == [];
    assert WalkAll(Walk(c, e), []) == Walk(c, e);
  }

  lemma PlaceWalk(c: Ctx, e: Expr)
    requires c.Ok() && e.Part?
    ensures Walk(c, e) == Reach(WalkAll(Walk(c, e.base), e.index), e)
  {
    hide Depth, Kept, Reach, WalkAll;
  }

  lemma IndexRun(fuel: nat, tape: seq<nat>)
    requires fuel >= 6
    ensures Eval(fuel, INDEXED, Here(1, false), tape).out == Bad
  {
    hide Depth, Here, EvalArgs;
    HereFacts(1, true);
    NameRun(fuel - 1, 1, false, tape);
    GiveRun(fuel - 2, 1, tape);
    assert [GIVE_D][1..] == [];
    assert EvalAll(fuel - 1, [GIVE_D], Here(1, false), tape) == Run(Next, Here(1, true), tape, New);
  }

  // ----- code that is not walked -----

  /** A stride runs once a round. */
  const STRIDING := Loop(Iter([], [], Some(GIVE_D)), [], [])
  const STRIDE_GIVES := Function(OWNED, [], [Do(STRIDING)], [])

  lemma StrideHazardIsReal()
    ensures Check(STRIDE_GIVES).diags == [] && Check(STRIDE_GIVES).hazards == [StrideMoves]
    ensures RunOf(STRIDE_GIVES, 16, [1, 1]).out == Bad
  {
    hide Depth, Empty, Eval, Walk, Check, RunOf;
    OneStep(STRIDE_GIVES, STRIDING, 16, [1, 1]);
    StridingWalk();
    StridingRun(13, [1, 1]);
  }

  lemma StridingWalk()
    ensures State(1, map[], []).Ok()
    ensures var c := Walk(State(1, map[], []), STRIDING); c.diags == [] && c.hazards == [StrideMoves]
  {
    hide Depth, Empty, Kept, State, Walk, WalkBlock;
    var c, c1 := State(1, map[], []), State(2, map[], [2]);
    StateDepth(1, map[], []);
    StateDepth(2, map[], [2]);
    StateSize(1);
    StatePush(1, map[], [2]);
    StateFloored(1);
    NoRound(c1);
    StrideReported();
    LoopWalk(c, STRIDING);
    assert WalkHead(c1, STRIDING.head) == c1;
    StateClean(2, map[], [2]);
    assert Striding(c1, STRIDING.head) == c1.Suspect(StrideMoves);
    EmptyBlock(WalkLoop(c, STRIDING));
  }

  lemma StateFloored(n: nat)
    ensures var c := State(n, map[], []); c.(floors := c.floors + [|c.scopes|]) == State(n, map[], [n + 1])
  {
  }

  lemma NoRound(c: Ctx)
    requires c.Ok()
    ensures WalkBlock(c, []) == c
  {
    hide Depth, Kept;
    assert WalkStmts(c.Push(), []) == c.Push();
    assert c.Push().Pop().scopes == c.scopes && c.Push().Pop().sources == c.sources && c.Push().Pop().consumed == c.consumed;
  }

  lemma StrideReported()
    ensures State(2, map[], [2]).Ok() && Walk(State(2, map[], [2]), GIVE_D).diags == [GivenInLoop("d")]
  {
    hide Depth, Empty, Walk;
    var c := State(2, map[], [2]);
    StateDepth(2, map[], [2]);
    StateClean(2, map[], [2]);
    NameDWalk(c);
    OneArg(c, NAME_D, Takes);
  }

  lemma StridingRun(fuel: nat, tape: seq<nat>)
    requires fuel >= 11 && tape == [1, 1]
    ensures Eval(fuel, STRIDING, Here(1, false), tape).out == Bad
  {
    hide Depth, Here, Iterate;
    HereFacts(1, false);
    assert tape[1..] == [1] && [1][1..] == [];
    assert EvalAll(fuel - 2, [], Here(2, false), tape) == Run(Next, Here(2, false), tape, New);
    StrideRound(fuel - 2, tape);
    StrideGone(fuel - 3, [1]);
  }

  lemma StrideRound(fuel: nat, tape: seq<nat>)
    requires fuel >= 7 && Choice(tape) == 1
    ensures Iterate(fuel, STRIDING, Here(1, false), tape) == Iterate(fuel - 1, STRIDING, Here(1, true), Rest(tape))
  {
    hide Depth, Here, Eval;
    HereFacts(1, false);
    HereFacts(1, true);
    HereFacts(2, false);
    EmptyRound(fuel - 1, 2, false, Rest(tape));
    GiveRun(fuel - 2, 2, Rest(tape));
    assert EvalStride(fuel - 1, STRIDING.head, Here(2, false), Rest(tape)) == Run(Next, Here(2, true), Rest(tape), New);
  }

  lemma StrideGone(fuel: nat, tape: seq<nat>)
    requires fuel >= 7 && Choice(tape) == 1
    ensures Iterate(fuel, STRIDING, Here(1, true), tape).out == Bad
  {
    hide Depth, Here, Eval;
    HereFacts(1, true);
    HereFacts(2, true);
    EmptyRound(fuel - 1, 2, true, Rest(tape));
    NameRun(fuel - 4, 2, true, Rest(tape));
    OneArgRun(fuel - 2, NAME_D, Takes, Here(2, true), Rest(tape));
    assert EvalStride(fuel - 1, STRIDING.head, Here(2, true), Rest(tape)).out == Bad;
  }

  lemma EmptyRound(fuel: nat, n: nat, gone: bool, tape: seq<nat>)
    requires fuel >= 2
    ensures EvalBlock(fuel, [], Here(n, gone), tape) == Run(Next, Here(n, gone), tape, New)
  {
    hide Depth, Here;
    HereFacts(n, gone);
  }

  /** A clause is asserted when the result is known. */
  const PROMISE := Part(NAME_D, [], false)
  const PROMISE_READS := Function(OWNED, [], [Return(Some(GIVE_D))], [PROMISE])

  lemma ClauseHazardIsReal()
    ensures Check(PROMISE_READS).diags == [] && Check(PROMISE_READS).hazards == [ClauseMoves]
    ensures RunOf(PROMISE_READS, 12, [1]).out == Bad
  {
    hide Depth, Empty, Eval, Walk, State, Here, WalkBlock, EvalBlock;
    var f := PROMISE_READS;
    Entrance(f);
    ReturnWalk();
    PromiseWalk();
    StateClean(0, map["d" := TakeArg], []);
    ReturnRun(12, [1]);
    PromiseRun(12, []);
    assert [1][1..] == [];
    NoResult(f);
  }

  lemma NoResult(f: Function)
    requires f == PROMISE_READS && State(0, map[], []).Ok()
    ensures !YieldsBlock(State(0, map[], []), f.body).part && WalkAll(State(0, map[], []), []) == State(0, map[], [])
  {
    hide Depth, Kept, State;
    PushOk(State(0, map[], []));
    PlainEnd(State(0, map[], []).Push(), f.body);
  }

  lemma ReturnWalk()
    ensures State(0, map[], []).Ok() && WalkBlock(State(0, map[], []), [Return(Some(GIVE_D))]) == State(0, map["d" := TakeArg], [])
  {
    hide Depth, Empty, Kept, State, Walk, Yields;
    var c := State(1, map[], []);
    StateDepth(0, map[], []);
    StateDepth(1, map["d" := TakeArg], []);
    StatePush(0, map[], []);
    StatePush(0, map["d" := TakeArg], []);
    StateSize(1);
    GiveWalk(1);
    PlainYields(State(1, map["d" := TakeArg], []), GIVE_D);
    assert [Return(Some(GIVE_D))][1..] == [];
    var c1 := WalkStmt(c, Return(Some(GIVE_D)));
    assert c1 == State(1, map["d" := TakeArg], []);
    assert WalkStmts(c1, []) == c1;
  }

  lemma PromiseWalk()
    ensures var c := State(0, map["d" := TakeArg], []); c.Ok() && WalkAll(c, [PROMISE]).diags != []
  {
    hide Depth, Empty, Kept, State, Walk;
    var c := State(0, map["d" := TakeArg], []);
    StateDepth(0, map["d" := TakeArg], []);
    StateClean(0, map["d" := TakeArg], []);
    OneOf(c, PROMISE);
    PlaceWalk(c, PROMISE);
    NameUse(c);
    assert WalkAll(Use(c, "d"), []) == Use(c, "d");
  }

  lemma ReturnRun(fuel: nat, tape: seq<nat>)
    requires fuel >= 7
    ensures EvalBlock(fuel, [Return(Some(GIVE_D))], Here(0, false), tape) == Run(Returns, Here(0, true), tape, New)
  {
    hide Depth, Here, Eval;
    HereFacts(0, false);
    HereFacts(0, true);
    GiveRun(fuel - 3, 1, tape);
    assert EvalStmts(fuel - 1, [Return(Some(GIVE_D))], Here(1, false), tape) == Run(Returns, Here(1, true), tape, New);
  }

  lemma PromiseRun(fuel: nat, tape: seq<nat>)
    requires fuel >= 5
    ensures EvalAll(fuel, [PROMISE], Here(0, true), tape).out == Bad
  {
    hide Depth, Here;
    NameRun(fuel - 2, 0, true, tape);
  }
}
