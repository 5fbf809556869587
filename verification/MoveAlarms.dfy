/** Reports that no run bears out: the two shapes that keep a function from being
    straightforward, each with a function that is reported and never goes bad. */
module MoveAlarms {
  import opened Wrappers
  import opened Moves
  import opened MoveRuns
  import opened MoveSoundness
  import opened MoveHazards
  import opened MoveMarks
  import opened MoveReports

  lemma OutlivesWhole(value: Value, depth: nat)
    requires !value.Piece?
    ensures !Outlive(value, depth).Piece?
  {
  }

  /** Without clauses a run is one of the body, and its result is no part. */
  lemma BodyNeverBad(f: Function, fuel: nat, tape: seq<nat>)
    requires f.params == OWNED && f.demands == [] == f.promises
    requires fuel > 0 ==> var r := EvalStmts(fuel - 1, f.body, Here(1, false), tape); r.out != Bad && !r.value.Piece?
    ensures RunOf(f, fuel, tape).out != Bad
  {
    hide Depth, EvalStmts, Here, BindPairs, Outlive;
    Entrance(f);
    HereFacts(0, false);
    if fuel > 0 {
      var r := EvalStmts(fuel - 1, f.body, Here(1, false), tape);
      OutlivesWhole(r.value, 1);
      assert EvalBlock(fuel, f.body, Here(0, false), tape) == Leave(r, 1);
    }
  }

  /** A run of `eat(take d)` that is not cut short leaves `d` gone, and is never bad. */
  lemma GiveNeverBad(fuel: nat, n: nat, tape: seq<nat>)
    ensures var r := Eval(fuel, GIVE_D, Here(n, false), tape);
      (r.out == Stops || r == Run(Next, Here(n, true), tape, New)) && !r.value.Piece?
  {
    hide Depth, Here;
    HereFacts(n, false);
    if fuel >= 3 {
      GiveRun(fuel, n, tape);
    } else if fuel == 2 {
      assert EvalArgs(1, [Arg(NAME_D, Takes)], Here(n, false), tape).out == Stops by {
        assert Eval(0, NAME_D, Here(n, false), tape).out == Stops;
      }
    }
  }

  // ----- a source -----

  /** `for x in eat(take d) { }`: the value is given away once, before the first round. */
  const EATEN_ONCE := Loop(Iter([], [GIVE_D], None), [], [])
  const EAT_THEN_LOOP := Function(OWNED, [], [Do(EATEN_ONCE)], [])

  lemma SourceAlarm(fuel: nat, tape: seq<nat>)
    ensures Check(EAT_THEN_LOOP).diags == [GivenInLoop("d")] && !Straightforward(EAT_THEN_LOOP)
    ensures RunOf(EAT_THEN_LOOP, fuel, tape).out != Bad
  {
    hide Depth, Eval, Walk, Check, RunOf, Here;
    SourceWalk();
    SourceNotStraight();
    OneStep(EAT_THEN_LOOP, EATEN_ONCE, 3, []);
    if fuel > 0 {
      SourceRun(fuel - 1, tape);
    }
    BodyNeverBad(EAT_THEN_LOOP, fuel, tape);
  }

  lemma NotGentle()
    ensures !Gentle(GIVE_D, None) && Straight(GIVE_D)
  {
    var arg := Arg(NAME_D, Takes);
    assert !GentleArg(arg, None) && StraightArg(arg) by { assert Straight(NAME_D); }
    assert [arg][1..] == [] && [arg][0] == arg;
    assert !GentleArgs([arg], None) && StraightArgs([arg]);
  }

  lemma SourceNotStraight()
    ensures !Straightforward(EAT_THEN_LOOP)
  {
    NotGentle();
    hide Gentle;
    assert !GentleAll([GIVE_D], None);
    assert !StraightHead(EATEN_ONCE.head);
    assert !Straight(EATEN_ONCE) && !Endless(EATEN_ONCE);
    assert !Final(Do(EATEN_ONCE));
  }

  lemma SourceRun(fuel: nat, tape: seq<nat>)
    ensures var r := EvalStmts(fuel, [Do(EATEN_ONCE)], Here(1, false), tape); r.out != Bad && !r.value.Piece?
  {
    hide Depth, Here, Eval;
    HereFacts(1, false);
    if fuel >= 2 {
      var r := Eval(fuel - 2, EATEN_ONCE, Here(1, false), tape);
      LoopRun(fuel - 2, tape);
      assert EvalStmt(fuel - 1, Do(EATEN_ONCE), Here(1, false), tape) == r;
    }
  }

  lemma LoopRun(fuel: nat, tape: seq<nat>)
    ensures var r := Eval(fuel, EATEN_ONCE, Here(1, false), tape); r.out != Bad && !r.value.Piece?
  {
    hide Depth, Here, EnterLoop, EvalBlock;
    HereFacts(1, false);
    if fuel > 0 {
      EnterRun(fuel - 1, tape);
      var r := EnterLoop(fuel - 1, EATEN_ONCE, Here(1, false), tape);
      NothingDone(fuel - 1, r.env, Rest(r.tape));
    }
  }

  lemma NothingDone(fuel: nat, env: Env, tape: seq<nat>)
    ensures var r := EvalBlock(fuel, [], env, tape); (r.out == Next || r.out == Stops) && r.value == New
    ensures |env| > 0 ==> var r := EvalBlock(fuel, [], env, tape); r.out == Next ==> r.tape == tape
  {
  }

  lemma EnterRun(fuel: nat, tape: seq<nat>)
    ensures var r := EnterLoop(fuel, EATEN_ONCE, Here(1, false), tape); r.out != Bad && !r.value.Piece?
  {
    hide Depth, Here, EvalAll, Iterate, Outlive;
    HereFacts(1, false);
    if fuel > 0 {
      SourcesOnce(fuel - 1, tape);
      var r := EvalAll(fuel - 1, [GIVE_D], Here(2, false), tape);
      OutlivesWhole(r.value, |Here(1, false)|);
      IdleRounds(fuel - 1, r.env[..|Here(1, false)|], r.tape);
    }
  }

  lemma SourcesOnce(fuel: nat, tape: seq<nat>)
    ensures var r := EvalAll(fuel, [GIVE_D], Here(2, false), tape); (r.out == Stops || r.out == Next) && !r.value.Piece?
  {
    hide Depth, Here, Eval;
    if fuel > 0 {
      GiveNeverBad(fuel - 1, 2, tape);
      assert [GIVE_D][1..] == [];
    }
  }

  /** Rounds in which nothing happens. */
  lemma {:induction false} IdleRounds(fuel: nat, env: Env, tape: seq<nat>)
    ensures var r := Iterate(fuel, EATEN_ONCE, env, tape); r.out != Bad && !r.value.Piece?
    decreases fuel
  {
    hide Depth, EvalBlock, Outlive;
    if fuel > 0 {
      var h := EvalHead(fuel - 1, EATEN_ONCE.head, env + [map[]], tape);
      var b := EvalBlock(fuel - 1, [], h.env, Rest(h.tape));
      NothingDone(fuel - 1, h.env, Rest(h.tape));
      var s := EvalStride(fuel - 1, EATEN_ONCE.head, b.env, b.tape);
      OutlivesWhole(h.value, |env|);
      OutlivesWhole(b.value, |env|);
      OutlivesWhole(s.value, |env|);
      IdleRounds(fuel - 1, s.env[..|env|], s.tape);
    }
  }

  lemma SourceWalk()
    ensures State(1, map[], []).Ok() && Walk(State(1, map[], []), EATEN_ONCE).diags == [GivenInLoop("d")]
  {
    hide Depth, Empty, Walk, WalkBlock, WalkLoop;
    var c := State(1, map[], []);
    StateDepth(1, map[], []);
    StatePush(1, map[], [2]);
    var c1 := State(2, map[], [2]);
    assert Floored(c) == c1;
    SourceReported();
    FlooredOk(c);
    var c2 := WalkHead(c1, EATEN_ONCE.head);
    LoopMarks(c, EATEN_ONCE, None);
    EmptySilent(c2);
    EmptySilent(WalkLoop(c, EATEN_ONCE));
    LoopWalk(c, EATEN_ONCE);
  }

  /** Within the floor of the loop `d` is one of the outer bindings. */
  lemma SourceReported()
    ensures var c := State(2, map[], [2]);
      c.Ok() && |c.scopes| > 0 && WalkHead(c, EATEN_ONCE.head).diags == [GivenInLoop("d")]
  {
    hide Depth, Empty;
    var c := State(2, map[], [2]);
    StateDepth(2, map[], [2]);
    OneArg(c, NAME_D, Takes);
    NameDWalk(c);
    assert c.Outside("d");
    assert Consume(c, NAME_D) == c.Report(GivenInLoop("d"));
    assert [GIVE_D][1..] == [];
    var c1 := Walk(c, GIVE_D);
    assert c1 == c.Report(GivenInLoop("d"));
    hide Walk;
    assert WalkAll(c1, []) == c1;
    assert WalkAll(c, [GIVE_D]) == c1;
    assert BindEach(c1, []) == c1;
  }

  // ----- a branch that leaves -----

  /** `if c { eat(take d); return }; d`: who uses `d` has not given it away. */
  const LEAVING := If(Leaf, [Do(GIVE_D), Return(None)], None)
  const GIVE_AND_LEAVE := Function(OWNED, [], [Do(LEAVING), Do(NAME_D)], [])

  lemma LeavingAlarm(fuel: nat, tape: seq<nat>)
    ensures Check(GIVE_AND_LEAVE).diags == [UsedAfterMove("d", TakeArg)] && !Straightforward(GIVE_AND_LEAVE)
    ensures RunOf(GIVE_AND_LEAVE, fuel, tape).out != Bad
  {
    hide Depth, Eval, Walk, Check, RunOf, Here;
    LeavingWalk();
    LeavingNotStraight();
    if fuel > 0 {
      LeavingRun(fuel - 1, tape);
    }
    BodyNeverBad(GIVE_AND_LEAVE, fuel, tape);
  }

  lemma LeavingNotStraight()
    ensures !Straightforward(GIVE_AND_LEAVE)
  {
    NotGentle();
    hide Gentle;
    var thn := [Do(GIVE_D), Return(None)];
    assert thn[1..] == [Return(None)] && [Return(None)][1..] == [];
    assert !GentleStmt(thn[0], None) && !GentleStmts(thn, None) && !Leaving(thn);
    assert !StraightStmts([Return(None)]) && !StraightStmts(thn);
    assert !Straight(LEAVING);
    assert !StraightStmt(Do(LEAVING));
    assert !UpToLast(GIVE_AND_LEAVE.body);
  }

  lemma LeavingRun(fuel: nat, tape: seq<nat>)
    ensures var r := EvalStmts(fuel, GIVE_AND_LEAVE.body, Here(1, false), tape); r.out != Bad && !r.value.Piece?
  {
    hide Depth, Here, Eval;
    HereFacts(1, false);
    if fuel >= 2 {
      BranchRun(fuel - 2, tape);
      var r := Eval(fuel - 2, LEAVING, Here(1, false), tape);
      var stmts := GIVE_AND_LEAVE.body;
      assert stmts[1..] == [Do(NAME_D)];
      assert EvalStmt(fuel - 1, stmts[0], Here(1, false), tape) == r;
      if r.out == Next {
        UseRun(fuel - 1, r.tape);
      }
    }
  }

  lemma NoFuel(e: Expr, env: Env, tape: seq<nat>)
    ensures Eval(0, e, env, tape) == Run(Stops, env, tape, New)
  {
  }

  lemma UseRun(fuel: nat, tape: seq<nat>)
    ensures var r := EvalStmts(fuel, [Do(NAME_D)], Here(1, false), tape); r.out != Bad && !r.value.Piece?
  {
    hide Depth, Here, Eval;
    HereFacts(1, false);
    if fuel >= 2 {
      if fuel == 2 {
        NoFuel(NAME_D, Here(1, false), tape);
      } else {
        NameRun(fuel - 2, 1, false, tape);
      }
      assert [Do(NAME_D)][0] == Do(NAME_D);
      assert EvalStmt(fuel - 1, Do(NAME_D), Here(1, false), tape) == Eval(fuel - 2, NAME_D, Here(1, false), tape);
      assert EvalStmts(fuel, [Do(NAME_D)], Here(1, false), tape) == EvalStmt(fuel - 1, Do(NAME_D), Here(1, false), tape);
    }
  }

  lemma BranchRun(fuel: nat, tape: seq<nat>)
    ensures var r := Eval(fuel, LEAVING, Here(1, false), tape);
      r.out != Bad && !r.value.Piece? && (r.out == Next ==> r.env == Here(1, false))
  {
    hide Depth, Here, EvalBlock;
    HereFacts(1, false);
    if fuel >= 2 {
      var r := Eval(fuel - 1, Leaf, Here(1, false), tape);
      assert r == Run(Next, Here(1, false), tape, New);
      ThenRun(fuel - 1, Rest(tape));
    }
  }

  lemma ThenRun(fuel: nat, tape: seq<nat>)
    ensures var r := EvalBlock(fuel, [Do(GIVE_D), Return(None)], Here(1, false), tape);
      (r.out == Returns || r.out == Stops) && !r.value.Piece?
  {
    hide Depth, Here, Eval, Outlive;
    HereFacts(1, false);
    OutlivesWhole(New, 2);
    if fuel >= 3 {
      GiveNeverBad(fuel - 3, 2, tape);
      var r := Eval(fuel - 3, GIVE_D, Here(2, false), tape);
      var stmts := [Do(GIVE_D), Return(None)];
      assert stmts[1..] == [Return(None)];
      assert EvalStmt(fuel - 2, stmts[0], Here(2, false), tape) == r;
      ReturnRun(fuel - 2, r.env, r.tape);
      var q := EvalStmts(fuel - 1, stmts, Here(2, false), tape);
      OutlivesWhole(q.value, 2);
    }
  }

  lemma ReturnRun(fuel: nat, env: Env, tape: seq<nat>)
    requires |env| > 0
    ensures var r := EvalStmts(fuel, [Return(None)], env, tape); (r.out == Returns || r.out == Stops) && !r.value.Piece?
  {
  }

  lemma LeavingWalk()
    ensures Check(GIVE_AND_LEAVE).diags == [UsedAfterMove("d", TakeArg)]
  {
    hide Depth, Empty, Walk, Check, State, WalkStmts;
    Entrance(GIVE_AND_LEAVE);
    BodyReports(GIVE_AND_LEAVE);
    StateDepth(0, map[], []);
    StatePush(0, map[], []);
    BodyWalk();
  }

  lemma BodyWalk()
    ensures State(0, map[], []).Ok() && WalkBlock(State(0, map[], []), GIVE_AND_LEAVE.body).diags == [UsedAfterMove("d", TakeArg)]
  {
    hide Depth, Empty, Walk, State;
    var c0, c, c' := State(0, map[], []), State(1, map[], []), State(1, map["d" := TakeArg], []);
    StateDepth(0, map[], []);
    StateDepth(1, map[], []);
    StateDepth(1, map["d" := TakeArg], []);
    StatePush(0, map[], []);
    BranchWalk();
    StateSize(1);
    UsedWalk();
    var stmts := GIVE_AND_LEAVE.body;
    assert stmts[1..] == [Do(NAME_D)];
    DoWalk(c, LEAVING);
    assert WalkStmts(c, stmts) == WalkStmts(c', [Do(NAME_D)]);
    OneStatement(c', NAME_D);
  }

  lemma UsedWalk()
    ensures var c := State(1, map["d" := TakeArg], []);
      c.Ok() && |c.scopes| > 0 && Walk(c, NAME_D).diags == [UsedAfterMove("d", TakeArg)]
  {
    hide Depth, Empty;
    StateDepth(1, map["d" := TakeArg], []);
    StateClean(1, map["d" := TakeArg], []);
  }

  lemma BranchWalk()
    ensures var c := State(1, map[], []); c.Ok() && Walk(c, LEAVING) == State(1, map["d" := TakeArg], [])
  {
    hide Depth, Empty, Walk, State, WalkBlock;
    var c := State(1, map[], []);
    StateDepth(1, map[], []);
    assert Walk(c, Leaf) == c by { LeafWalk(c); }
    ThenWalk();
    BranchesAre(c, LEAVING);
  }

  lemma LeafWalk(c: Ctx)
    requires c.Ok()
    ensures Walk(c, Leaf) == c
  {
  }

  lemma ThenWalk()
    ensures var c := State(1, map[], []);
      c.Ok() && WalkBlock(c, [Do(GIVE_D), Return(None)]) == State(1, map["d" := TakeArg], [])
  {
    hide Depth, Empty, Walk, State;
    var c, c1, c2 := State(1, map[], []), State(2, map[], []), State(2, map["d" := TakeArg], []);
    StateDepth(1, map[], []);
    StateDepth(2, map[], []);
    StateDepth(2, map["d" := TakeArg], []);
    StatePush(1, map[], []);
    StatePush(1, map["d" := TakeArg], []);
    GiveWalk(2);
    StateSize(2);
    var stmts := [Do(GIVE_D), Return(None)];
    assert stmts[1..] == [Return(None)] && [Return(None)][1..] == [];
    DoWalk(c1, GIVE_D);
    assert WalkStmt(c2, Return(None)) == c2;
    assert WalkStmts(c2, []) == c2;
    assert WalkStmts(c2, [Return(None)]) == c2;
    assert WalkStmts(c1, stmts) == c2;
  }
}
