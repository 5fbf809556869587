/** Which runs there are: the steps that a tape can make a form take, put together from the
    steps of its parts. */
module MovePaths {
  import opened Wrappers
  import opened Moves
  import opened MoveRuns
  import opened MoveYields

  /** What is executed: a form, or one of the stages its execution goes through. */
  datatype Task =
    | Ex(e: Expr)
    | All(es: seq<Expr>)
    | Args(args: seq<Arg>)
    | Arms(arms: seq<Arm>, borrow: bool, source: Source)
    | Guard(guard: Option<Expr>)
    | Blk(stmts: seq<Stmt>)
    | Sts(stmts: seq<Stmt>)
    | St(s: Stmt)
    | Enter(loop: Expr)
    | Rounds(loop: Expr)
    | Behind(head: Head)
    | Front(head: Head)

  predicate Fit(task: Task, env: Env) {
    match task
    case Sts(_) => |env| > 0
    case St(_) => |env| > 0
    case Front(_) => |env| > 0
    case Enter(loop) => loop.Loop?
    case Rounds(loop) => loop.Loop?
    case _ => true
  }

  function Exec(fuel: nat, task: Task, env: Env, tape: seq<nat>): Run
    requires Fit(task, env)
  {
    match task
    case Ex(e) => Eval(fuel, e, env, tape)
    case All(es) => EvalAll(fuel, es, env, tape)
    case Args(args) => EvalArgs(fuel, args, env, tape)
    case Arms(arms, borrow, source) => EvalArms(fuel, arms, borrow, source, env, tape)
    case Guard(guard) => EvalGuard(fuel, guard, env, tape)
    case Blk(stmts) => EvalBlock(fuel, stmts, env, tape)
    case Sts(stmts) => EvalStmts(fuel, stmts, env, tape)
    case St(s) => EvalStmt(fuel, s, env, tape)
    case Enter(loop) => EnterLoop(fuel, loop, env, tape)
    case Rounds(loop) => Iterate(fuel, loop, env, tape)
    case Behind(head) => EvalStride(fuel, head, env, tape)
    case Front(head) => EvalHead(fuel, head, env, tape)
  }

  /** Some tape leads to `r`. */
  ghost predicate Leads(fuel: nat, task: Task, env: Env, r: Run)
    requires Fit(task, env)
  {
    exists tape :: Exec(fuel, task, env, tape) == r
  }

  /** With enough fuel, and whatever is to be left on the tape. */
  ghost predicate Can(n: nat, task: Task, env: Env, r: Run)
    requires Fit(task, env)
  {
    forall fuel: nat, left: seq<nat> :: fuel >= n ==> Leads(fuel, task, env, r.(tape := left))
  }

  ghost predicate Possible(task: Task, env: Env, r: Run) {
    Fit(task, env) && exists n: nat :: Can(n, task, env, r)
  }

  /** What is asked of a run: to go bad; or else, if it need not, to come to an end, with the
      value of `x` of scope `d` gone. */
  datatype Goal = Harm | Passed | Moved(d: nat, x: Ident)

  predicate GoneAt(env: Env, d: nat, x: Ident) { d < |env| && x in env[d] && env[d][x].gone }

  predicate Met(out: Outcome, env: Env, goal: Goal) {
    || out == Bad
    || (out == Next && goal != Harm && (goal.Moved? ==> GoneAt(env, goal.d, goal.x)))
  }

  ghost predicate Lands(task: Task, env: Env, goal: Goal) {
    exists r :: Possible(task, env, r) && Met(r.out, r.env, goal)
  }

  lemma PossibleLength(task: Task, env: Env, r: Run)
    requires Possible(task, env, r)
    ensures |r.env| == |env|
  {
    hide Eval, EvalAll, EvalArgs, EvalArms, EvalGuard, EvalBlock, EvalStmts, EvalStmt, EnterLoop, Iterate, EvalStride, EvalHead;
    var n: nat :| Can(n, task, env, r);
    assert Leads(n, task, env, r.(tape := []));
  }

  /** How many of the scopes a task leaves as they are, but for what is gone. */
  function Outer(task: Task, env: Env): (n: nat)
    ensures n <= |env|
  {
    if (task.Sts? || task.St? || task.Front?) && |env| > 0 then |env| - 1 else |env|
  }

  lemma PossibleSteady(task: Task, env: Env, r: Run)
    requires Possible(task, env, r)
    ensures |r.env| == |env| && Steady(env, r.env, Outer(task, env))
  {
    hide Eval, EvalAll, EvalArgs, EvalArms, EvalGuard, EvalBlock, EvalStmts, EvalStmt, EnterLoop, Iterate, EvalStride, EvalHead,
      Steady;
    PossibleLength(task, env, r);
    var n: nat :| Can(n, task, env, r);
    assert Leads(n, task, env, r.(tape := []));
    var tape :| Exec(n, task, env, tape) == r.(tape := []);
    match task
    case Ex(e) => EvalSteady(n, e, env, tape);
    case All(es) => AllSteady(n, es, env, tape);
    case Args(args) => ArgsSteady(n, args, env, tape);
    case Arms(arms, borrow, source) => ArmsSteady(n, arms, borrow, source, env, tape);
    case Guard(guard) => GuardSteady(n, guard, env, tape);
    case Blk(stmts) => BlockSteady(n, stmts, env, tape);
    case Sts(stmts) => StmtsSteady(n, stmts, env, tape);
    case St(s) => StmtSteady(n, s, env, tape);
    case Enter(loop) => EnterSteady(n, loop, env, tape);
    case Rounds(loop) => IterateSteady(n, loop, env, tape);
    case Behind(head) => StrideSteady(n, head, env, tape);
    case Front(head) => HeadSteady(n, head, env, tape);
  }

  // ----- simple forms -----

  lemma LeafRuns(env: Env)
    ensures Possible(Ex(Leaf), env, Run(Next, env, [], New))
  {
    var r := Run(Next, env, [], New);
    forall fuel: nat, left: seq<nat> | fuel >= 1
      ensures Leads(fuel, Ex(Leaf), env, r.(tape := left))
    {
      assert Exec(fuel, Ex(Leaf), env, left) == r.(tape := left);
    }
    assert Can(1, Ex(Leaf), env, r);
  }

  function NameRun(env: Env, x: Ident, owns: bool): Run {
    Touch(env, x, [], if owns then HeldHere(env, x) else New)
  }

  lemma NameRuns(env: Env, e: Expr)
    requires e.Name? || e.Receiver?
    ensures Possible(Ex(e), env, NameRun(env, Root(e).value, e.owns))
  {
    hide Gone, HeldHere;
    var r := NameRun(env, Root(e).value, e.owns);
    forall fuel: nat, left: seq<nat> | fuel >= 1
      ensures Leads(fuel, Ex(e), env, r.(tape := left))
    {
      assert Exec(fuel, Ex(e), env, left) == r.(tape := left);
    }
    assert Can(1, Ex(e), env, r);
  }

  lemma NothingRuns(env: Env)
    ensures Possible(All([]), env, Run(Next, env, [], New)) && Possible(Args([]), env, Run(Next, env, [], New))
    ensures Possible(Guard(None), env, Run(Next, env, [], New))
  {
    var r := Run(Next, env, [], New);
    forall fuel: nat, left: seq<nat> | fuel >= 1
      ensures Leads(fuel, All([]), env, r.(tape := left)) && Leads(fuel, Args([]), env, r.(tape := left))
      ensures Leads(fuel, Guard(None), env, r.(tape := left))
    {
      assert Exec(fuel, All([]), env, left) == r.(tape := left);
      assert Exec(fuel, Args([]), env, left) == r.(tape := left);
      assert Exec(fuel, Guard(None), env, left) == r.(tape := left);
    }
    assert Can(1, All([]), env, r) && Can(1, Args([]), env, r) && Can(1, Guard(None), env, r);
  }

  // ----- forms and their first parts -----

  /** What is executed first, where the form itself is. */
  function First(task: Task): Option<Task> {
    match task
    case Ex(e) => FirstOf(e)
    case All(es) => if es == [] then None else Some(Ex(es[0]))
    case Args(args) => if args == [] then None else Some(Ex(args[0].e))
    case Guard(guard) => if guard.Some? then Some(Ex(guard.value)) else None
    case Sts(stmts) => if stmts == [] then None else Some(St(stmts[0]))
    case St(s) => FirstIn(s)
    case Enter(loop) => if loop.Loop? && !loop.head.Iter? then Some(Rounds(loop)) else None
    case Behind(head) => if head.Iter? && head.stride.Some? then Some(Ex(head.stride.value)) else None
    case Front(head) => if head.While? then Some(Ex(head.cond)) else None
    case _ => None
  }

  function FirstOf(e: Expr): Option<Task> {
    match e
    case Part(base, _, _) => Some(Ex(base))
    case Many(operands) => Some(All(operands))
    case Perhaps(first, _) => Some(Ex(first))
    case Try(base) => Some(Ex(base))
    case Call(args) => Some(Args(args))
    case Assign(target, _) => Some(Ex(target))
    case If(cond, _, _) => Some(Ex(cond))
    case Match(scrut, _) => Some(Ex(scrut))
    case Block(stmts) => Some(Blk(stmts))
    case Loop(_, _, _) => Some(Enter(e))
    case _ => None
  }

  function FirstIn(s: Stmt): Option<Task> {
    match s
    case Let(_, Some(init)) => Some(Ex(init))
    case Return(Some(value)) => Some(Ex(value))
    case Do(e) => Some(Ex(e))
    case _ => None
  }

  lemma FirstFits(task: Task, env: Env)
    requires First(task).Some? && Fit(task, env)
    ensures Fit(First(task).value, env)
  {
  }

  /** The run of a form whose first part went bad. */
  function Spoiled(task: Task, r: Run): Run {
    if task.Ex? && (task.e.Many? || task.e.Call?) then r.(value := New) else r
  }

  lemma SpoiledExec(fuel: nat, task: Task, env: Env, tape: seq<nat>)
    requires First(task).Some? && Fit(task, env) && fuel > 0 && Fit(First(task).value, env)
    requires Exec(fuel - 1, First(task).value, env, tape).out == Bad
    ensures Exec(fuel, task, env, tape) == Spoiled(task, Exec(fuel - 1, First(task).value, env, tape))
  {
    if task.Ex? {
      SpoiledEval(fuel, task.e, env, tape);
    }
  }

  lemma SpoiledEval(fuel: nat, e: Expr, env: Env, tape: seq<nat>)
    requires FirstOf(e).Some? && fuel > 0 && Fit(FirstOf(e).value, env)
    requires Exec(fuel - 1, FirstOf(e).value, env, tape).out == Bad
    ensures Eval(fuel, e, env, tape) == Spoiled(Ex(e), Exec(fuel - 1, FirstOf(e).value, env, tape))
  {
    hide LentGone, Gone, GiveAway, Root;
  }

  /** Whatever is asked, going bad in the first part is enough. */
  lemma BadFirst(task: Task, env: Env, goal: Goal)
    requires First(task).Some? && Fit(task, env) && Lands(First(task).value, env, Harm)
    ensures Lands(task, env, goal)
  {
    hide Exec, First, Fit;
    FirstFits(task, env);
    var r0 :| Possible(First(task).value, env, r0) && Met(r0.out, r0.env, Harm);
    var n: nat :| Can(n, First(task).value, env, r0);
    var r := Spoiled(task, r0);
    forall fuel: nat, left: seq<nat> | fuel >= n + 1
      ensures Leads(fuel, task, env, r.(tape := left))
    {
      assert Leads(fuel - 1, First(task).value, env, r0.(tape := left));
      var tape :| Exec(fuel - 1, First(task).value, env, tape) == r0.(tape := left);
      SpoiledExec(fuel, task, env, tape);
      assert Exec(fuel, task, env, tape) == r.(tape := left);
    }
    assert Can(n + 1, task, env, r);
    assert Possible(task, env, r);
  }

  // ----- forms that may be over with their first part -----

  predicate Stopping(task: Task) {
    match task
    case Ex(e) => e.Many? || e.Perhaps? || e.Try? || e.Call? || (e.If? && e.els.None?) || e.Block? || e.Loop?
    case Sts(stmts) => |stmts| == 1
    case St(s) => s.Do?
    case Guard(_) => true
    case Enter(_) => true
    case Behind(_) => true
    case Front(_) => true
    case _ => false
  }

  /** Does the tape say that the form stops there? */
  predicate Asks(task: Task) { task.Ex? && (task.e.Perhaps? || task.e.Try? || task.e.If? || task.e.Loop?) }

  function Stopped(task: Task, r: Run): Run {
    if !task.Ex? then r
    else
      match task.e
      case Many(_) => r.(value := New)
      case Call(args) => r.(out := if LentGone(r.env, args) then Bad else Next, value := New)
      case If(_, _, _) => r.(value := New)
      case Loop(_, _, _) => r.(value := New)
      case _ => r
  }

  lemma StoppedExec(fuel: nat, task: Task, env: Env, tape: seq<nat>, r: Run)
    requires First(task).Some? && Fit(task, env) && Stopping(task) && fuel > 0 && Fit(First(task).value, env)
    requires r.out == Next
    requires Exec(fuel - 1, First(task).value, env, tape) == r.(tape := if Asks(task) then [0] + r.tape else r.tape)
    ensures Exec(fuel, task, env, tape) == Stopped(task, r)
  {
    if task.Ex? {
      StoppedEval(fuel, task.e, env, tape, r);
    }
  }

  lemma StoppedEval(fuel: nat, e: Expr, env: Env, tape: seq<nat>, r: Run)
    requires FirstOf(e).Some? && Stopping(Ex(e)) && fuel > 0 && Fit(FirstOf(e).value, env)
    requires r.out == Next
    requires Exec(fuel - 1, FirstOf(e).value, env, tape) == r.(tape := if Asks(Ex(e)) then [0] + r.tape else r.tape)
    ensures Eval(fuel, e, env, tape) == Stopped(Ex(e), r)
  {
    hide LentGone, Gone, GiveAway, Root;
    assert Rest([0] + r.tape) == r.tape;
  }

  /** Such a form gets where its first part gets. */
  lemma StopsAfter(task: Task, env: Env, goal: Goal)
    requires First(task).Some? && Fit(task, env) && Stopping(task) && Lands(First(task).value, env, goal)
    ensures Lands(task, env, goal)
  {
    hide Exec, First, Fit, LentGone;
    FirstFits(task, env);
    var r0 :| Possible(First(task).value, env, r0) && Met(r0.out, r0.env, goal);
    if r0.out == Bad {
      BadFirst(task, env, goal);
    } else {
      var n: nat :| Can(n, First(task).value, env, r0);
      var r := Stopped(task, r0);
      forall fuel: nat, left: seq<nat> | fuel >= n + 1
        ensures Leads(fuel, task, env, r.(tape := left))
      {
        var mid := if Asks(task) then [0] + left else left;
        assert Leads(fuel - 1, First(task).value, env, r0.(tape := mid));
        var tape :| Exec(fuel - 1, First(task).value, env, tape) == r0.(tape := mid);
        StoppedExec(fuel, task, env, tape, r0.(tape := left));
        assert Exec(fuel, task, env, tape) == r.(tape := left);
      }
      assert Can(n + 1, task, env, r);
      assert Possible(task, env, r);
    }
  }

  // ----- forms that go on behind their first part -----

  /** What may come second, where the first part has left off. */
  predicate Second(task: Task, next: Task) {
    match task
    case Ex(e) =>
      (match e
       case Part(_, index, _) => next == All(index)
       case Perhaps(_, second) => next == Ex(second)
       case Assign(_, value) => next == Ex(value)
       case If(_, thn, els) => next == Blk(thn) || (els.Some? && next == Ex(els.value))
       case Loop(_, _, after) => next == Blk(after)
       case _ => false)
    case All(es) => es != [] && next == All(es[1..])
    case Sts(stmts) => |stmts| > 1 && next == Sts(stmts[1..])
    case _ => false
  }

  /** Which way the tape sends the run. */
  function Turn(task: Task, next: Task): seq<nat> {
    if task.Ex? && (task.e.Perhaps? || task.e.Loop? || (task.e.If? && next.Blk?)) then [1]
    else if task.Ex? && task.e.If? then [0]
    else []
  }

  function Joined(task: Task, r: Run, base: Value): Run {
    if !task.Ex? || r.out != Next then (if task.Ex? && (task.e.Loop? || (task.e.If? && task.e.els.None?)) then r.(value := New) else r)
    else
      match task.e
      case Part(_, _, owns) =>
        var value := if owns then PieceOf(r.env, Root(task.e), base) else New;
        if Root(task.e).Some? then Touch(r.env, Root(task.e).value, r.tape, value) else r.(value := value)
      case Assign(target, _) =>
        var g := GiveAway(r);
        if g.out != Next || Root(target).None? then g else Touch(g.env, Root(target).value, g.tape, New)
      case If(_, _, els) => if els.None? then r.(value := New) else r
      case Loop(_, _, _) => r.(value := New)
      case _ => r
  }

  lemma JoinedExec(fuel: nat, task: Task, next: Task, env: Env, tape: seq<nat>, r0: Run, r: Run)
    requires First(task).Some? && Fit(task, env) && Second(task, next) && fuel > 0 && Fit(First(task).value, env)
    requires r0.out == Next && |r0.env| == |env| && Exec(fuel - 1, First(task).value, env, tape) == r0.(tape := Turn(task, next) + r0.tape)
    requires Fit(next, r0.env) && Exec(fuel - 1, next, r0.env, r0.tape) == r
    ensures Exec(fuel, task, env, tape) == Joined(task, r, r0.value)
  {
    if task.Ex? {
      JoinedEval(fuel, task.e, next, env, tape, r0, r);
    } else {
      assert [] + r0.tape == r0.tape;
    }
  }

  lemma TurnTaken(tape: seq<nat>)
    ensures Choice([1] + tape) == 1 && Rest([1] + tape) == tape && Choice([0] + tape) == 0 && Rest([0] + tape) == tape
  {
  }

  lemma JoinedEval(fuel: nat, e: Expr, next: Task, env: Env, tape: seq<nat>, r0: Run, r: Run)
    requires FirstOf(e).Some? && Second(Ex(e), next) && fuel > 0 && Fit(FirstOf(e).value, env) && Fit(next, r0.env)
    requires r0.out == Next && |r0.env| == |env| && Exec(fuel - 1, FirstOf(e).value, env, tape) == r0.(tape := Turn(Ex(e), next) + r0.tape)
    requires Exec(fuel - 1, next, r0.env, r0.tape) == r
    ensures Eval(fuel, e, env, tape) == Joined(Ex(e), r, r0.value)
  {
    hide Gone, GiveAway, PieceOf, LentGone, Depth, Root, Choice;
    TurnTaken(r0.tape);
    assert [] + r0.tape == r0.tape;
  }

  lemma SettleKeepsGone(env: Env, value: Value, d: nat, x: Ident)
    requires GoneAt(env, d, x)
    ensures GoneAt(Settle(env, value), d, x)
  {
  }

  lemma JoinedMet(task: Task, r: Run, base: Value, goal: Goal)
    requires Met(r.out, r.env, goal)
    ensures Met(Joined(task, r, base).out, Joined(task, r, base).env, goal)
  {
    hide Gone, Settle, PieceOf, GoneAt;
    if goal.Moved? && r.out == Next {
      SettleKeepsGone(r.env, r.value, goal.d, goal.x);
    }
  }

  /** A form gets where its second part gets, once its first part has come to an end. */
  lemma Continues(task: Task, next: Task, env: Env, r0: Run, goal: Goal)
    requires First(task).Some? && Fit(task, env) && Second(task, next)
    requires Possible(First(task).value, env, r0) && r0.out == Next && Lands(next, r0.env, goal)
    ensures Lands(task, env, goal)
  {
    hide Exec, First, Fit, Second, Joined, Turn;
    FirstFits(task, env);
    PossibleLength(First(task).value, env, r0);
    var r1 :| Possible(next, r0.env, r1) && Met(r1.out, r1.env, goal);
    var n: nat :| Can(n, First(task).value, env, r0);
    var m: nat :| Can(m, next, r0.env, r1);
    var r := Joined(task, r1, r0.value);
    JoinedMet(task, r1, r0.value, goal);
    forall fuel: nat, left: seq<nat> | fuel >= n + m + 1
      ensures Leads(fuel, task, env, r.(tape := left))
    {
      LeadsOn(task, next, env, r0, r1, n, m, fuel, left);
    }
    assert Can(n + m + 1, task, env, r);
    assert Possible(task, env, r);
  }

  lemma LeadsOn(task: Task, next: Task, env: Env, r0: Run, r1: Run, n: nat, m: nat, fuel: nat, left: seq<nat>)
    requires First(task).Some? && Fit(task, env) && Fit(First(task).value, env) && Second(task, next)
    requires Can(n, First(task).value, env, r0) && r0.out == Next && |r0.env| == |env|
    requires Fit(next, r0.env) && Can(m, next, r0.env, r1) && fuel >= n + m + 1
    ensures Leads(fuel, task, env, Joined(task, r1, r0.value).(tape := left))
  {
    hide Exec, First, Fit, Second, Joined, Turn;
    assert Leads(fuel - 1, next, r0.env, r1.(tape := left));
    var mid :| Exec(fuel - 1, next, r0.env, mid) == r1.(tape := left);
    assert Leads(fuel - 1, First(task).value, env, r0.(tape := Turn(task, next) + mid));
    var tape :| Exec(fuel - 1, First(task).value, env, tape) == r0.(tape := Turn(task, next) + mid);
    JoinedExec(fuel, task, next, env, tape, r0.(tape := mid), r1.(tape := left));
    JoinedTape(task, r1, r0.value, left);
  }

  lemma JoinedTape(task: Task, r: Run, base: Value, left: seq<nat>)
    ensures Joined(task, r.(tape := left), base) == Joined(task, r, base).(tape := left)
  {
    hide Gone, Settle, PieceOf;
  }

  // ----- arguments -----

  function Given(arg: Arg, r: Run): Run { if arg.mode == Lends then r else GiveAway(r) }

  lemma ArgsExec(fuel: nat, args: seq<Arg>, env: Env, tape: seq<nat>)
    requires args != [] && fuel > 0
    ensures var r := Eval(fuel - 1, args[0].e, env, tape);
      EvalArgs(fuel, args, env, tape) ==
        if r.out != Next then r
        else if Given(args[0], r).out != Next then Given(args[0], r)
        else EvalArgs(fuel - 1, args[1..], Given(args[0], r).env, Given(args[0], r).tape)
  {
    hide Eval, Settle;
  }

  /** Giving goes bad, or the other arguments follow. */
  lemma ArgContinues(args: seq<Arg>, env: Env, r0: Run, goal: Goal)
    requires args != [] && Possible(Ex(args[0].e), env, r0) && r0.out == Next
    requires Given(args[0], r0).out == Bad || (Given(args[0], r0).out == Next && Lands(Args(args[1..]), Given(args[0], r0).env, goal))
    ensures Lands(Args(args), env, goal)
  {
    hide Eval, EvalArgs, GiveAway;
    var g := Given(args[0], r0);
    var n: nat :| Can(n, Ex(args[0].e), env, r0);
    if g.out == Bad {
      forall fuel: nat, left: seq<nat> | fuel >= n + 1
        ensures Leads(fuel, Args(args), env, g.(tape := left))
      {
        assert Leads(fuel - 1, Ex(args[0].e), env, r0.(tape := left));
        var tape :| Exec(fuel - 1, Ex(args[0].e), env, tape) == r0.(tape := left);
        ArgsExec(fuel, args, env, tape);
        GivenTape(args[0], r0, left);
        assert Exec(fuel, Args(args), env, tape) == g.(tape := left);
      }
      assert Can(n + 1, Args(args), env, g);
      assert Possible(Args(args), env, g);
    } else {
      var r1 :| Possible(Args(args[1..]), g.env, r1) && Met(r1.out, r1.env, goal);
      var m: nat :| Can(m, Args(args[1..]), g.env, r1);
      forall fuel: nat, left: seq<nat> | fuel >= n + m + 1
        ensures Leads(fuel, Args(args), env, r1.(tape := left))
      {
        assert Leads(fuel - 1, Args(args[1..]), g.env, r1.(tape := left));
        var mid :| Exec(fuel - 1, Args(args[1..]), g.env, mid) == r1.(tape := left);
        assert Leads(fuel - 1, Ex(args[0].e), env, r0.(tape := mid));
        var tape :| Exec(fuel - 1, Ex(args[0].e), env, tape) == r0.(tape := mid);
        ArgsExec(fuel, args, env, tape);
        GivenTape(args[0], r0, mid);
        assert Exec(fuel, Args(args), env, tape) == r1.(tape := left);
      }
      assert Can(n + m + 1, Args(args), env, r1);
      assert Possible(Args(args), env, r1);
    }
  }

  lemma GivenTape(arg: Arg, r: Run, left: seq<nat>)
    ensures Given(arg, r.(tape := left)) == Given(arg, r).(tape := left)
  {
  }

  // ----- statements and blocks -----

  lemma LetRuns(x: Ident, init: Expr, env: Env, r0: Run)
    requires |env| > 0 && Possible(Ex(init), env, r0) && r0.out == Next && |r0.env| == |env|
    ensures Possible(St(Let(x, Some(init))), env,
      Run(Next, BindCell(LetMoves(init, r0), x, BorrowedHere(r0.env, init), SourceFrom(r0.value)), [], New))
  {
    hide Eval, LetMoves, BindCell, BorrowedHere;
    var r := Run(Next, BindCell(LetMoves(init, r0), x, BorrowedHere(r0.env, init), SourceFrom(r0.value)), [], New);
    var n: nat :| Can(n, Ex(init), env, r0);
    forall fuel: nat, left: seq<nat> | fuel >= n + 1
      ensures Leads(fuel, St(Let(x, Some(init))), env, r.(tape := left))
    {
      assert Leads(fuel - 1, Ex(init), env, r0.(tape := left));
      var tape :| Exec(fuel - 1, Ex(init), env, tape) == r0.(tape := left);
      LetTape(init, r0, left);
      assert Exec(fuel, St(Let(x, Some(init))), env, tape) == r.(tape := left);
    }
    assert Can(n + 1, St(Let(x, Some(init))), env, r);
  }

  lemma LetTape(init: Expr, r: Run, left: seq<nat>)
    ensures LetMoves(init, r.(tape := left)) == LetMoves(init, r)
  {
    hide MoveAway, Settle;
  }

  lemma DeclareRuns(x: Ident, env: Env)
    requires |env| > 0
    ensures Possible(St(Let(x, None)), env, Run(Next, BindCell(env, x, false, Whole), [], New))
  {
    hide BindCell;
    var r := Run(Next, BindCell(env, x, false, Whole), [], New);
    forall fuel: nat, left: seq<nat> | fuel >= 1
      ensures Leads(fuel, St(Let(x, None)), env, r.(tape := left))
    {
      assert Exec(fuel, St(Let(x, None)), env, left) == r.(tape := left);
    }
    assert Can(1, St(Let(x, None)), env, r);
  }

  lemma EmptyRuns(env: Env)
    requires |env| > 0
    ensures Possible(Sts([]), env, Run(Next, env, [], New))
  {
    var r := Run(Next, env, [], New);
    forall fuel: nat, left: seq<nat> | fuel >= 1
      ensures Leads(fuel, Sts([]), env, r.(tape := left))
    {
      assert Exec(fuel, Sts([]), env, left) == r.(tape := left);
    }
    assert Can(1, Sts([]), env, r);
  }

  predicate Outlives(goal: Goal, n: nat) { goal.Moved? ==> goal.d < n }

  /** A goal that concerns the scopes outside is met when the inner one is left. */
  lemma BlockLands(stmts: seq<Stmt>, env: Env, goal: Goal)
    requires Lands(Sts(stmts), env + [map[]], goal) && Outlives(goal, |env|)
    ensures Lands(Blk(stmts), env, goal)
  {
    hide EvalStmts, Outlive;
    var r0 :| Possible(Sts(stmts), env + [map[]], r0) && Met(r0.out, r0.env, goal);
    PossibleLength(Sts(stmts), env + [map[]], r0);
    var n: nat :| Can(n, Sts(stmts), env + [map[]], r0);
    var r := Leave(r0, |env|);
    forall fuel: nat, left: seq<nat> | fuel >= n + 1
      ensures Leads(fuel, Blk(stmts), env, r.(tape := left))
    {
      assert Leads(fuel - 1, Sts(stmts), env + [map[]], r0.(tape := left));
      var tape :| Exec(fuel - 1, Sts(stmts), env + [map[]], tape) == r0.(tape := left);
      assert Exec(fuel, Blk(stmts), env, tape) == r.(tape := left);
    }
    assert Can(n + 1, Blk(stmts), env, r);
    assert Possible(Blk(stmts), env, r);
  }

  // ----- matches -----

  /** What is tried once the value that is matched is there, and in which state. */
  function Tried(e: Expr, env: Env, r: Run): Task
    requires e.Match?
  {
    if Root(e.scrut).Some? then Arms(e.arms, BorrowedHere(env, e.scrut), MatchedHere(env, Root(e.scrut).value))
    else Arms(e.arms, false, SourceFrom(r.value))
  }

  function Settling(e: Expr, r: Run): (env': Env)
    requires e.Match?
    ensures |env'| == |r.env|
  {
    if Root(e.scrut).Some? then r.env else Settle(r.env, r.value)
  }

  lemma MatchContinues(e: Expr, env: Env, r0: Run, goal: Goal)
    requires e.Match? && Possible(Ex(e.scrut), env, r0) && r0.out == Next
    requires Lands(Tried(e, env, r0), Settling(e, r0), goal)
    ensures Lands(Ex(e), env, goal)
  {
    hide Eval, EvalArms, MatchedHere, BorrowedHere, Settle;
    var next, env1 := Tried(e, env, r0), Settling(e, r0);
    var r1 :| Possible(next, env1, r1) && Met(r1.out, r1.env, goal);
    var n: nat :| Can(n, Ex(e.scrut), env, r0);
    var m: nat :| Can(m, next, env1, r1);
    forall fuel: nat, left: seq<nat> | fuel >= n + m + 1
      ensures Leads(fuel, Ex(e), env, r1.(tape := left))
    {
      assert Leads(fuel - 1, next, env1, r1.(tape := left));
      var mid :| Exec(fuel - 1, next, env1, mid) == r1.(tape := left);
      assert Leads(fuel - 1, Ex(e.scrut), env, r0.(tape := mid));
      var tape :| Exec(fuel - 1, Ex(e.scrut), env, tape) == r0.(tape := mid);
      MatchRuns(fuel, e, env, tape);
      assert Exec(fuel, Ex(e), env, tape) == r1.(tape := left);
    }
    assert Can(n + m + 1, Ex(e), env, r1);
    assert Possible(Ex(e), env, r1);
  }

  lemma ArmSkipped(arms: seq<Arm>, borrow: bool, source: Source, env: Env, goal: Goal)
    requires arms != [] && Lands(Arms(arms[1..], borrow, source), env, goal)
    ensures Lands(Arms(arms, borrow, source), env, goal)
  {
    hide Eval, EvalArms, EvalGuard, BindCells;
    var r :| Possible(Arms(arms[1..], borrow, source), env, r) && Met(r.out, r.env, goal);
    var n: nat :| Can(n, Arms(arms[1..], borrow, source), env, r);
    forall fuel: nat, left: seq<nat> | fuel >= n + 1
      ensures Leads(fuel, Arms(arms, borrow, source), env, r.(tape := left))
    {
      assert Leads(fuel - 1, Arms(arms[1..], borrow, source), env, r.(tape := left));
      var tape :| Exec(fuel - 1, Arms(arms[1..], borrow, source), env, tape) == r.(tape := left);
      ArmsRun(fuel, arms, borrow, source, env, [0] + tape);
      TurnTaken(tape);
      assert Exec(fuel, Arms(arms, borrow, source), env, [0] + tape) == r.(tape := left);
    }
    assert Can(n + 1, Arms(arms, borrow, source), env, r);
    assert Possible(Arms(arms, borrow, source), env, r);
  }

  /** The first arm is taken: its guard goes bad, or its body follows. */
  lemma ArmTaken(arms: seq<Arm>, borrow: bool, source: Source, env: Env, g: Run, goal: Goal)
    requires arms != [] && Outlives(goal, |env|)
    requires Possible(Guard(arms[0].guard), BindCells(env + [map[]], arms[0].binds, borrow, source), g)
    requires g.out == Bad || (g.out == Next && Lands(Ex(arms[0].body), g.env, goal))
    ensures Lands(Arms(arms, borrow, source), env, goal)
  {
    hide Exec, BindCells;
    PossibleLength(Guard(arms[0].guard), BindCells(env + [map[]], arms[0].binds, borrow, source), g);
    if g.out == Bad {
      GuardSpoils(arms, borrow, source, env, g, goal);
    } else {
      var b :| Possible(Ex(arms[0].body), g.env, b) && Met(b.out, b.env, goal);
      PossibleLength(Ex(arms[0].body), g.env, b);
      ArmFollows(arms, borrow, source, env, g, b, goal);
    }
  }

  lemma GuardSpoils(arms: seq<Arm>, borrow: bool, source: Source, env: Env, g: Run, goal: Goal)
    requires arms != [] && |g.env| == |env| + 1 && g.out == Bad
    requires Possible(Guard(arms[0].guard), BindCells(env + [map[]], arms[0].binds, borrow, source), g)
    ensures Lands(Arms(arms, borrow, source), env, goal)
  {
    hide Eval, EvalArms, EvalGuard, BindCells, Outlive;
    var inner := BindCells(env + [map[]], arms[0].binds, borrow, source);
    var n: nat :| Can(n, Guard(arms[0].guard), inner, g);
    var r := Leave(g, |env|);
    forall fuel: nat, left: seq<nat> | fuel >= n + 1
      ensures Leads(fuel, Arms(arms, borrow, source), env, r.(tape := left))
    {
      assert Leads(fuel - 1, Guard(arms[0].guard), inner, g.(tape := left));
      var tape :| Exec(fuel - 1, Guard(arms[0].guard), inner, tape) == g.(tape := left);
      ArmsRun(fuel, arms, borrow, source, env, [1] + tape);
      TurnTaken(tape);
      assert Exec(fuel, Arms(arms, borrow, source), env, [1] + tape) == r.(tape := left);
    }
    assert Can(n + 1, Arms(arms, borrow, source), env, r);
    assert Possible(Arms(arms, borrow, source), env, r);
  }

  lemma ArmFollows(arms: seq<Arm>, borrow: bool, source: Source, env: Env, g: Run, b: Run, goal: Goal)
    requires arms != [] && Outlives(goal, |env|) && |g.env| == |b.env| == |env| + 1 && g.out == Next
    requires Possible(Guard(arms[0].guard), BindCells(env + [map[]], arms[0].binds, borrow, source), g)
    requires Possible(Ex(arms[0].body), g.env, b) && Met(b.out, b.env, goal)
    ensures Lands(Arms(arms, borrow, source), env, goal)
  {
    hide Eval, EvalArms, EvalGuard, BindCells, Outlive;
    var inner := BindCells(env + [map[]], arms[0].binds, borrow, source);
    var n: nat :| Can(n, Guard(arms[0].guard), inner, g);
    var m: nat :| Can(m, Ex(arms[0].body), g.env, b);
    var r := Leave(b, |env|);
    forall fuel: nat, left: seq<nat> | fuel >= n + m + 1
      ensures Leads(fuel, Arms(arms, borrow, source), env, r.(tape := left))
    {
      assert Leads(fuel - 1, Ex(arms[0].body), g.env, b.(tape := left));
      var after :| Exec(fuel - 1, Ex(arms[0].body), g.env, after) == b.(tape := left);
      var mid := if arms[0].guard.Some? then [1] + after else after;
      assert Leads(fuel - 1, Guard(arms[0].guard), inner, g.(tape := mid));
      var tape :| Exec(fuel - 1, Guard(arms[0].guard), inner, tape) == g.(tape := mid);
      TurnTaken(after);
      ArmsRun(fuel, arms, borrow, source, env, [1] + tape);
      TurnTaken(tape);
      assert Exec(fuel, Arms(arms, borrow, source), env, [1] + tape) == r.(tape := left);
    }
    assert Can(n + m + 1, Arms(arms, borrow, source), env, r);
    assert Possible(Arms(arms, borrow, source), env, r);
  }

  // ----- loops -----

  lemma SourcesRun(loop: Expr, env: Env, r0: Run, goal: Goal)
    requires loop.Loop? && loop.head.Iter? && Possible(All(loop.head.sources), env + [map[]], r0) && |r0.env| == |env| + 1
    requires r0.out == Bad || (r0.out == Next && Lands(Rounds(loop), r0.env[..|env|], goal))
    ensures Lands(Enter(loop), env, goal)
  {
    hide EvalAll, Iterate, Outlive;
    var n: nat :| Can(n, All(loop.head.sources), env + [map[]], r0);
    if r0.out == Bad {
      var r := Leave(r0, |env|);
      forall fuel: nat, left: seq<nat> | fuel >= n + 1
        ensures Leads(fuel, Enter(loop), env, r.(tape := left))
      {
        assert Leads(fuel - 1, All(loop.head.sources), env + [map[]], r0.(tape := left));
        var tape :| Exec(fuel - 1, All(loop.head.sources), env + [map[]], tape) == r0.(tape := left);
        assert Exec(fuel, Enter(loop), env, tape) == r.(tape := left);
      }
      assert Can(n + 1, Enter(loop), env, r);
      assert Possible(Enter(loop), env, r);
    } else {
      var r :| Possible(Rounds(loop), r0.env[..|env|], r) && Met(r.out, r.env, goal);
      var m: nat :| Can(m, Rounds(loop), r0.env[..|env|], r);
      forall fuel: nat, left: seq<nat> | fuel >= n + m + 1
        ensures Leads(fuel, Enter(loop), env, r.(tape := left))
      {
        assert Leads(fuel - 1, Rounds(loop), r0.env[..|env|], r.(tape := left));
        var mid :| Exec(fuel - 1, Rounds(loop), r0.env[..|env|], mid) == r.(tape := left);
        assert Leads(fuel - 1, All(loop.head.sources), env + [map[]], r0.(tape := mid));
        var tape :| Exec(fuel - 1, All(loop.head.sources), env + [map[]], tape) == r0.(tape := mid);
        assert Exec(fuel, Enter(loop), env, tape) == r.(tape := left);
      }
      assert Can(n + m + 1, Enter(loop), env, r);
      assert Possible(Enter(loop), env, r);
    }
  }

  function FrontRun(head: Head, env: Env): Run
    requires |env| > 0
  {
    Run(Next, if head.Iter? then BindPairs(env, head.binds) else env, [], New)
  }

  lemma FrontExec(fuel: nat, head: Head, env: Env, tape: seq<nat>)
    requires |env| > 0 && !head.While? && fuel > 0
    ensures EvalHead(fuel, head, env, tape) == FrontRun(head, env).(tape := tape)
  {
    hide BindPairs, Eval;
  }

  lemma FrontRuns(head: Head, env: Env)
    requires |env| > 0 && !head.While?
    ensures Possible(Front(head), env, FrontRun(head, env))
  {
    hide FrontRun, EvalHead;
    var r := FrontRun(head, env);
    forall fuel: nat, left: seq<nat> | fuel >= 1
      ensures Leads(fuel, Front(head), env, r.(tape := left))
    {
      FrontExec(fuel, head, env, left);
      assert Exec(fuel, Front(head), env, left) == r.(tape := left);
    }
    assert Can(1, Front(head), env, r);
  }

  lemma BehindRuns(head: Head, env: Env)
    requires !(head.Iter? && head.stride.Some?)
    ensures Possible(Behind(head), env, Run(Next, env, [], New))
  {
    var r := Run(Next, env, [], New);
    forall fuel: nat, left: seq<nat> | fuel >= 1
      ensures Leads(fuel, Behind(head), env, r.(tape := left))
    {
      assert Exec(fuel, Behind(head), env, left) == r.(tape := left);
    }
    assert Can(1, Behind(head), env, r);
  }

  lemma RoundExec(fuel: nat, loop: Expr, env: Env, tape: seq<nat>)
    requires loop.Loop? && fuel > 0
    ensures var h := EvalHead(fuel - 1, loop.head, env + [map[]], tape);
      Iterate(fuel, loop, env, tape) ==
        if h.out != Next then Leave(h, |env|)
        else if Choice(h.tape) == 0 && !loop.head.Infinite? then Run(Next, h.env[..|env|], Rest(h.tape), New)
        else
          var b := EvalBlock(fuel - 1, loop.body, h.env, Rest(h.tape));
          if b.out == Next || (b.out == Leaves && Choice(b.tape) == 0) then
            var s := EvalStride(fuel - 1, loop.head, b.env, if b.out == Next then b.tape else Rest(b.tape));
            if s.out != Next then Leave(s, |env|) else Iterate(fuel - 1, loop, s.env[..|env|], s.tape)
          else if b.out == Leaves && Choice(b.tape) == 1 then Run(Next, b.env[..|env|], Rest(b.tape), New)
          else Leave(b, |env|)
  {
    hide EvalHead, EvalBlock, EvalStride;
  }

  /** The loop ends before its next round, unless it is endless; or its head goes bad. */
  lemma RoundsEnd(loop: Expr, env: Env, h: Run, goal: Goal)
    requires loop.Loop? && Possible(Front(loop.head), env + [map[]], h) && |h.env| == |env| + 1
    requires h.out == Bad || (h.out == Next && !loop.head.Infinite? && Met(Next, h.env[..|env|], goal))
    ensures Lands(Rounds(loop), env, goal)
  {
    hide EvalHead, Iterate, Outlive;
    var n: nat :| Can(n, Front(loop.head), env + [map[]], h);
    var r := if h.out == Bad then Leave(h, |env|) else Run(Next, h.env[..|env|], [], New);
    forall fuel: nat, left: seq<nat> | fuel >= n + 1
      ensures Leads(fuel, Rounds(loop), env, r.(tape := left))
    {
      var mid := if h.out == Bad then left else [0] + left;
      assert Leads(fuel - 1, Front(loop.head), env + [map[]], h.(tape := mid));
      var tape :| Exec(fuel - 1, Front(loop.head), env + [map[]], tape) == h.(tape := mid);
      TurnTaken(left);
      RoundExec(fuel, loop, env, tape);
      assert Exec(fuel, Rounds(loop), env, tape) == r.(tape := left);
    }
    assert Can(n + 1, Rounds(loop), env, r);
    assert Possible(Rounds(loop), env, r);
  }

  /** A round: its body goes bad, or its stride does, or the other rounds follow. */
  lemma RoundGoesOn(loop: Expr, env: Env, h: Run, b: Run, s: Run, goal: Goal)
    requires loop.Loop? && Possible(Front(loop.head), env + [map[]], h) && h.out == Next
    requires Possible(Blk(loop.body), h.env, b) && (b.out == Bad || b.out == Next)
    requires b.out == Next ==> Possible(Behind(loop.head), b.env, s) && (s.out == Bad || s.out == Next)
    requires b.out == Next && s.out == Next ==> |s.env| == |env| + 1 && Lands(Rounds(loop), s.env[..|env|], goal)
    ensures Lands(Rounds(loop), env, goal)
  {
    hide Exec;
    PossibleLength(Front(loop.head), env + [map[]], h);
    PossibleLength(Blk(loop.body), h.env, b);
    if b.out == Bad {
      BodySpoils(loop, env, h, b, goal);
    } else {
      PossibleLength(Behind(loop.head), b.env, s);
      if s.out == Bad {
        StrideSpoils(loop, env, h, b, s, goal);
      } else {
        RoundFollows(loop, env, h, b, s, goal);
      }
    }
  }

  lemma BodySpoils(loop: Expr, env: Env, h: Run, b: Run, goal: Goal)
    requires loop.Loop? && Possible(Front(loop.head), env + [map[]], h) && h.out == Next
    requires Possible(Blk(loop.body), h.env, b) && b.out == Bad && |h.env| == |b.env| == |env| + 1
    ensures Lands(Rounds(loop), env, goal)
  {
    hide EvalHead, EvalBlock, EvalStride, Iterate, Outlive;
    var n: nat :| Can(n, Front(loop.head), env + [map[]], h);
    var m: nat :| Can(m, Blk(loop.body), h.env, b);
    var r := Leave(b, |env|);
    forall fuel: nat, left: seq<nat> | fuel >= n + m + 1
      ensures Leads(fuel, Rounds(loop), env, r.(tape := left))
    {
      var tape := IntoBody(loop, env, h, b, n, m, fuel - 1, left);
      RoundExec(fuel, loop, env, tape);
      assert Exec(fuel, Rounds(loop), env, tape) == r.(tape := left);
    }
    assert Can(n + m + 1, Rounds(loop), env, r);
    assert Possible(Rounds(loop), env, r);
  }

  lemma IntoBody(loop: Expr, env: Env, h: Run, b: Run, n: nat, m: nat, fuel: nat, left: seq<nat>) returns (tape: seq<nat>)
    requires loop.Loop? && Can(n, Front(loop.head), env + [map[]], h) && h.out == Next && |h.env| == |env| + 1
    requires Can(m, Blk(loop.body), h.env, b) && fuel >= n + m
    ensures var h' := EvalHead(fuel, loop.head, env + [map[]], tape);
      && h'.out == Next && h'.env == h.env && Choice(h'.tape) != 0
      && EvalBlock(fuel, loop.body, h.env, Rest(h'.tape)) == b.(tape := left)
  {
    hide EvalHead, EvalBlock;
    assert Leads(fuel, Blk(loop.body), h.env, b.(tape := left));
    var mid :| Exec(fuel, Blk(loop.body), h.env, mid) == b.(tape := left);
    assert Leads(fuel, Front(loop.head), env + [map[]], h.(tape := [1] + mid));
    tape :| Exec(fuel, Front(loop.head), env + [map[]], tape) == h.(tape := [1] + mid);
    TurnTaken(mid);
  }

  lemma StrideSpoils(loop: Expr, env: Env, h: Run, b: Run, s: Run, goal: Goal)
    requires loop.Loop? && Possible(Front(loop.head), env + [map[]], h) && h.out == Next && |h.env| == |env| + 1
    requires Possible(Blk(loop.body), h.env, b) && b.out == Next
    requires Possible(Behind(loop.head), b.env, s) && s.out == Bad && |s.env| == |env| + 1
    ensures Lands(Rounds(loop), env, goal)
  {
    hide EvalHead, EvalBlock, EvalStride, Iterate, Outlive;
    var n: nat :| Can(n, Front(loop.head), env + [map[]], h);
    var m: nat :| Can(m, Blk(loop.body), h.env, b);
    var k: nat :| Can(k, Behind(loop.head), b.env, s);
    var r := Leave(s, |env|);
    forall fuel: nat, left: seq<nat> | fuel >= n + m + k + 1
      ensures Leads(fuel, Rounds(loop), env, r.(tape := left))
    {
      assert Leads(fuel - 1, Behind(loop.head), b.env, s.(tape := left));
      var mid :| Exec(fuel - 1, Behind(loop.head), b.env, mid) == s.(tape := left);
      var tape := IntoBody(loop, env, h, b, n, m, fuel - 1, mid);
      RoundExec(fuel, loop, env, tape);
      assert Exec(fuel, Rounds(loop), env, tape) == r.(tape := left);
    }
    assert Can(n + m + k + 1, Rounds(loop), env, r);
    assert Possible(Rounds(loop), env, r);
  }

  lemma RoundFollows(loop: Expr, env: Env, h: Run, b: Run, s: Run, goal: Goal)
    requires loop.Loop? && Possible(Front(loop.head), env + [map[]], h) && h.out == Next && |h.env| == |env| + 1
    requires Possible(Blk(loop.body), h.env, b) && b.out == Next
    requires Possible(Behind(loop.head), b.env, s) && s.out == Next && |s.env| == |env| + 1
    requires Lands(Rounds(loop), s.env[..|env|], goal)
    ensures Lands(Rounds(loop), env, goal)
  {
    hide EvalHead, EvalBlock, EvalStride, Iterate;
    var r :| Possible(Rounds(loop), s.env[..|env|], r) && Met(r.out, r.env, goal);
    var n: nat :| Can(n, Front(loop.head), env + [map[]], h);
    var m: nat :| Can(m, Blk(loop.body), h.env, b);
    var k: nat :| Can(k, Behind(loop.head), b.env, s);
    var l: nat :| Can(l, Rounds(loop), s.env[..|env|], r);
    forall fuel: nat, left: seq<nat> | fuel >= n + m + k + l + 1
      ensures Leads(fuel, Rounds(loop), env, r.(tape := left))
    {
      assert Leads(fuel - 1, Rounds(loop), s.env[..|env|], r.(tape := left));
      var last :| Exec(fuel - 1, Rounds(loop), s.env[..|env|], last) == r.(tape := left);
      assert Leads(fuel - 1, Behind(loop.head), b.env, s.(tape := last));
      var mid :| Exec(fuel - 1, Behind(loop.head), b.env, mid) == s.(tape := last);
      var tape := IntoBody(loop, env, h, b, n, m, fuel - 1, mid);
      RoundExec(fuel, loop, env, tape);
      assert Exec(fuel, Rounds(loop), env, tape) == r.(tape := left);
    }
    assert Can(n + m + k + l + 1, Rounds(loop), env, r);
    assert Possible(Rounds(loop), env, r);
  }
}
