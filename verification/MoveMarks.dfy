/** Straight code, where nothing jumps past what may move a value, and code that gives nothing
    away, or nothing of one name: the checker has no mark and no report from it. */
module MoveMarks {
  import opened Wrappers
  import opened Moves
  import opened MoveSoundness

  // ----- straight code -----

  /** Nothing in it keeps a run from coming to its end, but for branches that leave and have
      given nothing away. */
  predicate Straight(e: Expr)
    decreases e, 1
  {
    match e
    case Jump => false
    case Part(base, index, _) => Straight(base) && StraightAll(index)
    case Many(operands) => StraightAll(operands)
    case Perhaps(first, second) => Straight(first) && Straight(second)
    case Try(base) => Straight(base)
    case Call(args) => StraightArgs(args)
    case Assign(target, value) => Straight(target) && Straight(value)
    case If(cond, thn, els) =>
      Straight(cond) && (StraightStmts(thn) || Leaving(thn)) && (els.Some? ==> Straight(els.value))
    case Match(scrut, arms) => Straight(scrut) && arms != [] && StraightArms(arms)
    case Block(stmts) => StraightStmts(stmts)
    case Loop(head, body, after) => StraightHead(head) && StraightStmts(body) && StraightStmts(after)
    case _ => true
  }

  predicate StraightAll(es: seq<Expr>)
    decreases es, 0
  {
    es == [] || (Straight(es[0]) && StraightAll(es[1..]))
  }

  predicate StraightArgs(args: seq<Arg>)
    decreases args, 0
  {
    args == [] || (StraightArg(args[0]) && StraightArgs(args[1..]))
  }

  predicate StraightArg(arg: Arg)
    decreases arg, 0
  {
    Straight(arg.e)
  }

  predicate StraightArms(arms: seq<Arm>)
    decreases arms, 0
  {
    arms == [] || (StraightArm(arms[0]) && StraightArms(arms[1..]))
  }

  predicate StraightArm(arm: Arm)
    decreases arm, 0
  {
    (arm.guard.Some? ==> Straight(arm.guard.value)) && Straight(arm.body)
  }

  /** An endless loop has no end; what is iterated over is evaluated once, though the checker
      takes it for a part of the loop, so it must not give anything away. */
  predicate StraightHead(head: Head)
    decreases head, 0
  {
    match head
    case Infinite => false
    case While(cond) => Straight(cond)
    case Iter(_, sources, stride) =>
      StraightAll(sources) && GentleAll(sources, None) && (stride.Some? ==> Straight(stride.value))
  }

  predicate StraightStmts(stmts: seq<Stmt>)
    decreases stmts, 0
  {
    stmts == [] || (StraightStmt(stmts[0]) && StraightStmts(stmts[1..]))
  }

  predicate StraightStmt(s: Stmt)
    decreases s, 0
  {
    match s
    case Let(_, init) => init.Some? ==> Straight(init.value)
    case Return(_) => false
    case Do(e) => Straight(e)
  }

  /** Straight up to a `return` or a jump, with nothing given away. */
  predicate Leaving(stmts: seq<Stmt>)
    decreases stmts, 1
  {
    UpToLast(stmts) && GentleStmts(stmts, None)
  }

  predicate UpToLast(stmts: seq<Stmt>)
    decreases stmts, 0
  {
    if stmts == [] then true
    else if |stmts| == 1 then Final(stmts[0])
    else StraightStmt(stmts[0]) && UpToLast(stmts[1..])
  }

  /** What may stand last: it need not come to an end. */
  predicate Final(s: Stmt)
    decreases s, 1
  {
    match s
    case Return(value) => value.Some? ==> Straight(value.value)
    case Do(e) => e == Jump || Straight(e) || Endless(e)
    case Let(_, _) => StraightStmt(s)
  }

  predicate Endless(e: Expr)
    decreases e, 0
  {
    e.Loop? && e.head.Infinite? && StraightStmts(e.body) && e.after == []
  }

  // ----- code that gives nothing away -----

  predicate Of(x: Ident, who: Option<Ident>) { who.None? || who.value == x }

  /** `e` is an owning place of the name `x`. */
  predicate Offers(e: Expr, x: Ident) {
    match e
    case Name(y, owns) => y == x && owns
    case Part(_, _, owns) => Root(e) == Some(x) && owns
    case _ => false
  }

  /** No `take` argument, and no owning name bound anew; or none of these that is a place of
      the name `who`. */
  predicate Gentle(e: Expr, who: Option<Ident>)
    decreases e, 1
  {
    match e
    case Part(base, index, _) => Gentle(base, who) && GentleAll(index, who)
    case Many(operands) => GentleAll(operands, who)
    case Perhaps(first, second) => Gentle(first, who) && Gentle(second, who)
    case Try(base) => Gentle(base, who)
    case Call(args) => GentleArgs(args, who)
    case Assign(target, value) => Gentle(target, who) && Gentle(value, who)
    case If(cond, thn, els) => Gentle(cond, who) && GentleStmts(thn, who) && (els.Some? ==> Gentle(els.value, who))
    case Match(scrut, arms) => Gentle(scrut, who) && GentleArms(arms, who)
    case Block(stmts) => GentleStmts(stmts, who)
    case Loop(head, body, after) => GentleHead(head, who) && GentleStmts(body, who) && GentleStmts(after, who)
    case _ => true
  }

  predicate GentleAll(es: seq<Expr>, who: Option<Ident>)
    decreases es, 0
  {
    es == [] || (Gentle(es[0], who) && GentleAll(es[1..], who))
  }

  predicate GentleArgs(args: seq<Arg>, who: Option<Ident>)
    decreases args, 0
  {
    args == [] || (GentleArg(args[0], who) && GentleArgs(args[1..], who))
  }

  predicate GentleArg(arg: Arg, who: Option<Ident>)
    decreases arg, 0
  {
    Gentle(arg.e, who) && (arg.mode == Takes ==> who.Some? && !Offers(arg.e, who.value))
  }

  predicate GentleArms(arms: seq<Arm>, who: Option<Ident>)
    decreases arms, 0
  {
    arms == [] || (GentleArm(arms[0], who) && GentleArms(arms[1..], who))
  }

  predicate GentleArm(arm: Arm, who: Option<Ident>)
    decreases arm, 0
  {
    (arm.guard.Some? ==> Gentle(arm.guard.value, who)) && Gentle(arm.body, who)
  }

  predicate GentleHead(head: Head, who: Option<Ident>)
    decreases head, 0
  {
    match head
    case Infinite => true
    case While(cond) => Gentle(cond, who)
    case Iter(_, sources, _) => GentleAll(sources, who)
  }

  predicate GentleStmts(stmts: seq<Stmt>, who: Option<Ident>)
    decreases stmts, 0
  {
    stmts == [] || (GentleStmt(stmts[0], who) && GentleStmts(stmts[1..], who))
  }

  predicate GentleStmt(s: Stmt, who: Option<Ident>)
    decreases s, 0
  {
    match s
    case Let(_, None) => true
    case Let(_, Some(init)) => Gentle(init, who) && !(init.Name? && init.owns && Of(init.x, who))
    case Return(value) => value.Some? ==> Gentle(value.value, who)
    case Do(e) => Gentle(e, who)
  }

  // ----- the marks of the checker -----

  /** A mark that the checker makes and knows. */
  predicate MarkedAt(c: Ctx, d: nat, x: Ident) {
    d < |c.consumed| && x in c.consumed[d] && c.consumed[d][x] != Unseen
  }

  ghost predicate Clear(c: Ctx, who: Option<Ident>) {
    forall d: nat, x :: Of(x, who) ==> !MarkedAt(c, d, x)
  }

  predicate Blames(r: Diag, who: Option<Ident>) {
    match r
    case UsedAfterMove(x, _) => Of(x, who)
    case GivenInLoop(x) => Of(x, who)
    case PartGiven(x) => Of(x, who)
  }

  /** Without marks before there are none after, and no report in between. */
  ghost predicate Silent(c: Ctx, c': Ctx, who: Option<Ident>) {
    Clear(c, who) ==>
      && Clear(c', who)
      && c.diags <= c'.diags
      && forall i :: |c.diags| <= i < |c'.diags| ==> !Blames(c'.diags[i], who)
  }

  /** No mark of the outer `n` scopes is new. */
  ghost predicate NoneNew(c: Ctx, c': Ctx, n: nat, who: Option<Ident>) {
    && (forall d: nat, x :: d < n && Of(x, who) && MarkedAt(c', d, x) ==> MarkedAt(c, d, x))
    && Silent(c, c', who)
  }

  lemma NoneNewTransitive(c: Ctx, c1: Ctx, c2: Ctx, n: nat, who: Option<Ident>)
    requires NoneNew(c, c1, n, who) && NoneNew(c1, c2, n, who)
    ensures NoneNew(c, c2, n, who)
  {
    hide MarkedAt, Blames;
  }

  /** Fewer marks and the same reports. */
  lemma FewerMarks(c: Ctx, c': Ctx, n: nat, who: Option<Ident>)
    requires c'.diags == c.diags
    requires forall d: nat, x :: MarkedAt(c', d, x) ==> MarkedAt(c, d, x)
    ensures NoneNew(c, c', n, who)
  {
    hide MarkedAt, Blames;
  }

  lemma SlipMarks(c: Ctx, e: Expr, n: nat, who: Option<Ident>)
    requires c.Ok()
    ensures NoneNew(c, Slip(c, e), n, who)
  {
    hide Yields, Doubts, NoneNew;
    FewerMarks(c, Slip(c, e), n, who);
  }

  lemma Blameless(c: Ctx, r: Diag, n: nat, who: Option<Ident>)
    requires Blames(r, who) ==> !Clear(c, who)
    ensures NoneNew(c, c.Report(r), n, who)
  {
    hide Blames, MarkedAt;
    forall d: nat, x ensures MarkedAt(c.Report(r), d, x) == MarkedAt(c, d, x) { SameMarked(c, c.Report(r), d, x); }
  }

  /** What is no place of `x` gives nothing of it away. */
  lemma ConsumeMarks(c: Ctx, e: Expr, n: nat, x: Ident)
    requires c.Ok() && !Offers(e, x)
    ensures NoneNew(c, Consume(c, e), n, Some(x))
  {
    hide Depth, NoneNew;
    NoneNewSelf(c, n, Some(x));
    match e
    case Name(y, owns) =>
      if owns {
        Blameless(c, GivenInLoop(y), n, Some(x));
        OtherMarks(c, y, TakeArg, n, x);
        SuspectMarks(MoveOut(c, y, TakeArg), GivesPart, n, Some(x));
        NoneNewTransitive(c, MoveOut(c, y, TakeArg), MoveOut(c, y, TakeArg).Suspect(GivesPart), n, Some(x));
      }
    case Part(_, _, owns) => if owns && Root(e).Some? { Blameless(c, PartGiven(Root(e).value), n, Some(x)); }
    case _ =>
  }

  lemma SuspectMarks(c: Ctx, h: Hazard, n: nat, who: Option<Ident>)
    ensures NoneNew(c, c.Suspect(h), n, who)
  {
    hide NoneNew;
    FewerMarks(c, c.Suspect(h), n, who);
  }

  lemma OtherMarks(c: Ctx, y: Ident, why: Cause, n: nat, x: Ident)
    requires c.Ok() && y != x
    ensures NoneNew(c, MoveOut(c, y, why), n, Some(x))
  {
    hide Depth, Blames;
    forall d: nat ensures MarkedAt(MoveOut(c, y, why), d, x) ==> MarkedAt(c, d, x) {
    }
  }

  lemma MergeMarks(c: Ctx, into: seq<map<Ident, Cause>>, from: seq<map<Ident, Cause>>, d: nat, x: Ident)
    requires |into| == |from| && MarkedAt(c.(consumed := Merge(into, from)), d, x)
    ensures MarkedAt(c.(consumed := into), d, x) || MarkedAt(c.(consumed := from), d, x)
  {
  }

  lemma {:induction false} GentleMarks(c: Ctx, e: Expr, who: Option<Ident>)
    requires c.Ok() && Gentle(e, who)
    ensures NoneNew(c, Walk(c, e), |c.scopes|, who)
    decreases e, 1
  {
    hide Kept, Depth, NoneNew, Ctx.Bound;
    NoneNewSelf(c, |c.scopes|, who);
    match e
    case Name(x, _) => UseMarks(c, x, who);
    case Receiver(_) => UseMarks(c, "self", who);
    case Part(_, _, _) => GentlePart(c, e, who);
    case Many(operands) => GentleAllMarks(c, operands, who);
    case Perhaps(first, second) => GentleBoth(c, e, first, second, who);
    case Try(base) => GentleMarks(c, base, who);
    case Call(args) =>
      GentleArgsMarks(c, args, who);
      LentMarks(WalkArgs(c, args), args, who);
      NoneNewTransitive(c, WalkArgs(c, args), Walk(c, e), |c.scopes|, who);
    case Assign(target, value) =>
      GentleBoth(c, e, target, value, who);
      var c1 := WalkBoth(c, e, target, value);
      OverwriteMarks(c1, target, value, who);
      NoneNewTransitive(c, c1, Walk(c, e), |c.scopes|, who);
    case If(_, _, _) => GentleBranches(c, e, who);
    case Match(_, _) => GentleMatch(c, e, who);
    case Block(stmts) => GentleBlock(c, stmts, who);
    case Loop(_, _, after) =>
      GentleLoop(c, e, who);
      GentleBlock(WalkLoop(c, e), after, who);
      NoneNewTransitive(c, WalkLoop(c, e), Walk(c, e), |c.scopes|, who);
    case _ =>
  }

  lemma NoneNewSelf(c: Ctx, n: nat, who: Option<Ident>)
    ensures NoneNew(c, c, n, who)
  {
  }

  lemma UseMarks(c: Ctx, x: Ident, who: Option<Ident>)
    requires c.Ok()
    ensures NoneNew(c, Use(c, x), |c.scopes|, who) && NoneNew(c, UseReceiver(c), |c.scopes|, who)
    ensures Use(c, x).consumed == c.consumed && UseReceiver(c).consumed == c.consumed
  {
    hide Depth, NoneNew;
    NoneNewSelf(c, |c.scopes|, who);
    SuspectMarks(c, UsedUnseen(x), |c.scopes|, who);
    SuspectMarks(c, UsedUnseen("self"), |c.scopes|, who);
    var why := c.CauseOf(x);
    if why.Some? && why.value != Unseen {
      assert MarkedAt(c, Depth(c.scopes, x), x);
      Blameless(c, UsedAfterMove(x, why.value), |c.scopes|, who);
    }
  }

  lemma {:induction false} LentMarks(c: Ctx, args: seq<Arg>, who: Option<Ident>)
    requires c.Ok()
    ensures Lent(c, args).consumed == c.consumed && Lent(c, args).diags == c.diags && NoneNew(c, Lent(c, args), |c.scopes|, who)
    decreases args
  {
    hide Kept, Depth, NoneNew;
    if args != [] {
      LentMarks(if LendsOwner(args[0]) then Reach(c, args[0].e) else c, args[1..], who);
    }
    FewerMarks(c, Lent(c, args), |c.scopes|, who);
  }

  lemma OverwriteMarks(c: Ctx, target: Expr, value: Expr, who: Option<Ident>)
    requires c.Ok()
    ensures NoneNew(c, Overwrite(c, target, value), |c.scopes|, who) && Overwrite(c, target, value).diags == c.diags
  {
    hide Yields, Doubts, Depth, NoneNew;
    FewerMarks(c, Overwrite(c, target, value), |c.scopes|, who);
  }

  lemma {:induction false} GentlePart(c: Ctx, e: Expr, who: Option<Ident>)
    requires c.Ok() && e.Part? && Gentle(e, who)
    ensures NoneNew(c, Walk(c, e), |c.scopes|, who)
    decreases e, 0
  {
    hide Kept, Depth, NoneNew, Ctx.Bound;
    var c1 := Walk(c, e.base);
    GentleMarks(c, e.base, who);
    GentleAllMarks(c1, e.index, who);
    NoneNewTransitive(c, c1, WalkAll(c1, e.index), |c.scopes|, who);
    ReachMarks(WalkAll(c1, e.index), e, who);
    PartIs(c, e);
    NoneNewTransitive(c, WalkAll(c1, e.index), Walk(c, e), |c.scopes|, who);
  }

  lemma PartIs(c: Ctx, e: Expr)
    requires c.Ok() && e.Part?
    ensures Walk(c, e) == Reach(WalkAll(Walk(c, e.base), e.index), e)
  {
    hide Depth, WalkAll, Reach;
  }

  lemma ReachMarks(c: Ctx, e: Expr, who: Option<Ident>)
    requires c.Ok()
    ensures Reach(c, e).consumed == c.consumed && Reach(c, e).diags == c.diags && NoneNew(c, Reach(c, e), |c.scopes|, who)
  {
    hide Depth, NoneNew;
    FewerMarks(c, Reach(c, e), |c.scopes|, who);
  }

  lemma {:induction false} GentleBoth(c: Ctx, e: Expr, first: Expr, second: Expr, who: Option<Ident>)
    requires c.Ok() && (e == Perhaps(first, second) || e == Assign(first, second)) && Gentle(e, who)
    ensures NoneNew(c, WalkBoth(c, e, first, second), |c.scopes|, who)
    decreases e, 0
  {
    hide Kept, Depth, NoneNew, Ctx.Bound;
    GentleMarks(c, first, who);
    GentleMarks(Walk(c, first), second, who);
    NoneNewTransitive(c, Walk(c, first), WalkBoth(c, e, first, second), |c.scopes|, who);
  }

  lemma {:induction false} GentleAllMarks(c: Ctx, es: seq<Expr>, who: Option<Ident>)
    requires c.Ok() && GentleAll(es, who)
    ensures NoneNew(c, WalkAll(c, es), |c.scopes|, who)
    decreases es, 0
  {
    hide Kept, Depth, NoneNew, Ctx.Bound;
    NoneNewSelf(c, |c.scopes|, who);
    if es != [] {
      GentleMarks(c, es[0], who);
      GentleAllMarks(Walk(c, es[0]), es[1..], who);
      NoneNewTransitive(c, Walk(c, es[0]), WalkAll(c, es), |c.scopes|, who);
    }
  }

  lemma {:induction false} GentleArgsMarks(c: Ctx, args: seq<Arg>, who: Option<Ident>)
    requires c.Ok() && GentleArgs(args, who)
    ensures NoneNew(c, WalkArgs(c, args), |c.scopes|, who)
    decreases args, 0
  {
    hide Kept, Depth, NoneNew, Ctx.Bound;
    NoneNewSelf(c, |c.scopes|, who);
    if args != [] {
      var c1 := WalkArg(c, args[0]);
      GentleArgMarks(c, args[0], who);
      GentleArgsMarks(c1, args[1..], who);
      NoneNewTransitive(c, c1, WalkArgs(c, args), |c.scopes|, who);
    }
  }

  lemma {:induction false} GentleArgMarks(c: Ctx, arg: Arg, who: Option<Ident>)
    requires c.Ok() && GentleArg(arg, who)
    ensures NoneNew(c, WalkArg(c, arg), |c.scopes|, who)
    decreases arg, 0
  {
    hide Kept, Depth, NoneNew, Ctx.Bound, Slip, Consume, Offers;
    var c1 := Walk(c, arg.e);
    GentleMarks(c, arg.e, who);
    SlipMarks(c1, arg.e, |c.scopes|, who);
    NoneNewSelf(c1, |c.scopes|, who);
    if arg.mode == Takes {
      ConsumeMarks(c1, arg.e, |c.scopes|, who.value);
    }
    NoneNewTransitive(c, c1, WalkArg(c, arg), |c.scopes|, who);
  }

  lemma {:induction false} GentleBranches(c: Ctx, e: Expr, who: Option<Ident>)
    requires c.Ok() && e.If? && Gentle(e, who)
    ensures NoneNew(c, Walk(c, e), |c.scopes|, who)
    decreases e, 0
  {
    hide Kept, Depth, Ctx.Bound, Walk, WalkBlock, MarkedAt, Merge, NoneNew;
    var c0 := Walk(c, e.cond);
    var c1 := WalkBlock(c0, e.thn);
    GentleMarks(c, e.cond, who);
    GentleBlock(c0, e.thn, who);
    BranchesAre(c, e);
    if e.els.Some? {
      var c2 := Walk(c1.(consumed := c0.consumed), e.els.value);
      GentleMarks(c1.(consumed := c0.consumed), e.els.value, who);
      forall d: nat, x | MarkedAt(Walk(c, e), d, x)
        ensures MarkedAt(c2, d, x) || MarkedAt(c1, d, x)
      {
        MergeMarks(c2, c2.consumed, c1.consumed, d, x);
        SameMarked(c2, c2.(consumed := c2.consumed), d, x);
        SameMarked(c1, c2.(consumed := c1.consumed), d, x);
      }
      BranchesUnite(c0, c1, c2, Walk(c, e), |c.scopes|, who);
      NoneNewTransitive(c, c0, Walk(c, e), |c.scopes|, who);
    } else {
      NoneNewTransitive(c, c0, c1, |c.scopes|, who);
    }
  }

  /** Two branches from the same marks, the second with the reports of the first. */
  lemma BranchesUnite(c0: Ctx, c1: Ctx, c2: Ctx, c': Ctx, n: nat, who: Option<Ident>)
    requires NoneNew(c0, c1, n, who) && NoneNew(c1.(consumed := c0.consumed), c2, n, who)
    requires c'.diags == c2.diags && forall d: nat, x :: MarkedAt(c', d, x) ==> MarkedAt(c2, d, x) || MarkedAt(c1, d, x)
    ensures NoneNew(c0, c', n, who)
  {
    hide MarkedAt, Blames;
    forall d: nat, x ensures MarkedAt(c1.(consumed := c0.consumed), d, x) == MarkedAt(c0, d, x) {
      SameMarked(c0, c1.(consumed := c0.consumed), d, x);
    }
  }

  /** Marks are looked up in `consumed` alone. */
  lemma SameMarked(c: Ctx, c': Ctx, d: nat, x: Ident)
    requires c.consumed == c'.consumed
    ensures MarkedAt(c, d, x) == MarkedAt(c', d, x)
  {
  }

  lemma BranchesAre(c: Ctx, e: Expr)
    requires c.Ok() && e.If?
    ensures var c0 := Walk(c, e.cond);
      var c1 := WalkBlock(c0, e.thn);
      && c1.(consumed := c0.consumed).Ok()
      && Walk(c, e) ==
        if e.els.None? then c1
        else
          var c2 := Walk(c1.(consumed := c0.consumed), e.els.value);
          c2.(consumed := Merge(c2.consumed, c1.consumed))
  {
    hide Depth, WalkBlock, Merge;
  }

  lemma {:induction false} GentleMatch(c: Ctx, e: Expr, who: Option<Ident>)
    requires c.Ok() && e.Match? && Gentle(e, who)
    ensures NoneNew(c, Walk(c, e), |c.scopes|, who)
    decreases e, 0
  {
    hide Kept, Depth, Ctx.Bound, NoneNew, Slip, MatchSource, WalkArms;
    var c0 := Walk(c, e.scrut);
    GentleMarks(c, e.scrut, who);
    SlipMarks(c0, e.scrut, |c.scopes|, who);
    SlipKept(c0, e.scrut);
    NoneNewSelf(c0, |c.scopes|, who);
    var c1 := if Root(e.scrut).None? then Slip(c0, e.scrut) else c0;
    NoneNewTransitive(c, c0, c1, |c.scopes|, who);
    NoneNewSelf(c1, |c.scopes|, who);
    GentleArmsMarks(c1, e.arms, IsBorrow(c, e.scrut), MatchSource(c, e.scrut), c1.consumed, c1, who);
    MatchIs(c, e);
    NoneNewTransitive(c, c1, Walk(c, e), |c.scopes|, who);
  }

  lemma MatchIs(c: Ctx, e: Expr)
    requires c.Ok() && e.Match?
    ensures var c0 := Walk(c, e.scrut);
      var c1 := if Root(e.scrut).None? then Slip(c0, e.scrut) else c0;
      && c1.Ok() && c1.scopes == c.scopes && c1.sources == c.sources && c1.floors == c.floors
      && Within(c1.consumed, c1.consumed)
      && Walk(c, e) == WalkArms(c1, e.arms, IsBorrow(c, e.scrut), MatchSource(c, e.scrut), c1.consumed)
  {
    hide Depth, Slip, MatchSource, WalkArms, Kept;
    SlipKept(Walk(c, e.scrut), e.scrut);
  }

  /** No arm adds to the marks that all arms start from. */
  lemma {:induction false} GentleArmsMarks(c: Ctx, arms: seq<Arm>, borrow: bool, source: Source, saved: seq<map<Ident, Cause>>, c0: Ctx, who: Option<Ident>)
    requires c.Ok() && Within(saved, c.consumed) && GentleArms(arms, who) && saved == c0.consumed
    requires NoneNew(c0, c, |c.scopes|, who)
    ensures NoneNew(c0, WalkArms(c, arms, borrow, source, saved), |c.scopes|, who)
    decreases arms, 0
  {
    hide Kept, Depth, Ctx.Bound, MarkedAt, Merge, WalkArm, NoneNew;
    if arms != [] {
      ArmsStep(c, arms, borrow, source, saved);
      var c1 := WalkArm(c.(consumed := saved), arms[0], borrow, source, |arms| == 1);
      var c2 := c1.(consumed := Merge(c.consumed, c1.consumed));
      GentleArmMarks(c.(consumed := saved), arms[0], borrow, source, |arms| == 1, who);
      forall d: nat, x | MarkedAt(c2, d, x)
        ensures MarkedAt(c1, d, x) || MarkedAt(c, d, x)
      {
        MergeMarks(c1, c.consumed, c1.consumed, d, x);
        SameMarked(c1, c1.(consumed := c1.consumed), d, x);
        SameMarked(c, c1.(consumed := c.consumed), d, x);
      }
      BranchesUnite(c0, c, c1, c2, |c.scopes|, who);
      GentleArmsMarks(c2, arms[1..], borrow, source, saved, c0, who);
    }
  }

  lemma ArmsStep(c: Ctx, arms: seq<Arm>, borrow: bool, source: Source, saved: seq<map<Ident, Cause>>)
    requires c.Ok() && Within(saved, c.consumed) && arms != []
    ensures c.(consumed := saved).Ok()
    ensures var c1 := WalkArm(c.(consumed := saved), arms[0], borrow, source, |arms| == 1);
      && |c1.consumed| == |c.consumed|
      && var c2 := c1.(consumed := Merge(c.consumed, c1.consumed));
      && c2.Ok() && c2.scopes == c.scopes && c2.floors == c.floors && Within(saved, c2.consumed)
      && WalkArms(c, arms, borrow, source, saved) == WalkArms(c2, arms[1..], borrow, source, saved)
  {
    hide Depth, WalkArm, Merge;
    var c1 := WalkArm(c.(consumed := saved), arms[0], borrow, source, |arms| == 1);
    ArmUnion(c, saved, c1);
  }

  lemma {:induction false} GentleArmMarks(c: Ctx, arm: Arm, borrow: bool, source: Source, last: bool, who: Option<Ident>)
    requires c.Ok() && GentleArm(arm, who)
    ensures NoneNew(c, WalkArm(c, arm, borrow, source, last), |c.scopes|, who)
    decreases arm, 0
  {
    hide Kept, Depth, Ctx.Bound, NoneNew, BindAll, Walk;
    PushOk(c);
    var c1 := BindAll(c.Push(), arm.binds, borrow, source);
    var c2 := if arm.guard.None? then c1 else WalkGuard(c1, arm.guard.value, c.consumed, last);
    var c3 := Walk(c2, arm.body);
    BindAllMarks(c.Push(), arm.binds, borrow, source, who);
    if arm.guard.Some? {
      GentleMarks(c1, arm.guard.value, who);
      GuardMarks(c1, arm.guard.value, c.consumed, last, who);
    }
    NoneNewSelf(c1, |c1.scopes|, who);
    GentleMarks(c2, arm.body, who);
    NoneNewTransitive(c1, c2, c3, |c1.scopes|, who);
    NoneNewTransitive(c.Push(), c1, c3, |c1.scopes|, who);
    PopMarks(c, c3, who);
  }

  lemma GuardMarks(c: Ctx, g: Expr, saved: seq<map<Ident, Cause>>, last: bool, who: Option<Ident>)
    requires c.Ok() && |c.scopes| == |saved| + 1
    ensures WalkGuard(c, g, saved, last).consumed == Walk(c, g).consumed && WalkGuard(c, g, saved, last).diags == Walk(c, g).diags
    ensures NoneNew(c, Walk(c, g), |c.scopes|, who) ==> NoneNew(c, WalkGuard(c, g, saved, last), |c.scopes|, who)
  {
    hide Depth, Walk, NoneNew;
    var c1, c2 := Walk(c, g), WalkGuard(c, g, saved, last);
    FewerMarks(c1, c2, |c.scopes|, who);
    if NoneNew(c, c1, |c.scopes|, who) {
      NoneNewTransitive(c, c1, c2, |c.scopes|, who);
    }
  }

  lemma PopMarks(c: Ctx, c': Ctx, who: Option<Ident>)
    requires c.Ok() && |c'.consumed| == |c'.scopes| == |c'.sources| == |c.scopes| + 1
    requires NoneNew(c.Push(), c', |c.scopes| + 1, who)
    ensures NoneNew(c, c'.Pop(), |c.scopes|, who)
  {
    hide Blames;
    forall d: nat, x
      ensures MarkedAt(c.Push(), d, x) == MarkedAt(c, d, x)
      ensures MarkedAt(c'.Pop(), d, x) ==> MarkedAt(c', d, x) && d < |c.scopes|
    {
    }
  }

  lemma BindMarks(c: Ctx, x: Ident, borrow: bool, source: Source, who: Option<Ident>)
    requires c.Ok() && |c.scopes| > 0
    ensures NoneNew(c, c.Bind(x, borrow, source), |c.scopes|, who)
  {
    hide Rebound, NoneNew;
    FewerMarks(c, c.Bind(x, borrow, source), |c.scopes|, who);
  }

  lemma {:induction false} BindAllMarks(c: Ctx, xs: seq<(Ident, bool)>, borrow: bool, source: Source, who: Option<Ident>)
    requires c.Ok() && |c.scopes| > 0
    ensures NoneNew(c, BindAll(c, xs, borrow, source), |c.scopes|, who)
    ensures BindAll(c, xs, borrow, source).diags == c.diags
    decreases xs
  {
    hide Kept, Depth, Ctx.Bound, NoneNew;
    NoneNewSelf(c, |c.scopes|, who);
    if xs != [] {
      var part := if xs[0].1 then source else Whole;
      BindInner(c, xs[0].0, borrow, part);
      BindMarks(c, xs[0].0, borrow, part, who);
      BindAllMarks(c.Bind(xs[0].0, borrow, part), xs[1..], borrow, source, who);
      NoneNewTransitive(c, c.Bind(xs[0].0, borrow, part), BindAll(c, xs, borrow, source), |c.scopes|, who);
    }
  }

  lemma {:induction false} BindEachMarks(c: Ctx, xs: seq<(Ident, bool)>, who: Option<Ident>)
    requires c.Ok() && |c.scopes| > 0
    ensures NoneNew(c, BindEach(c, xs), |c.scopes|, who) && BindEach(c, xs).diags == c.diags
    decreases xs
  {
    hide Kept, Depth, Ctx.Bound, NoneNew;
    NoneNewSelf(c, |c.scopes|, who);
    if xs != [] {
      BindInner(c, xs[0].0, xs[0].1, Whole);
      BindMarks(c, xs[0].0, xs[0].1, Whole, who);
      BindEachMarks(c.Bind(xs[0].0, xs[0].1, Whole), xs[1..], who);
      NoneNewTransitive(c, c.Bind(xs[0].0, xs[0].1, Whole), BindEach(c, xs), |c.scopes|, who);
    }
  }

  lemma {:induction false} GentleBlock(c: Ctx, stmts: seq<Stmt>, who: Option<Ident>)
    requires c.Ok() && GentleStmts(stmts, who)
    ensures NoneNew(c, WalkBlock(c, stmts), |c.scopes|, who)
    decreases stmts, 1
  {
    hide Kept, Depth, Ctx.Bound, NoneNew, WalkStmts;
    PushOk(c);
    GentleStmtsMarks(c.Push(), stmts, who);
    PopMarks(c, WalkStmts(c.Push(), stmts), who);
  }

  lemma {:induction false} GentleStmtsMarks(c: Ctx, stmts: seq<Stmt>, who: Option<Ident>)
    requires c.Ok() && |c.scopes| > 0 && GentleStmts(stmts, who)
    ensures NoneNew(c, WalkStmts(c, stmts), |c.scopes|, who)
    decreases stmts, 0
  {
    hide Kept, Depth, Ctx.Bound, NoneNew, WalkStmt;
    NoneNewSelf(c, |c.scopes|, who);
    if stmts != [] {
      var c1 := WalkStmt(c, stmts[0]);
      GentleStmtMarks(c, stmts[0], who);
      GentleStmtsMarks(c1, stmts[1..], who);
      NoneNewTransitive(c, c1, WalkStmts(c, stmts), |c.scopes|, who);
    }
  }

  lemma {:induction false} GentleStmtMarks(c: Ctx, s: Stmt, who: Option<Ident>)
    requires c.Ok() && |c.scopes| > 0 && GentleStmt(s, who)
    ensures NoneNew(c, WalkStmt(c, s), |c.scopes|, who)
    decreases s, 0
  {
    hide Kept, Depth, Ctx.Bound, NoneNew, Walk, SourceOf, Returning, MoveSource;
    NoneNewSelf(c, |c.scopes|, who);
    match s
    case Let(x, None) => BindMarks(c, x, false, Whole, who);
    case Let(x, Some(init)) =>
      var c1 := Walk(c, init);
      var c2 := MoveSource(c1, init);
      GentleMarks(c, init, who);
      GentleSource(c1, init, who);
      NoneNewTransitive(c, c1, c2, |c.scopes|, who);
      BindMarks(c2, x, IsBorrow(c1, init), SourceOf(c1, init), who);
      NoneNewTransitive(c, c2, WalkStmt(c, s), |c.scopes|, who);
    case Return(None) =>
    case Return(Some(value)) =>
      GentleMarks(c, value, who);
      ReturningMarks(Walk(c, value), value, who);
      NoneNewTransitive(c, Walk(c, value), WalkStmt(c, s), |c.scopes|, who);
    case Do(e) => GentleMarks(c, e, who);
  }

  lemma ReturningMarks(c: Ctx, value: Expr, who: Option<Ident>)
    requires c.Ok()
    ensures Returning(c, value).consumed == c.consumed && Returning(c, value).diags == c.diags
    ensures NoneNew(c, Returning(c, value), |c.scopes|, who)
  {
    hide Yields, NoneNew;
    FewerMarks(c, Returning(c, value), |c.scopes|, who);
  }

  lemma GentleSource(c: Ctx, init: Expr, who: Option<Ident>)
    requires c.Ok() && !(init.Name? && init.owns && Of(init.x, who))
    ensures NoneNew(c, MoveSource(c, init), |c.scopes|, who)
  {
    hide Slip, MoveOut, NoneNew, Depth;
    SlipMarks(c, init, |c.scopes|, who);
    NoneNewSelf(c, |c.scopes|, who);
    if init.Name? && init.owns {
      var c1 := MoveOut(c, init.x, Rebind);
      OtherMarks(c, init.x, Rebind, |c.scopes|, who.value);
      SuspectMarks(c1, MovedInLoop, |c.scopes|, who);
      NoneNewTransitive(c, c1, c1.Suspect(MovedInLoop), |c.scopes|, who);
    }
  }

  lemma {:induction false} GentleLoop(c: Ctx, e: Expr, who: Option<Ident>)
    requires c.Ok() && e.Loop? && GentleHead(e.head, who) && GentleStmts(e.body, who)
    ensures NoneNew(c, WalkLoop(c, e), |c.scopes|, who)
    decreases e, 0
  {
    hide Kept, Depth, Ctx.Bound, NoneNew, WalkHead, WalkBlock;
    FlooredOk(c);
    var c1 := Floored(c);
    var c2 := WalkHead(c1, e.head);
    var c3 := WalkBlock(c2, e.body);
    GentleHeadMarks(c1, e.head, who);
    GentleBlock(c2, e.body, who);
    NoneNewTransitive(c1, c2, c3, |c.scopes| + 1, who);
    LoopMarks(c, e, who);
  }

  lemma LoopMarks(c: Ctx, e: Expr, who: Option<Ident>)
    requires c.Ok() && e.Loop? && Floored(c).Ok() && |Floored(c).scopes| > 0
    ensures var c3 := WalkBlock(WalkHead(Floored(c), e.head), e.body);
      && WalkLoop(c, e).diags == c3.diags
      && (forall d: nat, x :: d < |c.scopes| ==> MarkedAt(WalkLoop(c, e), d, x) == MarkedAt(c3, d, x))
      && (NoneNew(Floored(c), c3, |c.scopes| + 1, who) ==> NoneNew(c, WalkLoop(c, e), |c.scopes|, who))
  {
    hide Depth, WalkHead, WalkBlock, Walk, NoneNew, Kept;
    var c1 := Floored(c);
    var c3 := WalkBlock(WalkHead(c1, e.head), e.body);
    LoopIs(c, e);
    if NoneNew(c1, c3, |c.scopes| + 1, who) {
      SameNoneNew(c1, c3, c.Push(), c3, |c.scopes| + 1, who);
      PopMarks(c, c3, who);
      SameNoneNew(c, c3.Pop(), c, WalkLoop(c, e), |c.scopes|, who);
    }
  }

  lemma LoopIs(c: Ctx, e: Expr)
    requires c.Ok() && e.Loop? && Floored(c).Ok() && |Floored(c).scopes| > 0
    ensures var c3 := WalkBlock(WalkHead(Floored(c), e.head), e.body);
      && |c3.consumed| == |c3.scopes| == |c3.sources| == |c.scopes| + 1
      && WalkLoop(c, e).consumed == c3.Pop().consumed && WalkLoop(c, e).diags == c3.diags
  {
    hide Depth, WalkHead, WalkBlock, Walk;
  }

  /** Marks and reports are all that counts. */
  lemma SameNoneNew(c: Ctx, c': Ctx, b: Ctx, b': Ctx, n: nat, who: Option<Ident>)
    requires NoneNew(c, c', n, who) && b.consumed == c.consumed && b.diags == c.diags
    requires b'.consumed == c'.consumed && b'.diags == c'.diags
    ensures NoneNew(b, b', n, who)
  {
    hide MarkedAt, Blames;
    forall d: nat, x ensures MarkedAt(b, d, x) == MarkedAt(c, d, x) && MarkedAt(b', d, x) == MarkedAt(c', d, x) {
      SameMarked(b, c, d, x);
      SameMarked(b', c', d, x);
    }
  }

  lemma {:induction false} GentleHeadMarks(c: Ctx, head: Head, who: Option<Ident>)
    requires c.Ok() && |c.scopes| > 0 && GentleHead(head, who)
    ensures NoneNew(c, WalkHead(c, head), |c.scopes|, who)
    decreases head, 1
  {
    hide Kept, Depth, Ctx.Bound, NoneNew, Walk, WalkAll;
    NoneNewSelf(c, |c.scopes|, who);
    match head
    case Infinite =>
    case While(cond) => GentleMarks(c, cond, who);
    case Iter(binds, sources, _) =>
      GentleAllMarks(c, sources, who);
      BindEachMarks(WalkAll(c, sources), binds, who);
      NoneNewTransitive(c, WalkAll(c, sources), WalkHead(c, head), |c.scopes|, who);
  }
}
