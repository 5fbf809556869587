/** The `@span` contract: an asymptotic class for the longest chain of dependent steps of a
    body, and the lengths its runs can have on an input of size `n`. */
module SpanContracts {
  import opened Wrappers

  // ----- classes n^k (log n)^j -----

  datatype Cost = Cost(k: nat, j: nat)
  {
    /** The polynomial degree decides, then the power of the logarithm. */
    predicate AtMost(o: Cost) { k < o.k || (k == o.k && j <= o.j) }
    function Max(o: Cost): Cost { if o.AtMost(this) then this else o }
    function Mul(o: Cost): Cost { Cost(k + o.k, j + o.j) }
  }

  const CONST: Cost := Cost(0, 0)
  const LOG: Cost := Cost(0, 1)
  const LINEAR: Cost := Cost(1, 0)

  function Pow(b: nat, e: nat): nat { if e == 0 then 1 else b * Pow(b, e - 1) }

  /** The levels of a merge tree over `n` leaves: one more than the logarithm, rounded down. */
  function Levels(n: nat): (l: nat)
    ensures l >= 1
  {
    if n <= 1 then 1 else 1 + Levels(n / 2)
  }

  function Value(c: Cost, n: nat): nat { Pow(n, c.k) * Pow(Levels(n), c.j) }

  // ----- bodies -----

  /** The forms that carry cost. `Plain` is every other form, with the expressions it
      evaluates; a call is one step. The sources of a loop are what its `in` head iterates
      over and its stride, the guard is the condition of a conditional loop. */
  datatype Code =
    | Plain(parts: seq<Code>)
    | Sequence(stmts: seq<Code>)
    | For(sources: seq<Code>, guard: Option<Code>, body: Code, after: Option<Code>)
    | ParFor(iter: Code, reduction: Code, body: Code)
    | If(cond: Code, thn: Code, els: Option<Code>)
    | Match(scrut: Code, arms: seq<Arm>)

  datatype Arm = Arm(guard: Option<Code>, body: Code)

  /** The class of a body. `deep` also looks where the checker does not: inside the forms
      it takes for single steps, into the sources of loops, and into the guards of arms. */
  function Span(e: Code, deep: bool): Cost
    decreases e
  {
    match e
    case Plain(parts) => if deep then SpanOfAll(parts, deep) else CONST
    case Sequence(stmts) => SpanOfAll(stmts, deep)
    case For(sources, guard, body, after) =>
      var loop := LINEAR.Mul(Span(body, deep).Max(SpanOfOption(guard, deep))).Max(SpanOfOption(after, deep));
      if deep then loop.Max(SpanOfAll(sources, deep)) else loop
    case ParFor(iter, reduction, body) => LOG.Max(Span(iter, deep)).Max(Span(reduction, deep)).Max(Span(body, deep))
    case If(cond, thn, els) => Span(cond, deep).Max(Span(thn, deep)).Max(SpanOfOption(els, deep))
    case Match(scrut, arms) => Span(scrut, deep).Max(SpanOfArms(arms, deep))
  }

  function SpanOfOption(e: Option<Code>, deep: bool): Cost
    decreases e
  {
    if e.Some? then Span(e.value, deep) else CONST
  }

  function SpanOfAll(es: seq<Code>, deep: bool): Cost
    decreases es
  {
    if es == [] then CONST else SpanOfAll(es[..|es| - 1], deep).Max(Span(es[|es| - 1], deep))
  }

  function SpanOfArms(arms: seq<Arm>, deep: bool): Cost
    decreases arms
  {
    if arms == [] then CONST
    else
      var arm := arms[0];
      assert arm.guard < arm && arm.body < arm;
      var first := Span(arm.body, deep);
      (if deep then first.Max(SpanOfOption(arm.guard, deep)) else first).Max(SpanOfArms(arms[1..], deep))
  }

  // ----- the check -----

  function SpanClass(word: string): Option<Cost> {
    if word == "constant" then Some(CONST)
    else if word == "log" then Some(LOG)
    else if word == "linear" then Some(LINEAR)
    else if word == "linearithmic" then Some(Cost(1, 1))
    else if word == "quadratic" then Some(Cost(2, 0))
    else None
  }

  datatype Diag = UnknownClass | Violated(actual: Cost, declared: Cost)

  function CheckSpanContract(word: string, body: Code): Option<Diag> {
    match SpanClass(word)
    case None => Some(UnknownClass)
    case Some(declared) =>
      var actual := Span(body, false);
      if actual.AtMost(declared) then None else Some(Violated(actual, declared))
  }

  // ----- runs -----

  function Sum(lens: seq<nat>): nat {
    if lens == [] then 0 else Sum(lens[..|lens| - 1]) + lens[|lens| - 1]
  }

  /** Can the critical path of `e` have length `len` on an input of size `n`? Every form
      takes a step of its own; a sequential loop runs at most `n` rounds, a parallel one
      costs its slowest element and one step for each level of the merge tree. */
  ghost predicate Runs(e: Code, n: nat, len: nat)
    decreases e, 2
  {
    match e
    case Plain(parts) => exists lens: seq<nat> :: AllRun(parts, |parts|, n, lens) && len == 1 + Sum(lens)
    case Sequence(stmts) =>
      exists m: nat, lens: seq<nat> :: m <= |stmts| && AllRun(stmts, m, n, lens) && len == 1 + Sum(lens)
    case For(sources, guard, body, after) =>
      exists heads: seq<nat>, rounds: seq<nat>, last: nat, rest: nat ::
        && AllRun(sources, |sources|, n, heads)
        && |rounds| <= n && AllRounds(e, n, rounds)
        && MayRun(guard, n, last) && MayRun(after, n, rest)
        && len == 1 + Sum(heads) + Sum(rounds) + last + rest
    case ParFor(iter, reduction, body) =>
      exists i: nat, r: nat, b: nat ::
        Runs(iter, n, i) && Runs(reduction, n, r) && Runs(body, n, b) && len == i + r + b + Levels(n)
    case If(cond, thn, els) =>
      exists c: nat, b: nat :: Runs(cond, n, c) && (Runs(thn, n, b) || MayRun(els, n, b)) && len == 1 + c + b
    case Match(scrut, arms) =>
      exists s: nat, b: nat :: Runs(scrut, n, s) && ArmsRun(arms, n, b) && len == 1 + s + b
  }

  ghost predicate MayRun(e: Option<Code>, n: nat, len: nat)
    decreases e
  {
    len == 0 || (e.Some? && Runs(e.value, n, len))
  }

  /** The first `m` run in turn. */
  ghost predicate AllRun(es: seq<Code>, m: nat, n: nat, lens: seq<nat>)
    requires m <= |es|
    decreases es
  {
    |lens| == m && forall i :: 0 <= i < m ==> Runs(es[i], n, lens[i])
  }

  /** The first arm's guard may run; then its body does, or the arms behind it are tried. */
  ghost predicate ArmsRun(arms: seq<Arm>, n: nat, len: nat)
    decreases arms
  {
    || len == 0
    || (arms != [] &&
        var arm := arms[0];
        assert arm.guard < arm && arm.body < arm;
        exists g: nat, b: nat ::
          MayRun(arm.guard, n, g) && (Runs(arm.body, n, b) || ArmsRun(arms[1..], n, b)) && len == g + b)
  }

  ghost predicate AllRounds(loop: Code, n: nat, rounds: seq<nat>)
    requires loop.For?
    decreases loop, 1
  {
    forall i :: 0 <= i < |rounds| ==> Round(loop, n, rounds[i])
  }

  ghost predicate Round(loop: Code, n: nat, len: nat)
    requires loop.For?
    decreases loop, 0
  {
    exists c: nat, b: nat :: MayRun(loop.guard, n, c) && Runs(loop.body, n, b) && len == 1 + c + b
  }

  // ----- the longest run -----

  function Repeated(n: nat, len: nat): nat { n * len }

  function Larger(a: nat, b: nat): nat { if a >= b then a else b }

  function Longest(e: Code, n: nat): nat
    decreases e
  {
    match e
    case Plain(parts) => 1 + LongestAll(parts, n)
    case Sequence(stmts) => 1 + LongestAll(stmts, n)
    case For(sources, guard, body, after) =>
      1 + LongestAll(sources, n) + Repeated(n, 1 + LongestOption(guard, n) + Longest(body, n))
      + LongestOption(guard, n) + LongestOption(after, n)
    case ParFor(iter, reduction, body) => Longest(iter, n) + Longest(reduction, n) + Longest(body, n) + Levels(n)
    case If(cond, thn, els) => 1 + Longest(cond, n) + Larger(Longest(thn, n), LongestOption(els, n))
    case Match(scrut, arms) => 1 + Longest(scrut, n) + LongestArms(arms, n)
  }

  function LongestOption(e: Option<Code>, n: nat): nat
    decreases e
  {
    if e.Some? then Longest(e.value, n) else 0
  }

  function LongestAll(es: seq<Code>, n: nat): nat
    decreases es
  {
    if es == [] then 0 else LongestAll(es[..|es| - 1], n) + Longest(es[|es| - 1], n)
  }

  function LongestArms(arms: seq<Arm>, n: nat): nat
    decreases arms
  {
    if arms == [] then 0
    else
      var arm := arms[0];
      assert arm.guard < arm && arm.body < arm;
      LongestOption(arm.guard, n) + Larger(Longest(arm.body, n), LongestArms(arms[1..], n))
  }

  /** No run is longer. */
  lemma {:induction false} RunsAtMost(e: Code, n: nat, len: nat)
    requires Runs(e, n, len)
    ensures len <= Longest(e, n)
    decreases e, 2
  {
    hide Span, Levels, Pow, Sum, AllRun, AllRounds;
    match e
    case Plain(parts) =>
      var lens: seq<nat> :| AllRun(parts, |parts|, n, lens) && len == 1 + Sum(lens);
      AllAtMost(parts, |parts|, n, lens);
      assert parts[..|parts|] == parts;
    case Sequence(stmts) =>
      var m: nat, lens: seq<nat> :| m <= |stmts| && AllRun(stmts, m, n, lens) && len == 1 + Sum(lens);
      AllAtMost(stmts, m, n, lens);
      PrefixIsShorter(stmts, m, n);
    case For(_, _, _, _) => ForAtMost(e, n, len);
    case ParFor(iter, reduction, body) =>
      var i: nat, r: nat, b: nat :|
        Runs(iter, n, i) && Runs(reduction, n, r) && Runs(body, n, b) && len == i + r + b + Levels(n);
      RunsAtMost(iter, n, i);
      RunsAtMost(reduction, n, r);
      RunsAtMost(body, n, b);
    case If(cond, thn, els) =>
      var c: nat, b: nat :| Runs(cond, n, c) && (Runs(thn, n, b) || MayRun(els, n, b)) && len == 1 + c + b;
      RunsAtMost(cond, n, c);
      if Runs(thn, n, b) { RunsAtMost(thn, n, b); }
      else if b != 0 { RunsAtMost(els.value, n, b); }
    case Match(scrut, arms) =>
      var s: nat, b: nat :| Runs(scrut, n, s) && ArmsRun(arms, n, b) && len == 1 + s + b;
      RunsAtMost(scrut, n, s);
      ArmsAtMost(arms, n, b);
  }

  lemma {:induction false} ArmsAtMost(arms: seq<Arm>, n: nat, len: nat)
    requires ArmsRun(arms, n, len)
    ensures len <= LongestArms(arms, n)
    decreases arms
  {
    if len != 0 {
      var arm := arms[0];
      assert arm.guard < arm && arm.body < arm;
      var g: nat, b: nat :|
        MayRun(arm.guard, n, g) && (Runs(arm.body, n, b) || ArmsRun(arms[1..], n, b)) && len == g + b;
      if g != 0 { RunsAtMost(arm.guard.value, n, g); }
      if Runs(arm.body, n, b) { RunsAtMost(arm.body, n, b); } else { ArmsAtMost(arms[1..], n, b); }
    }
  }

  lemma ForParts(e: Code, n: nat, len: nat) returns (heads: seq<nat>, rounds: seq<nat>, last: nat, rest: nat)
    requires e.For? && Runs(e, n, len)
    ensures AllRun(e.sources, |e.sources|, n, heads)
    ensures |rounds| <= n && AllRounds(e, n, rounds) && MayRun(e.guard, n, last) && MayRun(e.after, n, rest)
    ensures len == 1 + Sum(heads) + Sum(rounds) + last + rest
  {
    hide AllRounds, MayRun, Sum, AllRun;
    heads, rounds, last, rest :|
      && AllRun(e.sources, |e.sources|, n, heads)
      && |rounds| <= n && AllRounds(e, n, rounds)
      && MayRun(e.guard, n, last) && MayRun(e.after, n, rest)
      && len == 1 + Sum(heads) + Sum(rounds) + last + rest;
  }

  lemma {:induction false} ForAtMost(e: Code, n: nat, len: nat)
    requires e.For? && Runs(e, n, len)
    ensures len <= Longest(e, n)
    decreases e, 1
  {
    hide Runs, Sum, AllRounds, AllRun, Longest, Repeated;
    var heads, rounds, last, rest := ForParts(e, n, len);
    AllAtMost(e.sources, |e.sources|, n, heads);
    assert e.sources[..|e.sources|] == e.sources;
    RoundsAtMost(e, n, rounds);
    LongestOfLoop(e, n);
    if e.guard.Some? && last != 0 { RunsAtMost(e.guard.value, n, last); }
    if e.after.Some? && rest != 0 { RunsAtMost(e.after.value, n, rest); }
    RoundsFit(Sum(rounds), |rounds|, n, 1 + LongestOption(e.guard, n) + Longest(e.body, n));
  }

  lemma RoundsFit(sum: nat, rounds: nat, n: nat, round: nat)
    requires sum <= Repeated(rounds, round) && rounds <= n
    ensures sum <= Repeated(n, round)
  {
    MulGrows(rounds, n, round);
  }

  lemma LongestOfLoop(e: Code, n: nat)
    requires e.For?
    ensures Longest(e, n) ==
      1 + LongestAll(e.sources, n) + Repeated(n, 1 + LongestOption(e.guard, n) + Longest(e.body, n))
      + LongestOption(e.guard, n) + LongestOption(e.after, n)
    ensures e.guard.Some? ==> Longest(e.guard.value, n) == LongestOption(e.guard, n)
    ensures e.after.Some? ==> Longest(e.after.value, n) == LongestOption(e.after, n)
  {
  }

  lemma {:induction false} AllAtMost(es: seq<Code>, m: nat, n: nat, lens: seq<nat>)
    requires m <= |es| && AllRun(es, m, n, lens)
    ensures Sum(lens) <= LongestAll(es[..m], n)
    decreases es, m
  {
    if m > 0 {
      assert Runs(es[m - 1], n, lens[m - 1]);
      RunsAtMost(es[m - 1], n, lens[m - 1]);
      AllAtMost(es, m - 1, n, lens[..m - 1]);
      assert es[..m][..m - 1] == es[..m - 1];
    }
  }

  lemma {:induction false} RoundsAtMost(loop: Code, n: nat, rounds: seq<nat>)
    requires loop.For? && AllRounds(loop, n, rounds)
    ensures Sum(rounds) <= Repeated(|rounds|, 1 + LongestOption(loop.guard, n) + Longest(loop.body, n))
    decreases loop, 0, |rounds|, 1
  {
    if rounds != [] {
      hide Longest, LongestOption;
      var k := |rounds| - 1;
      assert Round(loop, n, rounds[k]);
      RoundAtMost(loop, n, rounds[k]);
      RoundsAtMost(loop, n, rounds[..k]);
      MulOneMore(k, 1 + LongestOption(loop.guard, n) + Longest(loop.body, n));
    }
  }

  lemma MulOneMore(k: nat, c: nat)
    ensures (k + 1) * c == k * c + c
  {
  }

  lemma {:induction false} RoundAtMost(loop: Code, n: nat, len: nat)
    requires loop.For? && Round(loop, n, len)
    ensures len <= 1 + LongestOption(loop.guard, n) + Longest(loop.body, n)
    decreases loop, 0, 0, 0
  {
    var c: nat, b: nat :| MayRun(loop.guard, n, c) && Runs(loop.body, n, b) && len == 1 + c + b;
    if c != 0 { RunsAtMost(loop.guard.value, n, c); }
    RunsAtMost(loop.body, n, b);
  }

  lemma {:induction false} PrefixIsShorter(es: seq<Code>, m: nat, n: nat)
    requires m <= |es|
    ensures LongestAll(es[..m], n) <= LongestAll(es, n)
    decreases |es|
  {
    if m < |es| {
      PrefixIsShorter(es[..|es| - 1], m, n);
      assert es[..|es| - 1][..m] == es[..m];
    } else {
      assert es[..m] == es;
    }
  }

  lemma MulGrows(a: nat, b: nat, c: nat)
    requires a <= b
    ensures a * c <= b * c
  {
  }

  /** Some run is as long. */
  lemma {:induction false} LongestRuns(e: Code, n: nat)
    ensures Runs(e, n, Longest(e, n))
    decreases e
  {
    hide Span, Levels, Pow, Sum, Repeated;
    match e
    case Plain(parts) =>
      var lens := LongestAllRuns(parts, n);
    case Sequence(stmts) =>
      var lens := LongestAllRuns(stmts, n);
      assert AllRun(stmts, |stmts|, n, lens) && Longest(e, n) == 1 + Sum(lens);
    case For(sources, guard, body, after) =>
      if guard.Some? { LongestRuns(guard.value, n); }
      if after.Some? { LongestRuns(after.value, n); }
      LongestRuns(body, n);
      var heads := LongestAllRuns(sources, n);
      ForRuns(e, n, heads);
    case ParFor(iter, reduction, body) =>
      LongestRuns(iter, n);
      LongestRuns(reduction, n);
      LongestRuns(body, n);
    case If(cond, thn, els) =>
      LongestRuns(cond, n);
      LongestRuns(thn, n);
      if els.Some? { LongestRuns(els.value, n); }
      var b := Larger(Longest(thn, n), LongestOption(els, n));
      assert Runs(thn, n, b) || MayRun(els, n, b);
    case Match(scrut, arms) =>
      LongestRuns(scrut, n);
      LongestArmsRun(arms, n);
  }

  lemma ForRuns(e: Code, n: nat, heads: seq<nat>)
    requires e.For? && Runs(e.body, n, Longest(e.body, n))
    requires AllRun(e.sources, |e.sources|, n, heads) && Sum(heads) == LongestAll(e.sources, n)
    requires MayRun(e.guard, n, LongestOption(e.guard, n)) && MayRun(e.after, n, LongestOption(e.after, n))
    ensures Runs(e, n, Longest(e, n))
  {
    hide Runs, MayRun, Sum, Repeated, Longest, LongestOption, LongestAll, AllRun;
    var c, b, rest := LongestOption(e.guard, n), Longest(e.body, n), LongestOption(e.after, n);
    LongestOfLoop(e, n);
    assert Round(e, n, 1 + c + b);
    SumOfSame(n, 1 + c + b);
    var rounds: seq<nat> := seq(n, i => 1 + c + b);
    assert AllRounds(e, n, rounds) by { hide Round; }
    LoopOf(e, n, heads, rounds, c, rest);
  }

  /** The parts of a loop's run make one. */
  lemma LoopOf(e: Code, n: nat, heads: seq<nat>, rounds: seq<nat>, last: nat, rest: nat)
    requires e.For? && AllRun(e.sources, |e.sources|, n, heads)
    requires |rounds| <= n && AllRounds(e, n, rounds) && MayRun(e.guard, n, last) && MayRun(e.after, n, rest)
    ensures Runs(e, n, 1 + Sum(heads) + Sum(rounds) + last + rest)
  {
    hide AllRun, AllRounds, MayRun, Sum;
  }

  lemma {:induction false} LongestAllRuns(es: seq<Code>, n: nat) returns (lens: seq<nat>)
    ensures AllRun(es, |es|, n, lens) && Sum(lens) == LongestAll(es, n)
    decreases es
  {
    lens := [];
    if es != [] {
      var k := |es| - 1;
      var front := LongestAllRuns(es[..k], n);
      LongestRuns(es[k], n);
      lens := front + [Longest(es[k], n)];
      assert lens[..k] == front;
      forall i | 0 <= i < |es| ensures Runs(es[i], n, lens[i]) {
        if i < k { assert es[..k][i] == es[i] && Runs(es[..k][i], n, front[i]); }
      }
    }
  }

  lemma {:induction false} LongestArmsRun(arms: seq<Arm>, n: nat)
    ensures ArmsRun(arms, n, LongestArms(arms, n))
    decreases arms
  {
    if arms != [] {
      var arm := arms[0];
      assert arm.guard < arm && arm.body < arm;
      if arm.guard.Some? { LongestRuns(arm.guard.value, n); }
      LongestRuns(arm.body, n);
      LongestArmsRun(arms[1..], n);
      hide Runs, Longest;
      var g, b := LongestOption(arm.guard, n), Larger(Longest(arm.body, n), LongestArms(arms[1..], n));
      assert MayRun(arm.guard, n, g);
      ArmRuns(arms, n, g, b);
    }
  }

  lemma ArmRuns(arms: seq<Arm>, n: nat, g: nat, b: nat)
    requires arms != [] && MayRun(arms[0].guard, n, g) && (Runs(arms[0].body, n, b) || ArmsRun(arms[1..], n, b))
    ensures ArmsRun(arms, n, g + b)
  {
    hide Runs, MayRun;
  }

  lemma {:induction false} SumOfSame(n: nat, v: nat)
    ensures Sum(seq(n, i => v)) == Repeated(n, v)
  {
    if n > 0 {
      SumOfSame(n - 1, v);
      var s: seq<nat> := seq(n, i => v);
      assert s[..n - 1] == seq(n - 1, i => v);
    }
  }
}
