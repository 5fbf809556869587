/** The class of a body is the growth of its longest run, so the `@span` check is exact up
    to what it does not look into. */
module SpanBounds {
  import opened Wrappers
  import opened Scattering
  import opened SpanContracts

  // ----- powers -----

  lemma {:induction false} PowPositive(b: nat, e: nat)
    requires b >= 1
    ensures Pow(b, e) >= 1
  {
    if e > 0 {
      PowPositive(b, e - 1);
    }
  }

  lemma {:induction false} PowGrows(a: nat, b: nat, e: nat)
    requires a <= b
    ensures Pow(a, e) <= Pow(b, e)
    decreases e
  {
    if e > 0 {
      PowGrows(a, b, e - 1);
      MulGrowsBoth(a, b, Pow(a, e - 1), Pow(b, e - 1));
    }
  }

  lemma MulGrowsBoth(a: nat, b: nat, c: nat, d: nat)
    requires a <= b && c <= d
    ensures a * c <= b * d
  {
    assert a * c <= b * c;
    assert b * c <= b * d;
  }

  lemma {:induction false} PowMoreFactors(b: nat, e: nat, f: nat)
    requires b >= 1 && e <= f
    ensures Pow(b, e) <= Pow(b, f)
    decreases f
  {
    if e < f {
      PowMoreFactors(b, e, f - 1);
      MulGrowsBoth(1, b, Pow(b, f - 1), Pow(b, f - 1));
    }
  }

  lemma {:induction false} PowOfProduct(a: nat, b: nat, e: nat)
    ensures Pow(a * b, e) == Pow(a, e) * Pow(b, e)
    decreases e
  {
    if e > 0 {
      PowOfProduct(a, b, e - 1);
      Regroup(a, b, Pow(a, e - 1), Pow(b, e - 1));
    }
  }

  lemma Regroup(a: nat, b: nat, x: nat, y: nat)
    ensures (a * b) * (x * y) == (a * x) * (b * y)
  {
    assert (a * b) * (x * y) == a * (b * x) * y;
    assert (a * x) * (b * y) == a * (x * b) * y;
  }

  lemma {:induction false} PowOfPow2(x: nat, e: nat)
    ensures Pow(Pow2(x), e) == Pow2(x * e)
    decreases e
  {
    if e > 0 {
      PowOfPow2(x, e - 1);
      Pow2Add(x, x * (e - 1));
      assert x + x * (e - 1) == x * e;
    } else {
      assert x * e == 0;
    }
  }

  lemma {:induction false} Pow2Grows(x: nat, y: nat)
    requires x <= y
    ensures Pow2(x) <= Pow2(y)
    decreases y
  {
    if x < y {
      Pow2Grows(x, y - 1);
    }
  }

  lemma {:induction false} Pow2Exceeds(x: nat)
    ensures x + 1 <= Pow2(x)
  {
    if x > 0 {
      Pow2Exceeds(x - 1);
    }
  }

  // ----- logarithms -----

  lemma {:induction false} LevelsBelow(n: nat)
    requires n >= 1
    ensures Pow2(Levels(n) - 1) <= n
  {
    if n > 1 {
      LevelsBelow(n / 2);
    }
  }

  lemma {:induction false} LevelsOfPow2(m: nat)
    ensures Levels(Pow2(m)) == m + 1
  {
    if m > 0 {
      LevelsOfPow2(m - 1);
      Pow2Exceeds(m);
      assert Pow2(m) / 2 == Pow2(m - 1);
    }
  }

  function LogFactor(j: nat): nat { 2 * Pow(j, j) }

  /** Any power of the logarithm is at most a constant times `n`. */
  lemma PolylogBelowLinear(n: nat, j: nat)
    requires n >= 1
    ensures Pow(Levels(n), j) <= LogFactor(j) * n
    ensures LogFactor(j) >= 2
  {
    if j == 0 {
      assert Pow(0, 0) == 1;
    } else {
      hide Pow, Levels;
      PowPositive(j, j);
      var l := Levels(n);
      var q := l / j + 1;
      QuotientCovers(l, j);
      PowGrows(l, j * q, j);
      PowOfProduct(j, q, j);
      QuotientPower(n, j);
      Doubled(Pow(l, j), Pow(j, j), Pow(q, j), n);
    }
  }

  lemma Doubled(x: nat, f: nat, y: nat, n: nat)
    requires x <= f * y && y <= 2 * n
    ensures x <= 2 * f * n
  {
    MulGrowsBoth(f, f, y, 2 * n);
  }

  lemma QuotientPower(n: nat, j: nat)
    requires n >= 1 && j > 0
    ensures Pow(Levels(n) / j + 1, j) <= 2 * n
  {
    hide Pow, Levels;
    var l := Levels(n);
    var q := l / j;
    QuotientCovers(l, j);
    Pow2Exceeds(q);
    PowGrows(q + 1, Pow2(q), j);
    PowOfPow2(q, j);
    Pow2Grows(q * j, l);
    LevelsBelow(n);
    assert Pow2(l) == 2 * Pow2(l - 1);
  }

  lemma QuotientCovers(l: nat, j: nat)
    requires j > 0
    ensures l <= j * (l / j + 1) && (l / j) * j <= l
  {
    assert l == j * (l / j) + l % j;
  }

  // ----- the order of classes is the order of growth -----

  lemma ValuePositive(c: Cost, n: nat)
    requires n >= 1
    ensures Value(c, n) >= 1
  {
    PowPositive(n, c.k);
    PowPositive(Levels(n), c.j);
    MulGrowsBoth(1, Pow(n, c.k), 1, Pow(Levels(n), c.j));
  }

  /** A class no higher in the order grows no faster. */
  lemma OrderBounds(c: Cost, d: Cost, n: nat)
    requires c.AtMost(d) && n >= 1
    ensures Value(c, n) <= LogFactor(c.j) * Value(d, n)
  {
    hide Pow, LogFactor;
    var l := Levels(n);
    PolylogBelowLinear(n, c.j);
    ValuePositive(d, n);
    if c.k == d.k {
      PowMoreFactors(l, c.j, d.j);
      MulGrowsBoth(Pow(n, c.k), Pow(n, c.k), Pow(l, c.j), Pow(l, d.j));
      MulGrowsBoth(1, LogFactor(c.j), Value(d, n), Value(d, n));
    } else {
      PowMoreFactors(n, c.k + 1, d.k);
      PowPositive(l, d.j);
      PowStep(n, c.k);
      MulGrowsBoth(Pow(n, c.k), Pow(n, c.k), Pow(l, c.j), LogFactor(c.j) * n);
      MoveFactor(Pow(n, c.k), LogFactor(c.j), n);
      MulGrowsBoth(Pow(n, c.k + 1), Pow(n, d.k), 1, Pow(l, d.j));
      MulGrowsBoth(LogFactor(c.j), LogFactor(c.j), Pow(n, c.k + 1), Value(d, n));
    }
  }

  lemma PowStep(b: nat, e: nat)
    ensures Pow(b, e + 1) == b * Pow(b, e)
  {
  }

  lemma MoveFactor(a: nat, f: nat, n: nat)
    ensures a * (f * n) == f * (n * a)
  {
    assert a * (f * n) == (a * f) * n;
    assert f * (n * a) == (f * n) * a;
  }

  /** A strictly higher class outgrows every multiple of a lower one. */
  lemma Outgrows(c: Cost, d: Cost, factor: nat) returns (n: nat)
    requires !c.AtMost(d)
    ensures n >= 1 && Value(c, n) > factor * Value(d, n)
  {
    hide Pow;
    if c.k == d.k {
      n := Pow2(factor);
      LevelsOfPow2(factor);
      var l := Levels(n);
      PowStep(l, d.j);
      PowMoreFactors(l, d.j + 1, c.j);
      PowPositive(l, d.j);
      PowPositive(n, c.k);
      assert Pow(l, c.j) >= (factor + 1) * Pow(l, d.j);
      assert (factor + 1) * Pow(l, d.j) > factor * Pow(l, d.j) by { MulOneMore(factor, Pow(l, d.j)); }
      StrictMul(Pow(n, c.k), Pow(l, c.j), factor * Pow(l, d.j));
      MoveFactorOut(Pow(n, c.k), factor, Pow(l, d.j));
    } else {
      n := OutrunsPolylog(d.j, factor);
      var l := Levels(n);
      PowMoreFactors(n, d.k + 1, c.k);
      PowStep(n, d.k);
      PowPositive(l, c.j);
      PowPositive(n, d.k);
      StrictMul(Pow(n, d.k), n, factor * Pow(l, d.j));
      MoveFactorOut(Pow(n, d.k), factor, Pow(l, d.j));
      MulGrowsBoth(Pow(n, d.k + 1), Pow(n, c.k), 1, Pow(l, c.j));
    }
  }

  lemma StrictMul(a: nat, x: nat, y: nat)
    requires a >= 1 && x > y
    ensures a * x > a * y
  {
  }

  lemma MoveFactorOut(a: nat, f: nat, b: nat)
    ensures a * (f * b) == f * (a * b)
  {
    assert a * (f * b) == (a * f) * b;
    assert f * (a * b) == (f * a) * b;
  }

  /** Some input outruns `factor` times a power of its logarithm. */
  lemma OutrunsPolylog(j: nat, factor: nat) returns (n: nat)
    ensures n >= 1 && n > factor * Pow(Levels(n), j)
  {
    hide Pow;
    var big := LogFactor(j + 1);
    n := Pow2(big * factor);
    LevelsOfPow2(big * factor);
    var l := Levels(n);
    PolylogBelowLinear(n, j + 1);
    PowStep(l, j);
    PowPositive(l, j);
    MulOneMore(big * factor, Pow(l, j));
    assert big * n > (big * factor) * Pow(l, j);
    assert (big * factor) * Pow(l, j) == big * (factor * Pow(l, j)) by { Associate(big, factor, Pow(l, j)); }
    CancelStrict(big, n, factor * Pow(l, j));
  }

  lemma Associate(a: nat, b: nat, c: nat)
    ensures (a * b) * c == a * (b * c)
  {
  }

  lemma CancelStrict(a: nat, x: nat, y: nat)
    requires a * x > a * y
    ensures x > y
  {
    if x <= y {
      MulGrowsBoth(a, a, x, y);
    }
  }

  // ----- the longest run has the class of the body -----

  /** What a bound in class `c` costs when restated in a higher class. */
  function Restated(factor: nat, c: Cost): nat { factor * LogFactor(c.j) }

  lemma RestateBound(len: nat, factor: nat, c: Cost, d: Cost, n: nat)
    requires len <= factor * Value(c, n) && c.AtMost(d) && n >= 1
    ensures len <= Restated(factor, c) * Value(d, n)
  {
    hide Value, LogFactor;
    OrderBounds(c, d, n);
    MulGrowsBoth(factor, factor, Value(c, n), LogFactor(c.j) * Value(d, n));
    Associate(factor, LogFactor(c.j), Value(d, n));
  }

  /** A constant for each body, whatever the input. */
  function Factor(e: Code): nat
    decreases e
  {
    match e
    case Plain(parts) => 1 + FactorOfAll(parts)
    case Sequence(stmts) => 1 + FactorOfAll(stmts)
    case For(sources, guard, body, after) =>
      var round := Restated(Factor(body), Span(body, true)) + 2 * Restated(FactorOfOption(guard), SpanOfOption(guard, true));
      var loop := LINEAR.Mul(Span(body, true).Max(SpanOfOption(guard, true)));
      Restated(2 + round, loop) + Restated(FactorOfOption(after), SpanOfOption(after, true))
      + Restated(FactorOfAll(sources), SpanOfAll(sources, true))
    case ParFor(iter, reduction, body) =>
      Restated(1, LOG) + Restated(Factor(iter), Span(iter, true)) + Restated(Factor(reduction), Span(reduction, true))
      + Restated(Factor(body), Span(body, true))
    case If(cond, thn, els) =>
      1 + Restated(Factor(cond), Span(cond, true)) + Restated(Factor(thn), Span(thn, true))
      + Restated(FactorOfOption(els), SpanOfOption(els, true))
    case Match(scrut, arms) => 1 + Restated(Factor(scrut), Span(scrut, true)) + Restated(FactorOfArms(arms), SpanOfArms(arms, true))
  }

  function FactorOfOption(e: Option<Code>): nat
    decreases e
  {
    if e.Some? then Factor(e.value) else 0
  }

  function FactorOfAll(es: seq<Code>): nat
    decreases es
  {
    if es == [] then 0
    else
      var k := |es| - 1;
      Restated(FactorOfAll(es[..k]), SpanOfAll(es[..k], true)) + Restated(Factor(es[k]), Span(es[k], true))
  }

  function FactorOfArms(arms: seq<Arm>): nat
    decreases arms
  {
    if arms == [] then 0
    else
      var arm := arms[0];
      assert arm.guard < arm && arm.body < arm;
      Restated(FactorOfOption(arm.guard), SpanOfOption(arm.guard, true))
      + (Restated(Factor(arm.body), Span(arm.body, true)) + Restated(FactorOfArms(arms[1..]), SpanOfArms(arms[1..], true)))
  }

  lemma AddBounds(a: nat, b: nat, x: nat, y: nat, v: nat)
    requires a <= x * v && b <= y * v
    ensures a + b <= (x + y) * v
  {
  }

  lemma {:induction false} LongestBelow(e: Code, n: nat)
    requires n >= 1
    ensures Longest(e, n) <= Factor(e) * Value(Span(e, true), n)
    decreases e
  {
    hide Restated, Value, LogFactor, Pow, Levels;
    var d := Span(e, true);
    ValuePositive(d, n);
    var v := Value(d, n);
    match e
    case Plain(parts) =>
      LongestAllBelow(parts, n);
      AddBounds(1, LongestAll(parts, n), 1, FactorOfAll(parts), v);
    case Sequence(stmts) =>
      LongestAllBelow(stmts, n);
      AddBounds(1, LongestAll(stmts, n), 1, FactorOfAll(stmts), v);
    case For(_, _, _, _) => ForBelow(e, n);
    case ParFor(iter, reduction, body) =>
      LongestBelow(iter, n);
      LongestBelow(reduction, n);
      LongestBelow(body, n);
      ParForBelow(e, n);
    case If(cond, thn, els) =>
      LongestBelow(cond, n);
      LongestBelow(thn, n);
      OptionBelow(els, n);
      IfBelow(e, n);
    case Match(scrut, arms) =>
      LongestBelow(scrut, n);
      ArmsBelow(arms, n);
      MatchBelow(e, n);
  }

  lemma ParForBelow(e: Code, n: nat)
    requires n >= 1 && e.ParFor?
    requires Longest(e.iter, n) <= Factor(e.iter) * Value(Span(e.iter, true), n)
    requires Longest(e.reduction, n) <= Factor(e.reduction) * Value(Span(e.reduction, true), n)
    requires Longest(e.body, n) <= Factor(e.body) * Value(Span(e.body, true), n)
    ensures Longest(e, n) <= Factor(e) * Value(Span(e, true), n)
  {
    hide Restated, Value, LogFactor, Pow, Levels;
    var d := Span(e, true);
    var v := Value(d, n);
    assert Levels(n) <= 1 * Value(LOG, n) by { LevelsIsLog(n); }
    RestateBound(Levels(n), 1, LOG, d, n);
    RestateBound(Longest(e.iter, n), Factor(e.iter), Span(e.iter, true), d, n);
    RestateBound(Longest(e.reduction, n), Factor(e.reduction), Span(e.reduction, true), d, n);
    RestateBound(Longest(e.body, n), Factor(e.body), Span(e.body, true), d, n);
    var w, x := Restated(1, LOG), Restated(Factor(e.iter), Span(e.iter, true));
    var y, z := Restated(Factor(e.reduction), Span(e.reduction, true)), Restated(Factor(e.body), Span(e.body, true));
    AddBounds(Longest(e.iter, n), Longest(e.reduction, n), x, y, v);
    AddBounds(Longest(e.body, n), Levels(n), z, w, v);
    AddBounds(Longest(e.iter, n) + Longest(e.reduction, n), Longest(e.body, n) + Levels(n), x + y, z + w, v);
  }

  lemma IfBelow(e: Code, n: nat)
    requires n >= 1 && e.If?
    requires Longest(e.cond, n) <= Factor(e.cond) * Value(Span(e.cond, true), n)
    requires Longest(e.thn, n) <= Factor(e.thn) * Value(Span(e.thn, true), n)
    requires LongestOption(e.els, n) <= FactorOfOption(e.els) * Value(SpanOfOption(e.els, true), n)
    ensures Longest(e, n) <= Factor(e) * Value(Span(e, true), n)
  {
    hide Restated, Value, LogFactor, Pow, Levels;
    var d := Span(e, true);
    var v := Value(d, n);
    ValuePositive(d, n);
    RestateBound(Longest(e.cond, n), Factor(e.cond), Span(e.cond, true), d, n);
    RestateBound(Longest(e.thn, n), Factor(e.thn), Span(e.thn, true), d, n);
    RestateBound(LongestOption(e.els, n), FactorOfOption(e.els), SpanOfOption(e.els, true), d, n);
    var x, y := Restated(Factor(e.cond), Span(e.cond, true)), Restated(Factor(e.thn), Span(e.thn, true));
    var z := Restated(FactorOfOption(e.els), SpanOfOption(e.els, true));
    AddBounds(1, Longest(e.cond, n), 1, x, v);
    AddBounds(Longest(e.thn, n), LongestOption(e.els, n), y, z, v);
    AddBounds(1 + Longest(e.cond, n), Longest(e.thn, n) + LongestOption(e.els, n), 1 + x, y + z, v);
  }

  lemma MatchBelow(e: Code, n: nat)
    requires n >= 1 && e.Match?
    requires Longest(e.scrut, n) <= Factor(e.scrut) * Value(Span(e.scrut, true), n)
    requires LongestArms(e.arms, n) <= FactorOfArms(e.arms) * Value(SpanOfArms(e.arms, true), n)
    ensures Longest(e, n) <= Factor(e) * Value(Span(e, true), n)
  {
    hide Restated, Value, LogFactor, Pow, Levels;
    var d := Span(e, true);
    var v := Value(d, n);
    ValuePositive(d, n);
    RestateBound(Longest(e.scrut, n), Factor(e.scrut), Span(e.scrut, true), d, n);
    RestateBound(LongestArms(e.arms, n), FactorOfArms(e.arms), SpanOfArms(e.arms, true), d, n);
    var x, y := Restated(Factor(e.scrut), Span(e.scrut, true)), Restated(FactorOfArms(e.arms), SpanOfArms(e.arms, true));
    AddBounds(1, Longest(e.scrut, n), 1, x, v);
    AddBounds(1 + Longest(e.scrut, n), LongestArms(e.arms, n), 1 + x, y, v);
  }

  lemma LevelsIsLog(n: nat)
    ensures Value(LOG, n) == Levels(n)
  {
    assert Pow(Levels(n), 1) == Levels(n) * Pow(Levels(n), 0);
  }

  lemma {:induction false} OptionBelow(e: Option<Code>, n: nat)
    requires n >= 1
    ensures LongestOption(e, n) <= FactorOfOption(e) * Value(SpanOfOption(e, true), n)
    decreases e
  {
    if e.Some? {
      LongestBelow(e.value, n);
    }
  }

  lemma {:induction false} LongestAllBelow(es: seq<Code>, n: nat)
    requires n >= 1
    ensures LongestAll(es, n) <= FactorOfAll(es) * Value(SpanOfAll(es, true), n)
    decreases es
  {
    hide Restated, Value;
    if es != [] {
      var k := |es| - 1;
      var d := SpanOfAll(es, true);
      LongestAllBelow(es[..k], n);
      LongestBelow(es[k], n);
      RestateBound(LongestAll(es[..k], n), FactorOfAll(es[..k]), SpanOfAll(es[..k], true), d, n);
      RestateBound(Longest(es[k], n), Factor(es[k]), Span(es[k], true), d, n);
      AddBounds(LongestAll(es[..k], n), Longest(es[k], n), Restated(FactorOfAll(es[..k]), SpanOfAll(es[..k], true)),
        Restated(Factor(es[k]), Span(es[k], true)), Value(d, n));
    }
  }

  lemma {:induction false} ArmsBelow(arms: seq<Arm>, n: nat)
    requires n >= 1
    ensures LongestArms(arms, n) <= FactorOfArms(arms) * Value(SpanOfArms(arms, true), n)
    decreases arms
  {
    hide Restated, Value;
    if arms != [] {
      var arm := arms[0];
      assert arm.guard < arm && arm.body < arm;
      OptionBelow(arm.guard, n);
      LongestBelow(arm.body, n);
      ArmsBelow(arms[1..], n);
      FirstArmBelow(arms, n);
    }
  }

  lemma FirstArmBelow(arms: seq<Arm>, n: nat)
    requires n >= 1 && arms != []
    requires LongestOption(arms[0].guard, n) <= FactorOfOption(arms[0].guard) * Value(SpanOfOption(arms[0].guard, true), n)
    requires Longest(arms[0].body, n) <= Factor(arms[0].body) * Value(Span(arms[0].body, true), n)
    requires LongestArms(arms[1..], n) <= FactorOfArms(arms[1..]) * Value(SpanOfArms(arms[1..], true), n)
    ensures LongestArms(arms, n) <= FactorOfArms(arms) * Value(SpanOfArms(arms, true), n)
  {
    hide Restated, Value, Factor, FactorOfOption, Longest, LongestOption, Span, SpanOfOption;
    var guard, body, rest, d := arms[0].guard, arms[0].body, arms[1..], SpanOfArms(arms, true);
    var v := Value(d, n);
    RestateBound(LongestOption(guard, n), FactorOfOption(guard), SpanOfOption(guard, true), d, n);
    RestateBound(Longest(body, n), Factor(body), Span(body, true), d, n);
    RestateBound(LongestArms(rest, n), FactorOfArms(rest), SpanOfArms(rest, true), d, n);
    var x, y := Restated(FactorOfOption(guard), SpanOfOption(guard, true)), Restated(Factor(body), Span(body, true));
    var z := Restated(FactorOfArms(rest), SpanOfArms(rest, true));
    AddBounds(Longest(body, n), LongestArms(rest, n), y, z, v);
    AddBounds(LongestOption(guard, n), Longest(body, n) + LongestArms(rest, n), x, y + z, v);
  }

  lemma {:induction false} ForBelow(e: Code, n: nat)
    requires n >= 1 && e.For?
    ensures Longest(e, n) <= Factor(e) * Value(Span(e, true), n)
    decreases e, 0
  {
    ForUnfolds(e, n);
    hide Restated, Value, LogFactor, Cost.AtMost, Cost.Max, Longest, Span, Factor;
    var loop := LoopSpan(e);
    var inner := Span(e.body, true).Max(SpanOfOption(e.guard, true));
    var heads := SpanOfAll(e.sources, true);
    LongestBelow(e.body, n);
    OptionBelow(e.guard, n);
    OptionBelow(e.after, n);
    LongestAllBelow(e.sources, n);
    MaxIsUpper(Span(e.body, true), SpanOfOption(e.guard, true));
    var b, g, r := Longest(e.body, n), LongestOption(e.guard, n), LongestOption(e.after, n);
    RestateBound(b, Factor(e.body), Span(e.body, true), inner, n);
    RestateBound(g, FactorOfOption(e.guard), SpanOfOption(e.guard, true), inner, n);
    var x, y := Restated(Factor(e.body), Span(e.body, true)), Restated(FactorOfOption(e.guard), SpanOfOption(e.guard, true));
    LoopBelow(b, g, x, y, inner, n);
    PartsBelow(1 + n * (1 + g + b) + g, 2 + (x + 2 * y), LINEAR.Mul(inner), r, FactorOfOption(e.after), SpanOfOption(e.after, true),
      LongestAll(e.sources, n), FactorOfAll(e.sources), heads, n);
  }

  /** Three parts of one form, each bounded in its own class. */
  lemma PartsBelow(a: nat, x: nat, c: Cost, b: nat, y: nat, d: Cost, s: nat, z: nat, f: Cost, n: nat)
    requires n >= 1 && a <= x * Value(c, n) && b <= y * Value(d, n) && s <= z * Value(f, n)
    ensures a + b + s <= (Restated(x, c) + Restated(y, d) + Restated(z, f)) * Value(c.Max(d).Max(f), n)
  {
    MaxIsUpper(c, d);
    MaxIsUpper(c.Max(d), f);
    AtMostTransitive(c, c.Max(d), c.Max(d).Max(f));
    AtMostTransitive(d, c.Max(d), c.Max(d).Max(f));
    hide Value, Restated, Cost.Max, Cost.AtMost;
    var top := c.Max(d).Max(f);
    RestateBound(a, x, c, top, n);
    RestateBound(b, y, d, top, n);
    RestateBound(s, z, f, top, n);
    AddBounds(a, b, Restated(x, c), Restated(y, d), Value(top, n));
    AddBounds(a + b, s, Restated(x, c) + Restated(y, d), Restated(z, f), Value(top, n));
  }

  lemma AtMostTransitive(a: Cost, b: Cost, c: Cost)
    requires a.AtMost(b) && b.AtMost(c)
    ensures a.AtMost(c)
  {
  }

  /** The part of a loop's class that the checker sees, taken in full. */
  function LoopSpan(e: Code): Cost
    requires e.For?
  {
    LINEAR.Mul(Span(e.body, true).Max(SpanOfOption(e.guard, true))).Max(SpanOfOption(e.after, true))
  }

  lemma ForUnfolds(e: Code, n: nat)
    requires e.For?
    ensures Span(e, true) == LoopSpan(e).Max(SpanOfAll(e.sources, true))
    ensures Factor(e) ==
      Restated(2 + (Restated(Factor(e.body), Span(e.body, true)) + 2 * Restated(FactorOfOption(e.guard), SpanOfOption(e.guard, true))),
        LINEAR.Mul(Span(e.body, true).Max(SpanOfOption(e.guard, true))))
      + Restated(FactorOfOption(e.after), SpanOfOption(e.after, true))
      + Restated(FactorOfAll(e.sources), SpanOfAll(e.sources, true))
    ensures Longest(e, n)
      == 1 + LongestAll(e.sources, n) + n * (1 + LongestOption(e.guard, n) + Longest(e.body, n))
         + LongestOption(e.guard, n) + LongestOption(e.after, n)
  {
    hide Cost.Max, Cost.Mul, Restated;
  }

  lemma MaxIsUpper(a: Cost, b: Cost)
    ensures a.AtMost(a.Max(b)) && b.AtMost(a.Max(b))
  {
  }

  /** `n` rounds of a body and a guard, and the guard once more. */
  lemma LoopBelow(b: nat, g: nat, x: nat, y: nat, inner: Cost, n: nat)
    requires n >= 1 && b <= x * Value(inner, n) && g <= y * Value(inner, n)
    ensures 1 + n * (1 + g + b) + g <= (2 + (x + 2 * y)) * Value(LINEAR.Mul(inner), n)
  {
    ValuePositive(inner, n);
    LinearValue(inner, n);
    hide Value;
    var w := Value(inner, n);
    AddBounds(1, g, 1, y, w);
    AddBounds(1 + g, b, 1 + y, x, w);
    LoopBound(n, 1 + g + b, 1 + y + x, w);
    MulGrowsBoth(1, n, w, w);
    MulGrowsBoth(1 + y, 1 + y, w, n * w);
    AddBounds(n * (1 + g + b), 1 + g, 1 + y + x, 1 + y, n * w);
  }

  lemma LinearValue(c: Cost, n: nat)
    ensures Value(LINEAR.Mul(c), n) == n * Value(c, n)
  {
    PowStep(n, c.k);
    Associate(n, Pow(n, c.k), Pow(Levels(n), c.j));
  }

  lemma LoopBound(n: nat, len: nat, factor: nat, w: nat)
    requires len <= factor * w
    ensures n * len <= factor * (n * w)
  {
    MulGrowsBoth(n, n, len, factor * w);
    MoveFactorOut(n, factor, w);
  }

  lemma MaxAbove(a: Cost, b: Cost, n: nat, bound: nat)
    requires Value(a, n) <= bound && Value(b, n) <= bound
    ensures Value(a.Max(b), n) <= bound
  {
  }

  lemma {:induction false} LongestAbove(e: Code, n: nat)
    requires n > 0
    ensures Value(Span(e, true), n) <= Longest(e, n)
    decreases e
  {
    hide Value, Cost.Max, Pow;
    var len := Longest(e, n);
    match e
    case Plain(parts) => LongestAllAbove(parts, n);
    case Sequence(stmts) => LongestAllAbove(stmts, n);
    case For(sources, guard, body, after) =>
      LongestAbove(body, n);
      OptionAbove(guard, n);
      OptionAbove(after, n);
      LongestAllAbove(sources, n);
      ForAbove(e, n);
    case ParFor(iter, reduction, body) =>
      LevelsIsLog(n);
      LongestAbove(iter, n);
      LongestAbove(reduction, n);
      LongestAbove(body, n);
      MaxAbove(LOG, Span(iter, true), n, len);
      MaxAbove(LOG.Max(Span(iter, true)), Span(reduction, true), n, len);
      MaxAbove(LOG.Max(Span(iter, true)).Max(Span(reduction, true)), Span(body, true), n, len);
    case If(cond, thn, els) =>
      LongestAbove(cond, n);
      LongestAbove(thn, n);
      OptionAbove(els, n);
      MaxAbove(Span(cond, true), Span(thn, true), n, len);
      MaxAbove(Span(cond, true).Max(Span(thn, true)), SpanOfOption(els, true), n, len);
    case Match(scrut, arms) =>
      LongestAbove(scrut, n);
      ArmsAbove(arms, n);
      MaxAbove(Span(scrut, true), SpanOfArms(arms, true), n, len);
  }

  lemma ForAbove(e: Code, n: nat)
    requires n > 0 && e.For?
    requires Value(Span(e.body, true), n) <= Longest(e.body, n)
    requires Value(SpanOfOption(e.guard, true), n) <= 1 + LongestOption(e.guard, n)
    requires Value(SpanOfOption(e.after, true), n) <= 1 + LongestOption(e.after, n)
    requires Value(SpanOfAll(e.sources, true), n) <= 1 + LongestAll(e.sources, n)
    ensures Value(Span(e, true), n) <= Longest(e, n)
  {
    ForUnfolds(e, n);
    hide Value, Cost.Max, Cost.Mul, Longest, Span;
    var inner := Span(e.body, true).Max(SpanOfOption(e.guard, true));
    var round := 1 + LongestOption(e.guard, n) + Longest(e.body, n);
    MaxAbove(Span(e.body, true), SpanOfOption(e.guard, true), n, round);
    LinearValue(inner, n);
    MulGrowsBoth(n, n, Value(inner, n), round);
    MaxAbove(LINEAR.Mul(inner), SpanOfOption(e.after, true), n, Longest(e, n));
    MaxAbove(LoopSpan(e), SpanOfAll(e.sources, true), n, Longest(e, n));
  }

  lemma ConstIsOne(n: nat)
    ensures Value(CONST, n) == 1
  {
  }

  lemma {:induction false} OptionAbove(e: Option<Code>, n: nat)
    requires n > 0
    ensures Value(SpanOfOption(e, true), n) <= 1 + LongestOption(e, n)
    decreases e
  {
    ConstIsOne(n);
    if e.Some? {
      LongestAbove(e.value, n);
    }
  }

  lemma {:induction false} LongestAllAbove(es: seq<Code>, n: nat)
    requires n > 0
    ensures Value(SpanOfAll(es, true), n) <= 1 + LongestAll(es, n)
    decreases es
  {
    ConstIsOne(n);
    if es != [] {
      LongestAllAbove(es[..|es| - 1], n);
      LongestAbove(es[|es| - 1], n);
    }
  }

  lemma {:induction false} ArmsAbove(arms: seq<Arm>, n: nat)
    requires n > 0
    ensures Value(SpanOfArms(arms, true), n) <= 1 + LongestArms(arms, n)
    decreases arms
  {
    hide Value, Cost.Max;
    ConstIsOne(n);
    if arms != [] {
      var arm, len := arms[0], 1 + LongestArms(arms, n);
      assert arm.guard < arm && arm.body < arm;
      OptionAbove(arm.guard, n);
      LongestAbove(arm.body, n);
      ArmsAbove(arms[1..], n);
      MaxAbove(Span(arm.body, true), SpanOfOption(arm.guard, true), n, len);
      MaxAbove(Span(arm.body, true).Max(SpanOfOption(arm.guard, true)), SpanOfArms(arms[1..], true), n, len);
    }
  }

  // ----- the contract -----

  /** Some constant bounds every run in the class `c`. */
  ghost predicate Obeys(e: Code, c: Cost) {
    exists factor: nat :: BoundedBy(e, c, factor)
  }

  ghost predicate BoundedBy(e: Code, c: Cost, factor: nat) {
    forall n: nat, len: nat :: n >= 1 && Runs(e, n, len) ==> len <= factor * Value(c, n)
  }

  /** A body obeys a class exactly when its full class is at most that. */
  lemma ObeysIffSpan(e: Code, c: Cost)
    ensures Obeys(e, c) <==> Span(e, true).AtMost(c)
  {
    hide Value;
    var d := Span(e, true);
    if d.AtMost(c) {
      var factor := Restated(Factor(e), d);
      forall n: nat, len: nat | n >= 1 && Runs(e, n, len) ensures len <= factor * Value(c, n) {
        RunsAtMost(e, n, len);
        LongestBelow(e, n);
        RestateBound(len, Factor(e), d, c, n);
      }
      assert BoundedBy(e, c, factor);
    } else if Obeys(e, c) {
      var factor: nat :| BoundedBy(e, c, factor);
      var n := Outgrows(d, c, factor);
      LongestAbove(e, n);
      LongestRuns(e, n);
      assert false;
    }
  }

  /** No loop stands where the checker does not look: inside a form it takes for a single
      step, in the source or stride of a loop, or in the guard of an arm. */
  predicate Open(e: Code)
    decreases e
  {
    match e
    case Plain(parts) => forall i :: 0 <= i < |parts| ==> Span(parts[i], true) == CONST
    case Sequence(stmts) => forall i :: 0 <= i < |stmts| ==> Open(stmts[i])
    case For(sources, guard, body, after) =>
      && (forall i :: 0 <= i < |sources| ==> Span(sources[i], true) == CONST)
      && (guard.Some? ==> Open(guard.value)) && Open(body) && (after.Some? ==> Open(after.value))
    case ParFor(iter, reduction, body) => Open(iter) && Open(reduction) && Open(body)
    case If(cond, thn, els) => Open(cond) && Open(thn) && (els.Some? ==> Open(els.value))
    case Match(scrut, arms) => Open(scrut) && forall i :: 0 <= i < |arms| ==> OpenArm(arms[i])
  }

  predicate OpenArm(arm: Arm)
    decreases arm
  {
    SpanOfOption(arm.guard, true) == CONST && Open(arm.body)
  }

  lemma {:induction false} OpenSpan(e: Code)
    requires Open(e)
    ensures Span(e, false) == Span(e, true)
    decreases e
  {
    match e
    case Plain(parts) => AllConst(parts);
    case Sequence(stmts) => OpenSpanAll(stmts);
    case For(sources, guard, body, after) =>
      if guard.Some? { OpenSpan(guard.value); }
      if after.Some? { OpenSpan(after.value); }
      OpenSpan(body);
      AllConst(sources);
    case ParFor(iter, reduction, body) =>
      OpenSpan(iter);
      OpenSpan(reduction);
      OpenSpan(body);
    case If(cond, thn, els) =>
      OpenSpan(cond);
      OpenSpan(thn);
      if els.Some? { OpenSpan(els.value); }
    case Match(scrut, arms) =>
      OpenSpan(scrut);
      OpenSpanArms(arms);
  }

  lemma {:induction false} OpenSpanArms(arms: seq<Arm>)
    requires forall i :: 0 <= i < |arms| ==> OpenArm(arms[i])
    ensures SpanOfArms(arms, false) == SpanOfArms(arms, true)
    decreases arms
  {
    if arms != [] {
      assert arms[0].body < arms[0];
      OpenSpan(arms[0].body);
      OpenSpanArms(arms[1..]);
    }
  }

  lemma {:induction false} OpenSpanAll(es: seq<Code>)
    requires forall i :: 0 <= i < |es| ==> Open(es[i])
    ensures SpanOfAll(es, false) == SpanOfAll(es, true)
    decreases es
  {
    if es != [] {
      OpenSpanAll(es[..|es| - 1]);
      OpenSpan(es[|es| - 1]);
    }
  }

  lemma {:induction false} AllConst(es: seq<Code>)
    requires forall i :: 0 <= i < |es| ==> Span(es[i], true) == CONST
    ensures SpanOfAll(es, true) == CONST
    decreases |es|
  {
    if es != [] {
      AllConst(es[..|es| - 1]);
    }
  }

  // ----- what the words promise -----

  predicate Known(word: string) { word in {"constant", "log", "linear", "linearithmic", "quadratic"} }

  /** The bound a word puts on the runs of an input of size `n` below 2 to the `m`. */
  function Bound(word: string, n: nat, m: nat): nat
    requires Known(word)
  {
    if word == "constant" then 1
    else if word == "log" then m
    else if word == "linear" then n
    else if word == "linearithmic" then n * m
    else n * n
  }

  /** Every run is within `factor` times that bound. */
  ghost predicate Promise(word: string, body: Code, factor: nat)
    requires Known(word)
  {
    forall n: nat, m: nat, len: nat :: n >= 1 && m >= 1 && n < Pow2(m) && Runs(body, n, len) ==>
      len <= factor * Bound(word, n, m)
  }

  lemma {:induction false} LevelsAbove(n: nat)
    ensures n < Pow2(Levels(n))
  {
    if n > 1 {
      LevelsAbove(n / 2);
    } else {
      assert Pow2(1) == 2 * Pow2(0);
    }
  }

  /** The levels are the least exponent above the size. */
  lemma LevelsLeast(n: nat, m: nat)
    requires n >= 1 && m >= 1 && n < Pow2(m)
    ensures Levels(n) <= m
  {
    LevelsBelow(n);
    var l: nat := Levels(n) - 1;
    if m <= l {
      Pow2Grows(m, l);
    }
  }

  lemma ClassBound(word: string, n: nat)
    requires Known(word)
    ensures SpanClass(word).Some? && Value(SpanClass(word).value, n) == Bound(word, n, Levels(n))
  {
    hide Levels;
    var l := Levels(n);
    assert Pow(n, 1) == n && Pow(l, 1) == l && Pow(n, 2) == n * Pow(n, 1);
  }

  lemma BoundGrows(word: string, factor: nat, n: nat, l: nat, m: nat)
    requires Known(word) && l <= m
    ensures factor * Bound(word, n, l) <= factor * Bound(word, n, m)
  {
    MulGrowsBoth(n, n, l, m);
    MulGrowsBoth(factor, factor, Bound(word, n, l), Bound(word, n, m));
  }

  lemma PromiseIsBound(word: string, body: Code, factor: nat)
    requires Known(word)
    ensures SpanClass(word).Some? && (Promise(word, body, factor) <==> BoundedBy(body, SpanClass(word).value, factor))
  {
    ClassBound(word, 1);
    var c := SpanClass(word).value;
    hide Runs, Levels, Value, Bound, SpanClass, Known;
    if Promise(word, body, factor) {
      forall n: nat, len: nat | n >= 1 && Runs(body, n, len) ensures len <= factor * Value(c, n) {
        ClassBound(word, n);
        LevelsAbove(n);
      }
    }
    if BoundedBy(body, c, factor) {
      forall n: nat, m: nat, len: nat | n >= 1 && m >= 1 && n < Pow2(m) && Runs(body, n, len)
        ensures len <= factor * Bound(word, n, m)
      {
        ClassBound(word, n);
        LevelsLeast(n, m);
        BoundGrows(word, factor, n, Levels(n), m);
      }
    }
  }

  /** Each word names its own growth, and no other word names one. */
  lemma WordMeans(word: string, body: Code)
    ensures SpanClass(word).Some? <==> Known(word)
    ensures Known(word) ==> (Obeys(body, SpanClass(word).value) <==> exists factor: nat :: Promise(word, body, factor))
  {
    if Known(word) {
      forall factor: nat
        ensures Promise(word, body, factor) <==> BoundedBy(body, SpanClass(word).value, factor)
      {
        PromiseIsBound(word, body, factor);
      }
    }
    hide Promise, BoundedBy;
  }

  /** For open bodies the check accepts exactly the known words whose promise the runs keep. */
  lemma ContractIsExact(word: string, body: Code)
    requires Open(body)
    ensures CheckSpanContract(word, body).None? <==> Known(word) && exists factor: nat :: Promise(word, body, factor)
  {
    OpenSpan(body);
    WordMeans(word, body);
    hide Promise, Obeys, SpanClass;
    if SpanClass(word).Some? {
      ObeysIffSpan(body, SpanClass(word).value);
    }
  }

  lemma MaxKeepsOrder(a: Cost, b: Cost, c: Cost, d: Cost)
    requires a.AtMost(c) && b.AtMost(d)
    ensures a.Max(b).AtMost(c.Max(d))
  {
  }

  lemma {:induction false} ShallowAtMostDeep(e: Code)
    ensures Span(e, false).AtMost(Span(e, true))
    decreases e
  {
    hide Cost.Max;
    match e
    case Plain(parts) =>
    case Sequence(stmts) => ShallowAtMostDeepAll(stmts);
    case For(sources, guard, body, after) =>
      if guard.Some? { ShallowAtMostDeep(guard.value); }
      if after.Some? { ShallowAtMostDeep(after.value); }
      ShallowAtMostDeep(body);
      var g0, g1 := SpanOfOption(guard, false), SpanOfOption(guard, true);
      MaxKeepsOrder(Span(body, false), g0, Span(body, true), g1);
      MaxKeepsOrder(LINEAR.Mul(Span(body, false).Max(g0)), SpanOfOption(after, false),
        LINEAR.Mul(Span(body, true).Max(g1)), SpanOfOption(after, true));
      MaxIsUpper(LoopSpan(e), SpanOfAll(sources, true));
      AtMostTransitive(Span(e, false), LoopSpan(e), Span(e, true));
    case ParFor(iter, reduction, body) =>
      ShallowAtMostDeep(iter);
      ShallowAtMostDeep(reduction);
      ShallowAtMostDeep(body);
      var i0, i1 := LOG.Max(Span(iter, false)), LOG.Max(Span(iter, true));
      MaxKeepsOrder(LOG, Span(iter, false), LOG, Span(iter, true));
      MaxKeepsOrder(i0, Span(reduction, false), i1, Span(reduction, true));
      MaxKeepsOrder(i0.Max(Span(reduction, false)), Span(body, false), i1.Max(Span(reduction, true)), Span(body, true));
    case If(cond, thn, els) =>
      ShallowAtMostDeep(cond);
      ShallowAtMostDeep(thn);
      if els.Some? { ShallowAtMostDeep(els.value); }
      MaxKeepsOrder(Span(cond, false), Span(thn, false), Span(cond, true), Span(thn, true));
      MaxKeepsOrder(Span(cond, false).Max(Span(thn, false)), SpanOfOption(els, false),
        Span(cond, true).Max(Span(thn, true)), SpanOfOption(els, true));
    case Match(scrut, arms) =>
      ShallowAtMostDeep(scrut);
      ShallowAtMostDeepArms(arms);
      MaxKeepsOrder(Span(scrut, false), SpanOfArms(arms, false), Span(scrut, true), SpanOfArms(arms, true));
  }

  lemma {:induction false} ShallowAtMostDeepArms(arms: seq<Arm>)
    ensures SpanOfArms(arms, false).AtMost(SpanOfArms(arms, true))
    decreases arms
  {
    if arms != [] {
      var arm := arms[0];
      assert arm.guard < arm && arm.body < arm;
      ShallowAtMostDeep(arm.body);
      ShallowAtMostDeepArms(arms[1..]);
      var full := Span(arm.body, true).Max(SpanOfOption(arm.guard, true));
      MaxIsUpper(Span(arm.body, true), SpanOfOption(arm.guard, true));
      AtMostTransitive(Span(arm.body, false), Span(arm.body, true), full);
      MaxKeepsOrder(Span(arm.body, false), SpanOfArms(arms[1..], false), full, SpanOfArms(arms[1..], true));
    }
  }

  lemma {:induction false} ShallowAtMostDeepAll(es: seq<Code>)
    ensures SpanOfAll(es, false).AtMost(SpanOfAll(es, true))
    decreases es
  {
    if es != [] {
      ShallowAtMostDeepAll(es[..|es| - 1]);
      ShallowAtMostDeep(es[|es| - 1]);
    }
  }

  /** A finding is always right: no constant makes the runs obey the declared class. */
  lemma FindingIsRight(word: string, body: Code)
    requires CheckSpanContract(word, body).Some? && Known(word)
    ensures forall factor: nat :: !Promise(word, body, factor)
  {
    WordMeans(word, body);
    hide Promise, Obeys;
    ShallowAtMostDeep(body);
    ObeysIffSpan(body, SpanClass(word).value);
  }

  /** When the check goes wrong: the declared class lies between what it sees and the truth. */
  lemma MissedIff(word: string, body: Code)
    requires SpanClass(word).Some?
    ensures CheckSpanContract(word, body).None? && !Obeys(body, SpanClass(word).value)
      <==> Span(body, false).AtMost(SpanClass(word).value) && !Span(body, true).AtMost(SpanClass(word).value)
  {
    ObeysIffSpan(body, SpanClass(word).value);
  }

  /** A loop inside an operand is such a case: linear runs, accepted as constant. */
  lemma HiddenLoopIsMissed(word: string, loop: Code, body: Code)
    requires SpanClass(word) == Some(CONST) && Span(loop, true) == LINEAR
    requires body == Plain([loop])
    ensures CheckSpanContract(word, body).None? && !Obeys(body, CONST)
  {
    SpanOfOne(loop);
    PlainSpans([loop]);
    hide Span, SpanOfAll, SpanClass, Obeys;
    MissedIff(word, body);
  }

  /** So is a loop in the guard of an arm. */
  lemma GuardLoopIsMissed(word: string, loop: Code, body: Code)
    requires SpanClass(word) == Some(CONST) && Span(loop, true) == LINEAR
    requires body == Match(Plain([]), [Arm(Some(loop), Plain([]))])
    ensures CheckSpanContract(word, body).None? && !Obeys(body, CONST)
  {
    PlainSpans([]);
    OneArm(Arm(Some(loop), Plain([])));
    hide SpanOfArms, SpanClass, Obeys;
    MissedIff(word, body);
  }

  lemma OneArm(arm: Arm)
    ensures SpanOfArms([arm], false) == Span(arm.body, false).Max(CONST)
    ensures SpanOfArms([arm], true) == Span(arm.body, true).Max(SpanOfOption(arm.guard, true)).Max(CONST)
  {
    assert [arm][1..] == [];
  }

  /** And so is what a loop iterates over: any source above linear passes as linear. */
  lemma SourceLoopIsMissed(word: string, source: Code, body: Code)
    requires SpanClass(word) == Some(LINEAR) && !Span(source, true).AtMost(LINEAR)
    requires body == For([source], None, Plain([]), None)
    ensures CheckSpanContract(word, body).None? && !Obeys(body, LINEAR)
  {
    SourceSpans(source, body);
    hide Span, SpanClass, Obeys;
    MissedIff(word, body);
  }

  lemma SourceSpans(source: Code, body: Code)
    requires body == For([source], None, Plain([]), None)
    ensures Span(body, false) == LINEAR && Span(body, true) == LINEAR.Max(Span(source, true))
  {
    PlainSpans([]);
    SpanOfOne(source);
    ForSpans(body);
    ConstIsNeutral(CONST);
    ConstIsNeutral(LINEAR);
    ConstIsNeutral(Span(source, true));
    hide Span, SpanOfAll, Cost.Max, Cost.Mul;
  }

  lemma ForSpans(e: Code)
    requires e.For? && e.guard.None? && e.after.None?
    ensures Span(e, false) == LINEAR.Mul(Span(e.body, false).Max(CONST)).Max(CONST)
    ensures Span(e, true) == LINEAR.Mul(Span(e.body, true).Max(CONST)).Max(CONST).Max(SpanOfAll(e.sources, true))
  {
    hide Cost.Max, Cost.Mul;
  }

  lemma SpanOfOne(e: Code)
    ensures SpanOfAll([e], true) == CONST.Max(Span(e, true))
  {
    assert [e][..0] == [];
  }

  lemma PlainSpans(parts: seq<Code>)
    ensures Span(Plain(parts), false) == CONST && Span(Plain(parts), true) == SpanOfAll(parts, true)
    ensures SpanOfAll([], true) == CONST
  {
  }

  /** A loop over single steps is linear. */
  lemma LoopIsLinear(loop: Code)
    requires loop.For? && loop.guard.None? && loop.after.None? && Span(loop.body, true) == CONST
    requires SpanOfAll(loop.sources, true) == CONST
    ensures Span(loop, true) == LINEAR
  {
    ForSpans(loop);
    hide Cost.Max, Cost.Mul, Span;
    ConstIsNeutral(CONST);
    ConstIsNeutral(LINEAR);
  }

  lemma ConstIsNeutral(c: Cost)
    ensures c.Max(CONST) == c && CONST.Max(c) == c && c.Mul(CONST) == c
  {
  }
}
