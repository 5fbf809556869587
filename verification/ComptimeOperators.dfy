/** What the operators of the compile-time interpreter compute, said without their formulas:
    by the equation that a result solves, bit by bit, or character by character. */
module ComptimeOperators {
  import opened Wrappers
  import opened Scattering
  import opened ComptimeValues
  import opened Comptime
  import opened ComptimeSpace

  // ----- bits -----

  /** The bit of weight `Pow2(k)` in two's complement, of any width. */
  predicate Bit(i: int, k: nat) { (i / Pow2(k)) % 2 == 1 }

  lemma BitStep(i: int, k: nat)
    ensures Bit(i, 0) <==> i % 2 == 1
    ensures Bit(i, k + 1) <==> Bit(i / 2, k)
  {
    HalvesTwice(i, Pow2(k));
  }

  lemma HalvesTwice(i: int, n: nat)
    requires n > 0
    ensures (i / 2) / n == i / (2 * n)
  {
    var q, r := i / 2, i % 2;
    var p, s := q / n, q % n;
    assert i == 2 * q + r && q == n * p + s;
    assert i == (2 * n) * p + (2 * s + r) by { assert 2 * (n * p) == (2 * n) * p; }
    QuotientIs(i, 2 * n, p, 2 * s + r);
  }

  lemma QuotientIs(a: int, b: int, q: int, r: int)
    requires b > 0 && a == b * q + r && 0 <= r < b
    ensures a / b == q && a % b == r
  {
    var p := a / b;
    assert b * p - b * q == r - a % b;
    SmallMultiple(b, p - q, r - a % b);
  }

  lemma ProductAtLeast(b: nat, d: nat)
    requires d > 0
    ensures b * d >= b
  {
    assert b * d == b * (d - 1) + b;
  }

  lemma MultipleIsLarge(b: int, d: int)
    ensures d != 0 ==> Abs(b * d) >= Abs(b)
  {
    if d != 0 {
      ProductAtLeast(Abs(b), Abs(d));
      var n := Abs(b) * Abs(d);
      assert b * d == n || b * d == -n by {
        if b < 0 && d < 0 {
          assert n == -b * -d;
        } else if b < 0 {
          assert n == -b * d;
        } else if d < 0 {
          assert n == b * -d;
        }
      }
    }
  }

  /** No multiple of `b` but zero is smaller than `b`. */
  lemma SmallMultiple(b: int, d: int, r: int)
    requires b * d == r && Abs(r) < Abs(b)
    ensures d == 0 && r == 0
  {
    MultipleIsLarge(b, d);
  }

  /** A number is determined by its bits. */
  lemma {:induction false} BitsDetermine(a: int, b: int)
    requires forall k: nat :: Bit(a, k) == Bit(b, k)
    ensures a == b
    decreases Abs(a) + Abs(b)
  {
    BitStep(a, 0);
    BitStep(b, 0);
    assert Bit(a, 0) == Bit(b, 0);
    forall k: nat
      ensures Bit(a / 2, k) == Bit(b / 2, k)
    {
      BitStep(a, k);
      BitStep(b, k);
      assert Bit(a, k + 1) == Bit(b, k + 1);
    }
    if Abs(a / 2) + Abs(b / 2) < Abs(a) + Abs(b) {
      BitsDetermine(a / 2, b / 2);
    }
  }

  lemma {:induction false} BitwiseBits(op: (bool, bool) -> bool, a: int, b: int, k: nat)
    ensures Bit(Bitwise(op, a, b), k) == op(Bit(a, k), Bit(b, k))
    decreases k
  {
    hide Bit;
    var c := Bitwise(op, a, b);
    assert c / 2 == Bitwise(op, a / 2, b / 2) && (c % 2 == 1) == op(a % 2 == 1, b % 2 == 1);
    BitStep(a, if k > 0 then k - 1 else 0);
    BitStep(b, if k > 0 then k - 1 else 0);
    BitStep(c, if k > 0 then k - 1 else 0);
    if k > 0 {
      BitwiseBits(op, a / 2, b / 2, k - 1);
    }
  }

  // ----- integers -----

  predicate Word(i: int) { -(Pow2(63) as int) <= i < Pow2(63) }

  lemma WordIs(i: int)
    ensures Word(i) <==> MIN <= i <= MAX
  {
    PowerOf63();
  }

  /** Repeated addition. */
  function Times(a: int, n: nat): int { if n == 0 then 0 else a + Times(a, n - 1) }

  lemma {:induction false} TimesIs(a: int, n: nat)
    ensures Times(a, n) == a * n
    decreases n
  {
    if n > 0 {
      TimesIs(a, n - 1);
    }
  }

  /** Division with a rest that is smaller than the divisor and has the dividend's sign. */
  predicate Divides(a: int, b: int, q: int, r: int) {
    a == b * q + r && Abs(r) < Abs(b) && (r == 0 || (r < 0 <==> a < 0))
  }

  lemma DivisionUnique(a: int, b: int, q: int, r: int)
    requires Divides(a, b, q, r)
    ensures b != 0 && q == Quotient(a, b) && r == a - b * Quotient(a, b)
  {
    var p := Quotient(a, b);
    RemainderIsSmall(a, b);
    var s := a - b * p;
    assert b * (q - p) == s - r;
    assert Abs(s - r) < Abs(b);
    SmallMultiple(b, q - p, s - r);
  }

  /** `c` is what `op` makes of `a` and `b` when nothing limits its size. */
  ghost predicate Solves(op: BinOp, a: int, b: int, c: int) {
    match op
    case Add => c - a == b
    case Sub => c + b == a
    case Mul => c == if b < 0 then -Times(a, -b) else Times(a, b)
    case Div => exists r :: Divides(a, b, c, r)
    case Rem => exists q :: Word(q) && Divides(a, b, q, c)
    case Shl => 0 <= b < 64 && exists k: int :: c == a * Pow2(b) + k * Pow2(64)
    case Shr => 0 <= b < 64 && c * Pow2(b) <= a < c * Pow2(b) + Pow2(b)
    case BitAnd => forall k: nat :: Bit(c, k) <==> Bit(a, k) && Bit(b, k)
    case BitOr => forall k: nat :: Bit(c, k) <==> Bit(a, k) || Bit(b, k)
    case BitXor => forall k: nat :: Bit(c, k) <==> Bit(a, k) != Bit(b, k)
    case _ => false
  }

  predicate Compares(op: BinOp) { op in {Eq, Ne, Lt, Le, Gt, Ge} }

  /** Which comparisons hold between numbers whose difference is `d`. */
  predicate Says(op: BinOp, d: int) {
    match op
    case Eq => d == 0
    case Ne => d != 0
    case Lt => d > 0
    case Le => d >= 0
    case Gt => d < 0
    case Ge => d <= 0
    case _ => false
  }

  /** The specification of integer operators: a comparison says how the operands lie; any other
      operator has the one 64-bit word that solves it, or an error that tells why there is none. */
  ghost predicate Computes(op: BinOp, a: int, b: int, r: Result<Value, Error>) {
    if Compares(op) then r == Ok(Bool(Says(op, b - a)))
    else if (op == Div || op == Rem) && b == 0 then r == Err(DivisionByZero)
    else if (op == Shl || op == Shr) && !(0 <= b < Pow2(32)) then r == Err(NegativeShift)
    else if (op == Shl || op == Shr) && b >= 64 then r == Err(LargeShift)
    else
      match r
      case Ok(v) => v.Int? && Word(v.i) && Solves(op, a, b, v.i)
      case Err(e) => e == Overflow && forall c :: Word(c) ==> !Solves(op, a, b, c)
  }

  /** Exactly one of less, equal and greater. */
  lemma OneComparison(d: int)
    ensures Says(Lt, d) || Says(Eq, d) || Says(Gt, d)
    ensures !(Says(Lt, d) && Says(Eq, d)) && !(Says(Lt, d) && Says(Gt, d)) && !(Says(Eq, d) && Says(Gt, d))
    ensures Says(Ne, d) == !Says(Eq, d) && Says(Le, d) == !Says(Gt, d) && Says(Ge, d) == !Says(Lt, d)
  {
  }

  lemma SolutionUnique(op: BinOp, a: int, b: int, c: int, d: int)
    requires Word(a) && Word(b) && Word(c) && Word(d) && Solves(op, a, b, c) && Solves(op, a, b, d)
    ensures c == d
  {
    hide Word, Pow2, Bit, Divides, Times;
    match op
    case Div | Rem => DivisionsAgree(op, a, b, c, d);
    case Shl => WordsAgree(a * Pow2(b), c, d);
    case Shr => ShiftUnique(a, Pow2(b), c, d);
    case BitAnd => BitsDetermine(c, d);
    case BitOr => BitsDetermine(c, d);
    case BitXor => BitsDetermine(c, d);
    case _ =>
  }

  lemma DivisionsAgree(op: BinOp, a: int, b: int, c: int, d: int)
    requires (op == Div || op == Rem) && Solves(op, a, b, c) && Solves(op, a, b, d)
    ensures c == d
  {
    hide Word, Divides, Quotient;
    if op == Div {
      var r :| Divides(a, b, c, r);
      var s :| Divides(a, b, d, s);
      DivisionUnique(a, b, c, r);
      DivisionUnique(a, b, d, s);
    } else {
      var p :| Word(p) && Divides(a, b, p, c);
      var q :| Word(q) && Divides(a, b, q, d);
      DivisionUnique(a, b, p, c);
      DivisionUnique(a, b, q, d);
    }
  }

  /** Two words that differ by a multiple of 2 to the 64 are equal. */
  lemma WordsAgree(n: int, c: int, d: int)
    requires Word(c) && Word(d)
    requires exists k: int :: c == n + k * Pow2(64)
    requires exists k: int :: d == n + k * Pow2(64)
    ensures c == d
  {
    hide Pow2;
    Pow2Values();
    PowerOf63();
    var k: int :| c == n + k * Pow2(64);
    var l: int :| d == n + l * Pow2(64);
    assert (Pow2(64) as int) * (k - l) == c - d;
    SmallMultiple(Pow2(64), k - l, c - d);
  }

  lemma ShiftUnique(a: int, n: nat, c: int, d: int)
    requires c * n <= a < c * n + n && d * n <= a < d * n + n
    ensures c == d
  {
    assert (n as int) * (c - d) == c * n - d * n;
    SmallMultiple(n, c - d, c * n - d * n);
  }

  lemma {:induction false} ShiftedSolves(a: int, n: nat)
    ensures ShiftedRight(a, n) * Pow2(n) <= a < ShiftedRight(a, n) * Pow2(n) + Pow2(n)
    decreases n
  {
    if n > 0 {
      ShiftedSolves(a / 2, n - 1);
      var c, p := ShiftedRight(a / 2, n - 1), Pow2(n - 1);
      assert c * Pow2(n) == 2 * (c * p);
    }
  }

  lemma WrappedSolves(i: int)
    ensures exists k: int :: Wrapped(i) == i + k * Pow2(64)
  {
    Pow2Values();
    var m := 0x1_0000_0000_0000_0000;
    var k := -((i - MIN) / m);
    assert Wrapped(i) == i + k * m;
  }

  /** Every integer operator meets its specification, and nothing else does. */
  lemma IntOpComputes(op: BinOp, a: int, b: int)
    requires Word(a) && Word(b)
    ensures Computes(op, a, b, IntOp(op, a, b))
  {
    Pow2Values();
    if Compares(op) {
    } else if (op == Div || op == Rem) && b == 0 {
    } else if (op == Shl || op == Shr) && !(0 <= b < 64) {
    } else {
      WordOpComputes(op, a, b);
    }
  }

  lemma WordOpComputes(op: BinOp, a: int, b: int)
    requires Word(a) && Word(b) && !Compares(op)
    requires op == Div || op == Rem ==> b != 0
    requires op == Shl || op == Shr ==> 0 <= b < 64
    ensures match IntOp(op, a, b)
      case Ok(v) => v.Int? && Word(v.i) && Solves(op, a, b, v.i)
      case Err(e) => e == Overflow && forall c :: Word(c) ==> !Solves(op, a, b, c)
  {
    match op
    case Add | Sub | Mul => SumComputes(op, a, b);
    case Div | Rem => DivisionComputes(op, a, b);
    case Shl | Shr => ShiftComputes(op, a, b);
    case BitAnd | BitOr | BitXor => BitsCompute(op, a, b);
  }

  lemma SumComputes(op: BinOp, a: int, b: int)
    requires Word(a) && Word(b) && (op == Add || op == Sub || op == Mul)
    ensures match IntOp(op, a, b)
      case Ok(v) => v.Int? && Word(v.i) && Solves(op, a, b, v.i)
      case Err(e) => e == Overflow && forall c :: Word(c) ==> !Solves(op, a, b, c)
  {
    hide Times, Pow2;
    PowerOf63();
    TimesIs(a, Abs(b));
  }

  lemma DivisionComputes(op: BinOp, a: int, b: int)
    requires Word(a) && Word(b) && b != 0 && (op == Div || op == Rem)
    ensures match IntOp(op, a, b)
      case Ok(v) => v.Int? && Word(v.i) && Solves(op, a, b, v.i)
      case Err(e) => e == Overflow && forall c :: Word(c) ==> !Solves(op, a, b, c)
  {
    hide Pow2, Quotient;
    PowerOf63();
    var q, r := Quotient(a, b), a - b * Quotient(a, b);
    RemainderIsSmall(a, b);
    assert Divides(a, b, q, r);
    QuotientFits(a, b);
    forall c, d | Divides(a, b, c, d)
      ensures c == q && d == r
    {
      DivisionUnique(a, b, c, d);
    }
  }

  lemma HalfAtMost(a: nat, b: nat)
    requires b >= 2
    ensures 2 * (a / b) <= a
  {
    assert a == b * (a / b) + a % b;
    assert (b - 2) * (a / b) >= 0;
  }

  /** One quotient of words is no word. */
  lemma QuotientFits(a: int, b: int)
    requires Word(a) && Word(b) && b != 0
    ensures Word(Quotient(a, b)) <==> !(a == MIN && b == -1)
    ensures Word(a - b * Quotient(a, b))
  {
    hide Pow2, Quotient;
    PowerOf63();
    RemainderIsSmall(a, b);
    QuotientSize(a, b);
    if Abs(b) >= 2 {
      HalfAtMost(Abs(a), Abs(b));
    }
  }

  lemma QuotientSize(a: int, b: int)
    requires b != 0
    ensures Abs(b) >= 2 ==> Abs(Quotient(a, b)) == Abs(a) / Abs(b)
    ensures Abs(b) == 1 ==> Quotient(a, b) == (if b < 0 then -a else a)
  {
    Shares(Abs(a), Abs(b));
    SignedQuotient(a, b, Abs(a) / Abs(b));
  }

  lemma Shares(n: nat, m: nat)
    requires m > 0
    ensures n / m >= 0 && (m == 1 ==> n / m == n)
  {
  }

  lemma SignedQuotient(a: int, b: int, q: int)
    requires b != 0 && Abs(a) / Abs(b) == q
    ensures Quotient(a, b) == if (a < 0) == (b < 0) then q else -q
  {
  }

  lemma ShiftComputes(op: BinOp, a: int, b: int)
    requires Word(a) && Word(b) && 0 <= b < 64 && (op == Shl || op == Shr)
    ensures IntOp(op, a, b).Ok? && var v := IntOp(op, a, b).value; v.Int? && Word(v.i) && Solves(op, a, b, v.i)
  {
    hide Pow2, Wrapped, ShiftedRight;
    PowerOf63();
    Pow2Values();
    IntOpStaysInRange(op, a, b);
    WrappedSolves(a * Pow2(b));
    ShiftedSolves(a, b);
  }

  lemma BitsCompute(op: BinOp, a: int, b: int)
    requires Word(a) && Word(b) && (op == BitAnd || op == BitOr || op == BitXor)
    ensures IntOp(op, a, b).Ok? && var v := IntOp(op, a, b).value; v.Int? && Word(v.i) && Solves(op, a, b, v.i)
  {
    hide Pow2, Bitwise, Bit;
    PowerOf63();
    IntOpStaysInRange(op, a, b);
    forall f: (bool, bool) -> bool, k: nat
      ensures Bit(Bitwise(f, a, b), k) == f(Bit(a, k), Bit(b, k))
    {
      BitwiseBits(f, a, b, k);
    }
  }

  // ----- all values -----

  /** The place `k` is where `a` comes before `b`. */
  predicate BeforeAt(a: string, b: string, k: nat) {
    k <= |a| && k < |b| && a[..k] == b[..k] && (k == |a| || a[k] < b[k])
  }

  /** At the first place where they differ, `a` has the smaller character or has ended. */
  ghost predicate Before(a: string, b: string) {
    exists k: nat :: BeforeAt(a, b, k)
  }

  lemma BeforeAtSkips(a: string, b: string, k: nat)
    requires a != [] && b != [] && a[0] == b[0]
    ensures BeforeAt(a, b, k + 1) <==> BeforeAt(a[1..], b[1..], k)
  {
    if k <= |a| - 1 && k < |b| - 1 {
      assert a[..k + 1] == [a[0]] + a[1..][..k] && b[..k + 1] == [b[0]] + b[1..][..k];
      assert a[1..][..k] == a[..k + 1][1..] && b[1..][..k] == b[..k + 1][1..];
    }
  }

  lemma BeforeSkips(a: string, b: string)
    requires a != [] && b != [] && a[0] == b[0]
    ensures Before(a, b) <==> Before(a[1..], b[1..])
  {
    assert !BeforeAt(a, b, 0);
    if Before(a[1..], b[1..]) {
      var k: nat :| BeforeAt(a[1..], b[1..], k);
      BeforeAtSkips(a, b, k);
    }
    if Before(a, b) {
      var k: nat :| BeforeAt(a, b, k);
      BeforeAtSkips(a, b, k - 1);
    }
  }

  lemma BeforeStarts(a: string, b: string)
    requires a == [] || b == [] || a[0] != b[0]
    ensures Before(a, b) <==> b != [] && (a == [] || a[0] < b[0])
  {
    if b != [] && (a == [] || a[0] < b[0]) {
      assert BeforeAt(a, b, 0);
    }
    forall k: nat | k > 0
      ensures !BeforeAt(a, b, k)
    {
      if k <= |a| && k < |b| {
        assert a[..k][0] == a[0] && b[..k][0] == b[0];
      }
    }
  }

  lemma {:induction false} BeforeIsLess(a: string, b: string)
    ensures StrLess(a, b) <==> Before(a, b)
  {
    hide Before;
    if b != [] && a != [] && a[0] == b[0] {
      BeforeIsLess(a[1..], b[1..]);
      BeforeSkips(a, b);
    } else {
      BeforeStarts(a, b);
    }
  }

  ghost predicate Orders(op: BinOp, a: string, b: string) {
    match op
    case Eq => a == b
    case Ne => a != b
    case Lt => Before(a, b)
    case Le => Before(a, b) || a == b
    case Gt => Before(b, a)
    case Ge => Before(b, a) || a == b
    case _ => false
  }

  /** The specification of an operator on two values: integers compute, strings join and
      compare, lists and truth values only equal each other, and nothing else combines. */
  ghost predicate Combines(op: BinOp, l: Value, r: Value, o: Result<Value, Error>) {
    match (l, r)
    case (Int(a), Int(b)) => Computes(op, a, b, o)
    case (Str(a), Str(b)) =>
      if Compares(op) then o == Ok(Bool(Orders(op, a, b)))
      else if op == Add then o.Ok? && o.value.Str? && a <= o.value.s && o.value.s[|a|..] == b
      else o == Err(WrongType)
    case _ =>
      if (op == Eq || op == Ne) && ((l.List? && r.List?) || (l.Bool? && r.Bool?)) then o == Ok(Bool((l == r) == (op == Eq)))
      else o == Err(WrongType)
  }

  predicate Sized(v: Value) { v.Int? ==> Word(v.i) }

  lemma BinaryCombines(op: BinOp, l: Value, r: Value)
    requires Sized(l) && Sized(r)
    ensures Combines(op, l, r, Binary(op, l, r))
  {
    hide IntOp, StrOp, Computes, Word;
    match (l, r)
    case (Int(a), Int(b)) => IntOpComputes(op, a, b);
    case (Str(a), Str(b)) => StrOpCombines(op, a, b);
    case _ =>
  }

  lemma StrOpCombines(op: BinOp, a: string, b: string)
    ensures Combines(op, Str(a), Str(b), StrOp(op, a, b))
  {
    hide StrLess;
    BeforeIsLess(a, b);
    BeforeIsLess(b, a);
    TextTotal(a, b);
  }

  lemma TextTotal(a: string, b: string)
    ensures StrLess(a, b) || StrLess(b, a) || a == b
    ensures !(StrLess(a, b) && StrLess(b, a)) && !StrLess(a, a)
  {
    var lt := (c: char, d: char) => c < d;
    Lexicographic.LessTotal(lt, a, b);
    Lexicographic.LessIrreflexive(lt, a);
    if StrLess(a, b) && StrLess(b, a) {
      Lexicographic.LessTransitive(lt, a, b, a);
    }
  }

  /** The specification of the prefix operators. */
  ghost predicate Turns(op: UnOp, v: Value, o: Result<Value, Error>) {
    match (op, v)
    case (Neg, Int(i)) =>
      if o.Ok? then o.value.Int? && Word(o.value.i) && o.value.i + i == 0
      else o.error == Overflow && forall c :: Word(c) ==> c + i != 0
    case (BitNot, Int(i)) => o.Ok? && o.value.Int? && Word(o.value.i) && forall k: nat :: Bit(o.value.i, k) != Bit(i, k)
    case (Not, Bool(b)) => o.Ok? && o.value.Bool? && o.value.b != b
    case _ => o == Err(WrongType)
  }

  lemma UnaryTurns(op: UnOp, v: Value)
    requires Sized(v)
    ensures Turns(op, v, ComptimeValues.Unary(op, v))
  {
    hide Bit, Pow2;
    PowerOf63();
    if op == BitNot && v.Int? {
      forall k: nat
        ensures Bit(-1 - v.i, k) != Bit(v.i, k)
      {
        ComplementBits(v.i, k);
      }
    }
  }

  lemma {:induction false} ComplementBits(i: int, k: nat)
    ensures Bit(-1 - i, k) != Bit(i, k)
    decreases k
  {
    hide Bit;
    BitStep(i, if k > 0 then k - 1 else 0);
    BitStep(-1 - i, if k > 0 then k - 1 else 0);
    if k > 0 {
      ComplementBits(i / 2, k - 1);
    }
  }

  // ----- evaluation -----

  lemma ArithIs(p: Program, op: BinOp, l: Expr, r: Expr, s: State)
    requires |s.env| > 0 && s.fuel > 0
    ensures var both := EvalBoth(p, l, r, s.Spent()).0;
      Eval(p, Arith(op, l, r), s).0 == if both.Ok? then Binary(op, both.value.0, both.value.1) else Err(both.error)
  {
    hide Binary, EvalName, EvalAll, EvalRepeat, EvalBoth, EvalLogic, EvalAssign, EvalIf, EvalBlock, EvalFor, EvalCall;
  }

  /** Every value of a run is one that the specifications speak of. */
  lemma RunsAreSized(p: Program, e: Expr, s: State, cap: nat)
    requires |s.env| > 0 && Within(s, cap)
    ensures var (r, s1) := Eval(p, e, s); r.Ok? ==> Sized(r.value) && Within(s1, cap)
  {
    hide Eval, EnvSmall;
    WordIs(MIN);
    Bounded(p, e, s, cap);
    var r := Eval(p, e, s).0;
    if r.Ok? && r.value.Int? {
      WordIs(r.value.i);
    }
  }

  /** Operands are evaluated from left to right, the first error ends the evaluation, and the
      result is what the operator's specification says; this in every state a run can be in. */
  lemma OperatorMeans(p: Program, op: BinOp, l: Expr, r: Expr, s: State, cap: nat)
    requires |s.env| > 0 && s.fuel > 0 && Within(s, cap)
    ensures var (a, s1) := Eval(p, l, s.Spent());
      var o := Eval(p, Arith(op, l, r), s).0;
      if a.Err? then o == a
      else
        var b := Eval(p, r, s1).0;
        if b.Err? then o == b else Combines(op, a.value, b.value, o)
  {
    hide Combines, Binary, Sized, Eval, Within;
    ArithIs(p, op, l, r, s);
    WithinShrinks(s, s.fuel - 1, cap);
    RunsAreSized(p, l, s.Spent(), cap);
    var (a, s1) := Eval(p, l, s.Spent());
    if a.Ok? {
      RunsAreSized(p, r, s1, cap);
      var b := Eval(p, r, s1).0;
      if b.Ok? {
        BinaryCombines(op, a.value, b.value);
      }
    }
  }

  lemma PrefixMeans(p: Program, op: UnOp, e: Expr, s: State, cap: nat)
    requires |s.env| > 0 && s.fuel > 0 && Within(s, cap)
    ensures var a := Eval(p, e, s.Spent()).0;
      var o := Eval(p, Expr.Unary(op, e), s).0;
      if a.Err? then o == a else Turns(op, a.value, o)
  {
    hide Turns, ComptimeValues.Unary, Sized, Within;
    hide EvalName, EvalAll, EvalRepeat, EvalBoth, EvalLogic, EvalAssign, EvalIf, EvalBlock, EvalFor, EvalCall;
    WithinShrinks(s, s.fuel - 1, cap);
    RunsAreSized(p, e, s.Spent(), cap);
    var a := Eval(p, e, s.Spent()).0;
    if a.Ok? {
      UnaryTurns(op, a.value);
    }
  }

  /** A constant that is one operation on two others has what the operator's specification
      says of their values, whatever these are. */
  lemma ConstantMeans(p: Program, op: BinOp, l: Expr, r: Expr)
    ensures var s := Fresh([[]]).Spent();
      var (a, s1) := Eval(p, l, s);
      a.Ok? && Eval(p, r, s1).0.Ok? ==> Combines(op, a.value, Eval(p, r, s1).0.value, EvalTop(p, Arith(op, l, r)))
  {
    hide Eval, Combines;
    OperatorMeans(p, op, l, r, Fresh([[]]), FUEL);
  }

  /** What `place op= v` leaves in a place that held `cur`. */
  ghost predicate Leaves(op: Option<BinOp>, cur: Value, v: Value, o: Result<Value, Error>) {
    match op
    case None => o == Ok(v)
    case Some(bin) =>
      if (cur.Int? && v.Int?) || (cur.Str? && v.Str? && bin == Add) then Combines(bin, cur, v, o)
      else o == Err(WrongType)
  }

  lemma CompoundLeaves(op: Option<BinOp>, cur: Value, v: Value)
    requires Sized(cur) && Sized(v)
    ensures Leaves(op, cur, v, Compound(op, cur, v))
  {
    hide IntOp, Word, Computes;
    if op.Some? && cur.Int? && v.Int? {
      IntOpComputes(op.value, cur.i, v.i);
    }
  }

  /** An assignment reads what its place holds, stores what the operator makes of it there,
      and touches no other place; its errors are those of the place and of the operator. */
  lemma UpdateMeans(op: Option<BinOp>, x: Ident, path: seq<nat>, v: Value, env: Env, y: Ident, other: seq<nat>)
    requires Read(env, x, path).Ok? ==> Sized(Read(env, x, path).value)
    requires Sized(v)
    ensures var was, r := Read(env, x, path), Update(op, (x, path), v, env);
      if was.Err? then r.Err? && r.error == was.error
      else if r.Err? then Leaves(op, was.value, v, Err(r.error))
      else
        var now := Read(r.value, x, path);
        && now.Ok? && Leaves(op, was.value, v, now)
        && (y != x || Apart(path, other) ==> Read(r.value, y, other) == Read(env, y, other))
  {
    hide Read, Write, Compound, Leaves, Sized, Apart;
    var was := Read(env, x, path);
    if was.Ok? {
      CompoundLeaves(op, was.value, v);
      var new_ := Compound(op, was.value, v);
      if new_.Ok? {
        WriteReads(env, x, path, new_.value, y, other);
      }
    }
  }

  lemma PlaceKept(p: Program, target: Expr, s: State, cap: nat)
    requires |s.env| > 0 && Within(s, cap)
    ensures var (place, s1) := EvalPlace(p, target, s); place.Ok? ==> Within(s1, cap)
  {
    BoundedPlace(p, target, s, cap);
  }

  lemma ReadSized(env: Env, x: Ident, path: seq<nat>, k: int)
    requires EnvSmall(env, k) && Read(env, x, path).Ok?
    ensures Sized(Read(env, x, path).value)
  {
    hide ReadPath, FindIn, Word;
    var at := Find(env, x).value;
    assert ScopeSmall(env[at.0], k);
    ReadSmall(env[at.0][at.1].1, path, k);
    var v := Read(env, x, path).value;
    WordIs(if v.Int? then v.i else 0);
  }

  lemma AssignIs(p: Program, op: Option<BinOp>, target: Expr, value: Expr, s: State)
    requires |s.env| > 0 && s.fuel > 0
    ensures Eval(p, Assign(op, target, value), s) == EvalAssign(p, op, target, value, s.Spent())
  {
    hide EvalName, EvalAll, EvalRepeat, EvalBoth, EvalLogic, EvalAssign, EvalIf, EvalBlock, EvalFor, EvalCall;
  }

  /** An assignment evaluates its value, then its place, and then leaves in the place what the
      operator makes of the two, all other places as they were. */
  lemma AssignMeans(p: Program, op: Option<BinOp>, target: Expr, value: Expr, s: State, cap: nat, y: Ident, other: seq<nat>)
    requires |s.env| > 0 && s.fuel > 0 && Within(s, cap)
    ensures var (v, s1) := Eval(p, value, s.Spent());
      var (o, end) := Eval(p, Assign(op, target, value), s);
      if v.Err? then o == v
      else
        var (place, s2) := EvalPlace(p, target, s1);
        if place.Err? then o == Err(place.error)
        else
          var (x, path) := place.value;
          var was := Read(s2.env, x, path);
          if was.Err? then o == Err(was.error)
          else if o.Err? then Leaves(op, was.value, v.value, Err(o.error))
          else
            var now := Read(end.env, x, path);
            && o.value == Unit && now.Ok? && Leaves(op, was.value, v.value, now)
            && (y != x || Apart(path, other) ==> Read(end.env, y, other) == Read(s2.env, y, other))
  {
    hide Eval, EvalPlace, Update, Read, Leaves, Sized, Apart, EnvSmall;
    AssignIs(p, op, target, value, s);
    WithinShrinks(s, s.fuel - 1, cap);
    RunsAreSized(p, value, s.Spent(), cap);
    var (v, s1) := Eval(p, value, s.Spent());
    if v.Ok? {
      PlaceKept(p, target, s1, cap);
      var (place, s2) := EvalPlace(p, target, s1);
      if place.Ok? {
        var (x, path) := place.value;
        if Read(s2.env, x, path).Ok? {
          ReadSized(s2.env, x, path, cap - s2.fuel);
        }
        UpdateMeans(op, x, path, v.value, s2.env, y, other);
      }
    }
  }
}
