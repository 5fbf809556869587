/** Values of the compile-time interpreter: checked arithmetic, environments, and the
    index paths that assignments write through. */
module ComptimeValues {
  import opened Wrappers
  import Lexicographic
  import opened Scattering

  type Ident = string

  datatype Value = Int(i: int) | Bool(b: bool) | Str(s: string) | List(items: seq<Value>) | Unit

  datatype Error =
    | OutOfFuel
    | TooDeep
    | NotConstant
    | Cyclic
    | WrongType
    | OutOfRange
    | LargeLiteral
    | Overflow
    | DivisionByZero
    | NegativeShift
    | LargeShift
    | NoInitializer
    | LoopShape
    | ZeroStep
    | OpenRange
    | BadTarget
    | NotCallable
    | BadArity

  // ----- integers -----

  const MIN: int := -0x8000_0000_0000_0000
  const MAX: int := 0x7FFF_FFFF_FFFF_FFFF

  datatype BinOp = Add | Sub | Mul | Div | Rem | BitAnd | BitOr | BitXor | Shl | Shr | Eq | Ne | Lt | Le | Gt | Ge
  datatype UnOp = Neg | Not | BitNot

  function Checked(i: int): Result<Value, Error> {
    if MIN <= i <= MAX then Ok(Int(i)) else Err(Overflow)
  }

  function Literal(i: int): Result<Value, Error> {
    if MIN <= i <= MAX then Ok(Int(i)) else Err(LargeLiteral)
  }

  function Abs(a: int): nat { if a < 0 then -a else a }

  /** Division that rounds towards zero. */
  function Quotient(a: int, b: int): int
    requires b != 0
  {
    if (a < 0) == (b < 0) then Abs(a) / Abs(b) else -(Abs(a) / Abs(b))
  }

  /** The arithmetic shift: one rounding-down halving for each bit. */
  function ShiftedRight(a: int, n: nat): int
    decreases n
  {
    if n == 0 then a else ShiftedRight(a / 2, n - 1)
  }

  /** The 64-bit word that keeps the low bits of `i`. */
  function Wrapped(i: int): (r: int)
    ensures MIN <= r <= MAX
  {
    (i - MIN) % 0x1_0000_0000_0000_0000 + MIN
  }

  /** A bit operation on two's-complement words, from the sign down. */
  function Bitwise(op: (bool, bool) -> bool, a: int, b: int): int
    decreases Abs(a) + Abs(b)
  {
    if -1 <= a <= 0 && -1 <= b <= 0 then (if op(a != 0, b != 0) then -1 else 0)
    else 2 * Bitwise(op, a / 2, b / 2) + (if op(a % 2 == 1, b % 2 == 1) then 1 else 0)
  }

  function IntOp(op: BinOp, a: int, b: int): Result<Value, Error> {
    match op
    case Add => Checked(a + b)
    case Sub => Checked(a - b)
    case Mul => Checked(a * b)
    case Div => if b == 0 then Err(DivisionByZero) else Checked(Quotient(a, b))
    case Rem =>
      if b == 0 then Err(DivisionByZero)
      else if a == MIN && b == -1 then Err(Overflow)
      else Ok(Int(a - b * Quotient(a, b)))
    case Shl =>
      if !(0 <= b < 0x1_0000_0000) then Err(NegativeShift)
      else if b >= 64 then Err(LargeShift)
      else Ok(Int(Wrapped(a * Pow2(b))))
    case Shr =>
      if !(0 <= b < 0x1_0000_0000) then Err(NegativeShift)
      else if b >= 64 then Err(LargeShift)
      else Ok(Int(ShiftedRight(a, b)))
    case BitAnd => Ok(Int(Bitwise((x, y) => x && y, a, b)))
    case BitOr => Ok(Int(Bitwise((x, y) => x || y, a, b)))
    case BitXor => Ok(Int(Bitwise((x, y) => x != y, a, b)))
    case Eq => Ok(Bool(a == b))
    case Ne => Ok(Bool(a != b))
    case Lt => Ok(Bool(a < b))
    case Le => Ok(Bool(a <= b))
    case Gt => Ok(Bool(a > b))
    case Ge => Ok(Bool(a >= b))
  }

  /** Words stay words, so no integer the evaluator holds ever leaves 64 bits. */
  lemma IntOpStaysInRange(op: BinOp, a: int, b: int)
    requires MIN <= a <= MAX && MIN <= b <= MAX
    ensures IntOp(op, a, b).Ok? && IntOp(op, a, b).value.Int? ==> MIN <= IntOp(op, a, b).value.i <= MAX
  {
    hide Quotient, Wrapped, ShiftedRight, Bitwise, Pow2;
    Pow2Values();
    assert Pow2(63) == 0x8000_0000_0000_0000 by { PowerOf63(); }
    match op
    case Rem => if b != 0 { RemainderIsSmall(a, b); }
    case Shr => if 0 <= b < 64 { ShiftedStaysInRange(a, b); }
    case BitAnd => BitwiseStaysInRange((x, y) => x && y, a, b, 63);
    case BitOr => BitwiseStaysInRange((x, y) => x || y, a, b, 63);
    case BitXor => BitwiseStaysInRange((x, y) => x != y, a, b, 63);
    case _ =>
  }

  lemma {:induction false} ShiftedStaysInRange(a: int, n: nat)
    ensures a >= 0 ==> 0 <= ShiftedRight(a, n) <= a
    ensures a < 0 ==> a <= ShiftedRight(a, n) < 0
    decreases n
  {
    if n > 0 {
      ShiftedStaysInRange(a / 2, n - 1);
    }
  }

  lemma RemainderIsSmall(a: int, b: int)
    requires b != 0
    ensures Abs(a - b * Quotient(a, b)) < Abs(b)
    ensures a - b * Quotient(a, b) == 0 || (a - b * Quotient(a, b) < 0) == (a < 0)
  {
    var q, r := Abs(a) / Abs(b), Abs(a) % Abs(b);
    assert Abs(a) == Abs(b) * q + r;
    if a < 0 {
      if b < 0 { assert a - b * Quotient(a, b) == -r; } else { assert b * Quotient(a, b) == -(b * q); assert a - b * Quotient(a, b) == -r; }
    } else {
      if b < 0 { assert b * Quotient(a, b) == Abs(b) * q; assert a - b * Quotient(a, b) == r; } else { assert a - b * Quotient(a, b) == r; }
    }
  }

  lemma PowerOf63()
    ensures Pow2(63) == 0x8000_0000_0000_0000
  {
    Pow2Values();
    assert Pow2(64) == 2 * Pow2(63);
  }

  predicate Fits(a: int, n: nat) { -(Pow2(n) as int) <= a < Pow2(n) }

  lemma {:induction false} BitwiseStaysInRange(op: (bool, bool) -> bool, a: int, b: int, n: nat)
    requires Fits(a, n) && Fits(b, n)
    ensures Fits(Bitwise(op, a, b), n)
    decreases n
  {
    if !(-1 <= a <= 0 && -1 <= b <= 0) {
      BitwiseStaysInRange(op, a / 2, b / 2, n - 1);
    }
  }

  function Binary(op: BinOp, l: Value, r: Value): Result<Value, Error> {
    match (l, r)
    case (Int(a), Int(b)) => IntOp(op, a, b)
    case (List(a), List(b)) => Equality(op, l, r)
    case (Bool(a), Bool(b)) => Equality(op, l, r)
    case (Str(a), Str(b)) => StrOp(op, a, b)
    case _ => Err(WrongType)
  }

  function Equality(op: BinOp, l: Value, r: Value): Result<Value, Error> {
    match op
    case Eq => Ok(Bool(l == r))
    case Ne => Ok(Bool(l != r))
    case _ => Err(WrongType)
  }

  predicate StrLess(a: string, b: string) { Lexicographic.Less((c: char, d: char) => c < d, a, b) }

  function StrOp(op: BinOp, a: string, b: string): Result<Value, Error> {
    match op
    case Add => Ok(Str(a + b))
    case Lt => Ok(Bool(StrLess(a, b)))
    case Le => Ok(Bool(!StrLess(b, a)))
    case Gt => Ok(Bool(StrLess(b, a)))
    case Ge => Ok(Bool(!StrLess(a, b)))
    case _ => Equality(op, Str(a), Str(b))
  }

  function Unary(op: UnOp, v: Value): Result<Value, Error> {
    match (op, v)
    case (Neg, Int(i)) => Checked(-i)
    case (Not, Bool(b)) => Ok(Bool(!b))
    case (BitNot, Int(i)) => Ok(Int(-1 - i))
    case _ => Err(WrongType)
  }

  /** `op=` on a place: fewer operand types than the operator itself. */
  function Compound(op: Option<BinOp>, cur: Value, v: Value): Result<Value, Error> {
    match op
    case None => Ok(v)
    case Some(bin) =>
      if cur.Int? && v.Int? then IntOp(bin, cur.i, v.i)
      else if cur.Str? && v.Str? && bin == Add then Ok(Str(cur.s + v.s))
      else Err(WrongType)
  }

  function AsIndex(v: Value): Result<nat, Error> {
    if v.Int? && v.i >= 0 then Ok(v.i) else Err(WrongType)
  }

  function Element(list: Value, index: Value): Result<Value, Error> {
    if !list.List? then Err(WrongType)
    else
      match AsIndex(index)
      case Err(e) => Err(e)
      case Ok(i) => if i < |list.items| then Ok(list.items[i]) else Err(OutOfRange)
  }

  /** A length or a position, cast to a 64-bit word. */
  function Counted(n: nat): Value { Int(Wrapped(n)) }

  function Length(v: Value): Result<Value, Error> {
    match v
    case List(items) => Ok(Counted(|items|))
    case Str(s) => Ok(Counted(|s|))
    case _ => Err(WrongType)
  }

  // ----- environments -----

  type Scope = seq<(Ident, Value)>
  type Env = seq<Scope>

  function FindIn(scope: Scope, x: Ident): (j: Option<nat>)
    ensures j.Some? ==> j.value < |scope| && scope[j.value].0 == x
    ensures j.Some? ==> forall k :: j.value < k < |scope| ==> scope[k].0 != x
    ensures j.None? ==> forall k :: 0 <= k < |scope| ==> scope[k].0 != x
  {
    if scope == [] then None
    else if scope[|scope| - 1].0 == x then Some(|scope| - 1)
    else FindIn(scope[..|scope| - 1], x)
  }

  /** The innermost scope that binds `x`, and its latest binding there. */
  function Find(env: Env, x: Ident): (at: Option<(nat, nat)>)
    ensures at.Some? ==> at.value.0 < |env| && FindIn(env[at.value.0], x) == Some(at.value.1)
    ensures at.Some? ==> forall i :: at.value.0 < i < |env| ==> FindIn(env[i], x).None?
    ensures at.None? ==> forall i :: 0 <= i < |env| ==> FindIn(env[i], x).None?
  {
    if env == [] then None
    else
      var last := |env| - 1;
      match FindIn(env[last], x)
      case Some(j) => Some((last, j))
      case None => Find(env[..last], x)
  }

  function Lookup(env: Env, x: Ident): Option<Value> {
    match Find(env, x)
    case None => None
    case Some(at) => Some(env[at.0][at.1].1)
  }

  function Bind(env: Env, x: Ident, v: Value): (r: Env)
    requires |env| > 0
    ensures |r| == |env|
  {
    env[|env| - 1 := env[|env| - 1] + [(x, v)]]
  }

  function ReadPath(v: Value, path: seq<nat>): Result<Value, Error> {
    if path == [] then Ok(v)
    else if !v.List? then Err(WrongType)
    else if path[0] >= |v.items| then Err(OutOfRange)
    else ReadPath(v.items[path[0]], path[1..])
  }

  function WritePath(v: Value, path: seq<nat>, new_: Value): Result<Value, Error> {
    if path == [] then Ok(new_)
    else if !v.List? then Err(WrongType)
    else if path[0] >= |v.items| then Err(OutOfRange)
    else
      match WritePath(v.items[path[0]], path[1..], new_)
      case Err(e) => Err(e)
      case Ok(item) => Ok(List(v.items[path[0] := item]))
  }

  function Read(env: Env, x: Ident, path: seq<nat>): Result<Value, Error> {
    match Lookup(env, x)
    case None => Err(NotConstant)
    case Some(v) => ReadPath(v, path)
  }

  function Store(env: Env, at: (nat, nat), v: Value): (r: Env)
    requires at.0 < |env| && at.1 < |env[at.0]|
    ensures |r| == |env|
  {
    env[at.0 := env[at.0][at.1 := (env[at.0][at.1].0, v)]]
  }

  function Write(env: Env, x: Ident, path: seq<nat>, new_: Value): (r: Result<Env, Error>)
    ensures r.Ok? ==> |r.value| == |env|
  {
    match Find(env, x)
    case None => Err(NotConstant)
    case Some(at) =>
      match WritePath(env[at.0][at.1].1, path, new_)
      case Err(e) => Err(e)
      case Ok(v) => Ok(Store(env, at, v))
  }

  /** Two paths part ways when neither leads through the other. */
  predicate Apart(a: seq<nat>, b: seq<nat>) {
    !(a <= b) && !(b <= a)
  }

  lemma {:induction false} WritePathReads(v: Value, path: seq<nat>, new_: Value, other: seq<nat>)
    requires ReadPath(v, path).Ok?
    ensures WritePath(v, path, new_).Ok?
    ensures ReadPath(WritePath(v, path, new_).value, path) == Ok(new_)
    ensures Apart(path, other) ==> ReadPath(WritePath(v, path, new_).value, other) == ReadPath(v, other)
    decreases |path|
  {
    if path != [] {
      if other != [] && other[0] == path[0] {
        assert Apart(path, other) ==> Apart(path[1..], other[1..]) by {
          assert path == [path[0]] + path[1..] && other == [other[0]] + other[1..];
        }
        WritePathReads(v.items[path[0]], path[1..], new_, other[1..]);
      } else {
        WritePathReads(v.items[path[0]], path[1..], new_, path[1..]);
      }
    }
  }

  lemma {:induction false} WritePathFails(v: Value, path: seq<nat>, new_: Value)
    ensures ReadPath(v, path).Err? ==> WritePath(v, path, new_) == Err(ReadPath(v, path).error)
    ensures ReadPath(v, path).Ok? ==> WritePath(v, path, new_).Ok?
    decreases |path|
  {
    if path != [] && v.List? && path[0] < |v.items| {
      WritePathFails(v.items[path[0]], path[1..], new_);
    }
  }

  lemma {:induction false} StoreFinds(env: Env, at: (nat, nat), v: Value, x: Ident)
    requires at.0 < |env| && at.1 < |env[at.0]|
    ensures Find(Store(env, at, v), x) == Find(env, x)
  {
    var was, now := env[at.0], Store(env, at, v)[at.0];
    SameNamesSameFind(was, now, x);
    SameScopesSameFind(env, Store(env, at, v), x);
  }

  lemma {:induction false} SameNamesSameFind(a: Scope, b: Scope, x: Ident)
    requires |a| == |b| && forall i :: 0 <= i < |a| ==> a[i].0 == b[i].0
    ensures FindIn(a, x) == FindIn(b, x)
  {
    if a != [] {
      SameNamesSameFind(a[..|a| - 1], b[..|b| - 1], x);
    }
  }

  lemma {:induction false} SameScopesSameFind(a: Env, b: Env, x: Ident)
    requires |a| == |b| && forall i :: 0 <= i < |a| ==> FindIn(a[i], x) == FindIn(b[i], x)
    ensures Find(a, x) == Find(b, x)
  {
    if a != [] {
      SameScopesSameFind(a[..|a| - 1], b[..|b| - 1], x);
    }
  }

  /** Assignment changes one place: it reads back the value written, places apart from it
      and every other name keep theirs. */
  lemma WriteReads(env: Env, x: Ident, path: seq<nat>, new_: Value, y: Ident, other: seq<nat>)
    requires Read(env, x, path).Ok?
    ensures Write(env, x, path, new_).Ok?
    ensures Read(Write(env, x, path, new_).value, x, path) == Ok(new_)
    ensures y != x || Apart(path, other) ==>
      Read(Write(env, x, path, new_).value, y, other) == Read(env, y, other)
  {
    hide Find, ReadPath, WritePath;
    var at := Find(env, x).value;
    var v := env[at.0][at.1].1;
    WritePathReads(v, path, new_, other);
    StoreFinds(env, at, WritePath(v, path, new_).value, x);
    StoreFinds(env, at, WritePath(v, path, new_).value, y);
  }
}
