/** The lexicographic order on sequences, over any strict total order of elements. */
module Lexicographic {
  ghost predicate StrictTotal<T(!new)>(lt: (T, T) -> bool) {
    && (forall x :: !lt(x, x))
    && (forall x, y :: lt(x, y) || lt(y, x) || x == y)
    && (forall x, y, z :: lt(x, y) && lt(y, z) ==> lt(x, z))
  }

  predicate Less<T(==)>(lt: (T, T) -> bool, a: seq<T>, b: seq<T>) {
    if b == [] then false
    else if a == [] then true
    else lt(a[0], b[0]) || (a[0] == b[0] && Less(lt, a[1..], b[1..]))
  }

  lemma {:induction false} LessTotal<T(!new)>(lt: (T, T) -> bool, a: seq<T>, b: seq<T>)
    requires StrictTotal(lt)
    ensures Less(lt, a, b) || Less(lt, b, a) || a == b
  {
    if a != [] && b != [] && a[0] == b[0] {
      LessTotal(lt, a[1..], b[1..]);
      assert a == [a[0]] + a[1..] && b == [b[0]] + b[1..];
    }
  }

  lemma {:induction false} LessIrreflexive<T(!new)>(lt: (T, T) -> bool, a: seq<T>)
    requires StrictTotal(lt)
    ensures !Less(lt, a, a)
  {
    if a != [] {
      LessIrreflexive(lt, a[1..]);
    }
  }

  lemma {:induction false} LessTransitive<T(!new)>(lt: (T, T) -> bool, a: seq<T>, b: seq<T>, c: seq<T>)
    requires StrictTotal(lt) && Less(lt, a, b) && Less(lt, b, c)
    ensures Less(lt, a, c)
  {
    if a != [] && a[0] == b[0] && b[0] == c[0] {
      LessTransitive(lt, a[1..], b[1..], c[1..]);
    }
  }

  lemma LessStrictTotal<T(!new)>(lt: (T, T) -> bool)
    requires StrictTotal(lt)
    ensures StrictTotal((a: seq<T>, b: seq<T>) => Less(lt, a, b))
  {
    var less := (a: seq<T>, b: seq<T>) => Less(lt, a, b);
    forall a ensures !less(a, a) { LessIrreflexive(lt, a); }
    forall a, b ensures less(a, b) || less(b, a) || a == b { LessTotal(lt, a, b); }
    forall a, b, c | less(a, b) && less(b, c) ensures less(a, c) { LessTransitive(lt, a, b, c); }
  }
}
