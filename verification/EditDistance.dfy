/** The spelling suggestion: an edit distance in two rows, and the closest known name. */
module EditDistance {
  import opened Wrappers

  // ----- the distance -----

  function Min(x: nat, y: nat): nat { if x <= y then x else y }

  function Front(a: string): string
    requires a != []
  {
    a[..|a| - 1]
  }

  function Change(x: char, y: char): nat { if x == y then 0 else 1 }

  function Dist(a: string, b: string): nat
    decreases |a| + |b|
  {
    if a == [] then |b|
    else if b == [] then |a|
    else
      Min(Min(Dist(Front(a), Front(b)) + Change(a[|a| - 1], b[|b| - 1]), Dist(Front(a), b) + 1), Dist(a, Front(b)) + 1)
  }

  // ----- what it measures: the shortest run of single edits -----

  predicate Inserts(a: string, b: string) {
    exists i :: 0 <= i < |b| && a == b[..i] + b[i + 1..]
  }

  predicate Replaces(a: string, b: string) {
    |a| == |b| && exists i :: 0 <= i < |a| && b == a[i := b[i]]
  }

  predicate EditsOnce(a: string, b: string) { Inserts(a, b) || Inserts(b, a) || Replaces(a, b) }

  predicate Script(steps: seq<string>, a: string, b: string) {
    && |steps| > 0 && steps[0] == a && steps[|steps| - 1] == b
    && forall i :: 0 <= i < |steps| - 1 ==> EditsOnce(steps[i], steps[i + 1])
  }

  // ----- the metric laws -----

  lemma {:induction false} DistOfEnds(a: string, b: string)
    ensures a == [] ==> Dist(a, b) == |b|
    ensures b == [] ==> Dist(a, b) == |a|
    ensures a != [] ==> Dist(a, b) <= Dist(Front(a), b) + 1
    ensures b != [] ==> Dist(a, b) <= Dist(a, Front(b)) + 1
    ensures a != [] && b != [] ==> Dist(a, b) <= Dist(Front(a), Front(b)) + Change(a[|a| - 1], b[|b| - 1])
  {
  }

  lemma {:induction false} DistSymmetric(a: string, b: string)
    ensures Dist(a, b) == Dist(b, a)
    decreases |a| + |b|
  {
    if a != [] && b != [] {
      DistSymmetric(Front(a), Front(b));
      DistSymmetric(Front(a), b);
      DistSymmetric(a, Front(b));
    }
  }

  lemma {:induction false} DistCoversLengths(a: string, b: string)
    ensures |a| - |b| <= Dist(a, b) && |b| - |a| <= Dist(a, b)
    decreases |a| + |b|
  {
    if a != [] && b != [] {
      DistCoversLengths(Front(a), Front(b));
      DistCoversLengths(Front(a), b);
      DistCoversLengths(a, Front(b));
    }
  }

  lemma {:induction false} DistToItself(a: string)
    ensures Dist(a, a) == 0
    decreases |a|
  {
    if a != [] {
      DistToItself(Front(a));
    }
  }

  lemma {:induction false} DistZeroOnlyIfEqual(a: string, b: string)
    requires Dist(a, b) == 0
    ensures a == b
    decreases |a|
  {
    if a != [] && b != [] {
      DistZeroOnlyIfEqual(Front(a), Front(b));
      assert a == Front(a) + [a[|a| - 1]] && b == Front(b) + [b[|b| - 1]];
    }
  }

  lemma {:induction false} DistTriangle(a: string, b: string, c: string)
    ensures Dist(a, c) <= Dist(a, b) + Dist(b, c)
    decreases |a| + |b| + |c|
  {
    if a == [] || b == [] || c == [] {
      DistCoversLengths(a, b);
      DistCoversLengths(b, c);
      DistIsAtMostSum(a, c);
    } else {
      hide Dist;
      DistOfEnds(a, c);
      DistIsOneOf(a, b);
      DistIsOneOf(b, c);
      DistTriangle(Front(a), b, c);
      DistTriangle(a, b, Front(c));
      DistTriangle(a, Front(b), c);
      DistTriangle(a, Front(b), Front(c));
      DistTriangle(Front(a), Front(b), c);
      DistTriangle(Front(a), Front(b), Front(c));
    }
  }

  lemma DistIsOneOf(a: string, b: string)
    requires a != [] && b != []
    ensures || Dist(a, b) == Dist(Front(a), Front(b)) + Change(a[|a| - 1], b[|b| - 1])
            || Dist(a, b) == Dist(Front(a), b) + 1
            || Dist(a, b) == Dist(a, Front(b)) + 1
  {
  }

  lemma {:induction false} DistIsAtMostSum(a: string, b: string)
    ensures Dist(a, b) <= |a| + |b|
    decreases |a|
  {
    if a != [] && b != [] {
      DistIsAtMostSum(Front(a), b);
    }
  }

  // ----- the distance is the length of a shortest script -----

  lemma {:induction false} DistUnderSnoc(a: string, b: string, c: char)
    ensures Dist(a + [c], b + [c]) <= Dist(a, b)
  {
    assert Front(a + [c]) == a && Front(b + [c]) == b;
  }

  lemma {:induction false} DistUnderSuffix(a: string, b: string, tail: string)
    ensures Dist(a + tail, b + tail) <= Dist(a, b)
    decreases |tail|
  {
    hide Dist;
    if tail == [] {
      assert a + tail == a && b + tail == b;
    } else {
      var c := tail[|tail| - 1];
      DistUnderSuffix(a, b, Front(tail));
      DistUnderSnoc(a + Front(tail), b + Front(tail), c);
      LastApart(a, tail);
      LastApart(b, tail);
    }
  }

  lemma LastApart(a: string, tail: string)
    requires tail != []
    ensures a + tail == a + Front(tail) + [tail[|tail| - 1]]
  {
  }

  lemma InsertCostsOne(a: string, b: string)
    requires Inserts(a, b)
    ensures Dist(a, b) <= 1
  {
    var i :| 0 <= i < |b| && a == b[..i] + b[i + 1..];
    hide *;
    assert a == b[..i] + [] + b[i + 1..] && b == b[..i] + [b[i]] + b[i + 1..];
    ChangeInside(b[..i], [], [b[i]], b[i + 1..]);
  }

  lemma ReplaceCostsOne(a: string, b: string)
    requires Replaces(a, b)
    ensures Dist(a, b) <= 1
  {
    var i :| 0 <= i < |a| && b == a[i := b[i]];
    hide *;
    assert a == a[..i] + [a[i]] + a[i + 1..] && b == a[..i] + [b[i]] + a[i + 1..];
    ChangeInside(a[..i], [a[i]], [b[i]], a[i + 1..]);
  }

  /** One character, or none, against one between a common head and tail. */
  lemma ChangeInside(head: string, x: string, y: string, tail: string)
    requires |x| <= 1 && |y| == 1
    ensures Dist(head + x + tail, head + y + tail) <= 1
  {
    hide Dist;
    DistToItself(head);
    DistOfEnds(head + x, head + y);
    assert Front(head + y) == head;
    if x == [] {
      assert head + x == head;
    } else {
      assert Front(head + x) == head;
    }
    DistUnderSuffix(head + x, head + y, tail);
  }

  /** No script is shorter than the distance. */
  lemma {:induction false} ScriptIsLongEnough(steps: seq<string>, a: string, b: string)
    requires Script(steps, a, b)
    ensures Dist(a, b) <= |steps| - 1
    decreases |steps|
  {
    if |steps| == 1 {
      DistToItself(a);
    } else {
      var next := steps[1];
      assert EditsOnce(steps[0], steps[1]);
      var rest := steps[1..];
      forall i | 0 <= i < |rest| - 1 ensures EditsOnce(rest[i], rest[i + 1]) {
        assert EditsOnce(steps[i + 1], steps[i + 2]);
      }
      ScriptIsLongEnough(rest, next, b);
      if Inserts(a, next) { InsertCostsOne(a, next); }
      else if Inserts(next, a) { InsertCostsOne(next, a); DistSymmetric(a, next); }
      else { ReplaceCostsOne(a, next); }
      DistTriangle(a, next, b);
    }
  }

  lemma DropsLast(a: string)
    requires a != []
    ensures EditsOnce(a, Front(a)) && EditsOnce(Front(a), a)
  {
    assert Front(a) == a[..|a| - 1] + a[|a| - 1 + 1..];
  }

  lemma ReplacesLast(a: string, x: char, y: char)
    ensures EditsOnce(a + [x], a + [y])
  {
    assert a + [y] == (a + [x])[|a| := (a + [y])[|a|]];
  }

  /** Some script is exactly as long. */
  lemma {:induction false} ShortestScript(a: string, b: string) returns (steps: seq<string>)
    ensures Script(steps, a, b) && |steps| == Dist(a, b) + 1
    decreases |a| + |b|
  {
    hide EditsOnce, Dist;
    DistOfEnds(a, b);
    if a == [] && b == [] {
      steps := [a];
    } else if b == [] || (a != [] && Dist(a, b) == Dist(Front(a), b) + 1) {
      DistOfEnds(Front(a), b);
      var rest := ShortestScript(Front(a), b);
      DropsLast(a);
      steps := PrependScript(a, rest, Front(a), b);
    } else if a == [] || Dist(a, b) == Dist(a, Front(b)) + 1 {
      DistOfEnds(a, Front(b));
      var rest := ShortestScript(a, Front(b));
      DropsLast(b);
      steps := ExtendScript(rest, a, Front(b), b);
    } else {
      DistIsOneOf(a, b);
      var rest := ShortestScript(Front(a), Front(b));
      var x, y := a[|a| - 1], b[|b| - 1];
      steps := SnocScript(rest, Front(a), Front(b), x);
      assert a == Front(a) + [x] && b == Front(b) + [y];
      if x != y {
        ReplacesLast(Front(b), x, y);
        steps := ExtendScript(steps, a, Front(b) + [x], b);
      }
    }
  }

  lemma PrependScript(a: string, steps: seq<string>, b: string, c: string) returns (longer: seq<string>)
    requires Script(steps, b, c) && EditsOnce(a, b)
    ensures Script(longer, a, c) && |longer| == |steps| + 1
  {
    hide EditsOnce;
    longer := [a] + steps;
    forall i | 0 <= i < |longer| - 1 ensures EditsOnce(longer[i], longer[i + 1]) {
      if i > 0 { assert EditsOnce(steps[i - 1], steps[i]); }
    }
  }

  lemma ExtendScript(steps: seq<string>, a: string, b: string, c: string) returns (longer: seq<string>)
    requires Script(steps, a, b) && EditsOnce(b, c)
    ensures Script(longer, a, c) && |longer| == |steps| + 1
  {
    hide EditsOnce;
    longer := steps + [c];
    forall i | 0 <= i < |longer| - 1 ensures EditsOnce(longer[i], longer[i + 1]) {
      if i < |steps| - 1 { assert EditsOnce(steps[i], steps[i + 1]); }
    }
  }

  lemma SnocScript(steps: seq<string>, a: string, b: string, c: char) returns (moved: seq<string>)
    requires Script(steps, a, b)
    ensures Script(moved, a + [c], b + [c]) && |moved| == |steps|
  {
    hide EditsOnce;
    moved := seq(|steps|, i requires 0 <= i < |steps| => steps[i] + [c]);
    forall i | 0 <= i < |moved| - 1 ensures EditsOnce(moved[i], moved[i + 1]) {
      EditUnderSnoc(steps[i], steps[i + 1], c);
    }
  }

  lemma EditUnderSnoc(a: string, b: string, c: char)
    requires EditsOnce(a, b)
    ensures EditsOnce(a + [c], b + [c])
  {
    if Inserts(a, b) { InsertUnderSnoc(a, b, c); }
    else if Inserts(b, a) { InsertUnderSnoc(b, a, c); }
    else {
      var i :| 0 <= i < |a| && b == a[i := b[i]];
      assert b + [c] == (a + [c])[i := (b + [c])[i]];
      assert Replaces(a + [c], b + [c]);
    }
  }

  lemma InsertUnderSnoc(a: string, b: string, c: char)
    requires Inserts(a, b)
    ensures Inserts(a + [c], b + [c])
  {
    var i :| 0 <= i < |b| && a == b[..i] + b[i + 1..];
    assert a + [c] == (b + [c])[..i] + (b + [c])[i + 1..];
  }

  // ----- the two rows -----

  lemma Cell(a: string, i: nat, b: string, j: nat)
    requires i < |a| && j < |b|
    ensures Dist(a[..i + 1], b[..j + 1]) ==
      Min(Min(Dist(a[..i], b[..j]) + Change(a[i], b[j]), Dist(a[..i], b[..j + 1]) + 1), Dist(a[..i + 1], b[..j]) + 1)
  {
    assert Front(a[..i + 1]) == a[..i] && Front(b[..j + 1]) == b[..j];
  }

  lemma Border(a: string, b: string)
    ensures forall j :: 0 <= j <= |b| ==> Dist(a[..0], b[..j]) == j
    ensures forall i :: 0 <= i <= |a| ==> Dist(a[..i], b[..0]) == i
  {
  }

  /** Row `i` holds the distances from the first `i` characters of `a` to each prefix of `b`. */
  method Levenshtein(a: string, b: string) returns (d: nat)
    ensures d == Dist(a, b)
  {
    hide Dist;
    Border(a, b);
    var prev := new nat[|b| + 1](j => j);
    var curr := new nat[|b| + 1](j => 0);
    for i := 0 to |a|
      invariant fresh(prev) && fresh(curr) && prev != curr && prev.Length == curr.Length == |b| + 1
      invariant forall j :: 0 <= j <= |b| ==> prev[j] == Dist(a[..i], b[..j])
    {
      curr[0] := i + 1;
      for j := 0 to |b|
        invariant forall k :: 0 <= k <= |b| ==> prev[k] == Dist(a[..i], b[..k])
        invariant forall k :: 0 <= k <= j ==> curr[k] == Dist(a[..i + 1], b[..k])
      {
        Cell(a, i, b, j);
        var cost := if a[i] == b[j] then 0 else 1;
        curr[j + 1] := Min(Min(prev[j] + cost, prev[j + 1] + 1), curr[j] + 1);
      }
      prev, curr := curr, prev;
    }
    assert a[..|a|] == a && b[..|b|] == b;
    return prev[|b|];
  }

  // ----- the suggestion -----

  /** The first of the known names at the least distance, when that is at most 2. */
  predicate Suggests(names: seq<string>, name: string, suggestion: Option<string>) {
    match suggestion
    case None => forall i :: 0 <= i < |names| ==> Dist(name, names[i]) > 2
    case Some(best) =>
      exists k :: 0 <= k < |names| && names[k] == best && Dist(name, best) <= 2
        && (forall i :: 0 <= i < |names| ==> Dist(name, best) <= Dist(name, names[i]))
        && (forall i :: 0 <= i < k ==> Dist(name, best) < Dist(name, names[i]))
  }

  method DidYouMean(names: seq<string>, name: string) returns (suggestion: Option<string>)
    ensures Suggests(names, name, suggestion)
  {
    var best: Option<(string, nat)> := None;
    for i := 0 to |names|
      invariant best.Some? ==> best.value.1 == Dist(name, best.value.0)
      invariant Suggests(names[..i], name, if best.Some? then Some(best.value.0) else None)
    {
      var d := Levenshtein(name, names[i]);
      assert names[..i + 1][..i] == names[..i];
      ghost var was := if best.Some? then Some(best.value.0) else None;
      if d <= 2 && (best.None? || d < best.value.1) {
        best := Some((names[i], d));
      }
      SuggestsOneMore(names[..i], name, names[i], was);
      assert names[..i + 1] == names[..i] + [names[i]];
    }
    assert names[..|names|] == names;
    suggestion := if best.Some? then Some(best.value.0) else None;
  }

  lemma SuggestsOneMore(names: seq<string>, name: string, next: string, was: Option<string>)
    requires Suggests(names, name, was)
    ensures Suggests(names + [next], name,
      if Dist(name, next) <= 2 && (was.None? || Dist(name, next) < Dist(name, was.value)) then Some(next) else was)
  {
    hide Dist;
    var more := names + [next];
    if Dist(name, next) <= 2 && (was.None? || Dist(name, next) < Dist(name, was.value)) {
      assert more[|names|] == next;
    } else if was.Some? {
      var k :| 0 <= k < |names| && names[k] == was.value && Dist(name, was.value) <= 2
        && (forall i :: 0 <= i < |names| ==> Dist(name, was.value) <= Dist(name, names[i]))
        && (forall i :: 0 <= i < k ==> Dist(name, was.value) < Dist(name, names[i]));
      assert more[k] == was.value;
    }
  }
}
