/** The proven-absence contracts (`@no_alloc`, `@no_os`): which functions reach an
    effect through any chain of calls, and the shortest chain that shows it. */
module EffectChains {
  import opened Wrappers
  import Lexicographic

  type Ident = string
  type Chain = seq<Ident>
  type Graph = map<Ident, seq<Ident>>

  // ----- the order that picks among chains -----

  predicate NameLess(a: Ident, b: Ident) { Lexicographic.Less((c: char, d: char) => c < d, a, b) }

  predicate Better(a: Chain, b: Chain) {
    |a| < |b| || (|a| == |b| && Lexicographic.Less(NameLess, a, b))
  }

  lemma NameLessIsTotal()
    ensures Lexicographic.StrictTotal(NameLess)
  {
    Lexicographic.LessStrictTotal((c: char, d: char) => c < d);
    var less := (a: seq<char>, b: seq<char>) => Lexicographic.Less((c: char, d: char) => c < d, a, b);
    assert Lexicographic.StrictTotal(less);
    assert forall a, b :: NameLess(a, b) == less(a, b);
  }

  lemma BetterIsTotal(a: Chain, b: Chain)
    ensures Better(a, b) || Better(b, a) || a == b
    ensures !(Better(a, b) && Better(b, a))
    ensures !Better(a, a)
  {
    NameLessIsTotal();
    Lexicographic.LessTotal(NameLess, a, b);
    Lexicographic.LessIrreflexive(NameLess, a);
    if Better(a, b) && Better(b, a) {
      Lexicographic.LessTransitive(NameLess, a, b, a);
    }
  }

  lemma BetterIsTransitive(a: Chain, b: Chain, c: Chain)
    requires a == b || Better(a, b)
    requires b == c || Better(b, c)
    ensures a == c || Better(a, c)
  {
    NameLessIsTotal();
    if |a| == |c| && Better(a, b) && Better(b, c) {
      Lexicographic.LessTransitive(NameLess, a, b, c);
    }
  }

  lemma BetterUnderCall(g: Ident, a: Chain, b: Chain)
    requires a == b || Better(a, b)
    ensures [g] + a == [g] + b || Better([g] + a, [g] + b)
  {
    assert ([g] + a)[1..] == a && ([g] + b)[1..] == b;
  }

  // ----- chains in a call graph -----

  /** `chain` lists the callees that lead from `f` to a function with the effect itself. */
  predicate Leads(direct: set<Ident>, calls: Graph, f: Ident, chain: Chain)
    decreases |chain|
  {
    if chain == [] then f in direct
    else f in calls && chain[0] in calls[f] && Leads(direct, calls, chain[0], chain[1..])
  }

  ghost predicate Reaches(direct: set<Ident>, calls: Graph, f: Ident) {
    exists chain :: Leads(direct, calls, f, chain)
  }

  ghost predicate Best(direct: set<Ident>, calls: Graph, f: Ident, chain: Chain) {
    && Leads(direct, calls, f, chain)
    && forall other :: Leads(direct, calls, f, other) ==> chain == other || Better(chain, other)
  }

  /** What the closure must be: a best chain for exactly the functions that have one. */
  ghost predicate Closure(direct: set<Ident>, calls: Graph, via: map<Ident, Chain>) {
    && (forall f :: Reaches(direct, calls, f) ==> f in via)
    && (forall f :: f in via ==> Best(direct, calls, f, via[f]))
  }

  /** There is only one closure, so nothing depends on the order of visits. */
  lemma ClosureUnique(direct: set<Ident>, calls: Graph, a: map<Ident, Chain>, b: map<Ident, Chain>)
    requires Closure(direct, calls, a) && Closure(direct, calls, b)
    ensures a == b
  {
    forall f ensures f in a <==> f in b {
      if f in a { assert Leads(direct, calls, f, a[f]); }
      if f in b { assert Leads(direct, calls, f, b[f]); }
    }
    forall f | f in a ensures a[f] == b[f] {
      assert Best(direct, calls, f, a[f]) && Best(direct, calls, f, b[f]);
      BetterIsTotal(a[f], b[f]);
    }
  }

  // ----- one relaxation -----

  ghost predicate Sound(direct: set<Ident>, calls: Graph, via: map<Ident, Chain>) {
    && (forall f :: f in direct ==> f in via && via[f] == [])
    && (forall f :: f in via ==> Leads(direct, calls, f, via[f]))
  }

  /** No entry is lost or made worse. */
  ghost predicate Improves(before: map<Ident, Chain>, after: map<Ident, Chain>) {
    forall f :: f in before ==> f in after && (after[f] == before[f] || Better(after[f], before[f]))
  }

  /** `chain` is at least as good as going through any of `callees`. */
  ghost predicate Covers(via: map<Ident, Chain>, callees: seq<Ident>, chain: Option<Chain>) {
    forall g :: g in callees && g in via ==>
      chain.Some? && (chain.value == [g] + via[g] || Better(chain.value, [g] + via[g]))
  }

  lemma ImprovesTransitive(a: map<Ident, Chain>, b: map<Ident, Chain>, c: map<Ident, Chain>)
    requires Improves(a, b) && Improves(b, c)
    ensures Improves(a, c)
  {
    forall f | f in a ensures c[f] == a[f] || Better(c[f], a[f]) {
      BetterIsTransitive(c[f], b[f], a[f]);
    }
  }

  /** The best of the recorded chain and the chains through each callee. */
  method Relax(direct: set<Ident>, calls: Graph, via: map<Ident, Chain>, f: Ident) returns (best: Option<Chain>)
    requires f in calls && f !in direct && Sound(direct, calls, via)
    ensures Covers(via, calls[f], best)
    ensures best.Some? ==> Leads(direct, calls, f, best.value)
    ensures f in via ==> best.Some? && (best.value == via[f] || Better(best.value, via[f]))
  {
    best := if f in via then Some(via[f]) else None;
    for i := 0 to |calls[f]|
      invariant Covers(via, calls[f][..i], best)
      invariant best.Some? ==> Leads(direct, calls, f, best.value)
      invariant f in via ==> best.Some? && (best.value == via[f] || Better(best.value, via[f]))
    {
      var callee := calls[f][i];
      var was := best;
      if callee in via {
        var cand := [callee] + via[callee];
        assert cand[1..] == via[callee];
        if best.None? || Better(cand, best.value) {
          best := Some(cand);
        }
      }
      CoversOneMore(via, calls[f], i, was, best);
      if f in via && was != best {
        BetterIsTransitive(best.value, was.value, via[f]);
      }
    }
    assert calls[f][..|calls[f]|] == calls[f];
  }

  lemma CoversOneMore(via: map<Ident, Chain>, callees: seq<Ident>, i: nat, was: Option<Chain>, best: Option<Chain>)
    requires i < |callees| && Covers(via, callees[..i], was)
    requires was.Some? ==> best.Some? && (best == was || Better(best.value, was.value))
    requires callees[i] in via ==>
      best == Some([callees[i]] + via[callees[i]])
      || (best.Some? && best == was && !Better([callees[i]] + via[callees[i]], best.value))
    ensures Covers(via, callees[..i + 1], best)
  {
    forall g | g in callees[..i + 1] && g in via
      ensures best.Some? && (best.value == [g] + via[g] || Better(best.value, [g] + via[g]))
    {
      if g == callees[i] {
        BetterIsTotal(best.value, [g] + via[g]);
      } else {
        assert g in callees[..i];
        BetterIsTransitive(best.value, was.value, [g] + via[g]);
      }
    }
  }

  // ----- why sweeping long enough is enough -----

  ghost predicate Within(direct: set<Ident>, calls: Graph, f: Ident, k: nat) {
    exists chain :: Leads(direct, calls, f, chain) && |chain| <= k
  }

  /** Every function at distance at most `k` already holds its final chain. */
  ghost predicate Settled(direct: set<Ident>, calls: Graph, via: map<Ident, Chain>, k: nat) {
    forall f, chain :: Leads(direct, calls, f, chain) && |chain| <= k ==>
      f in via && (via[f] == chain || Better(via[f], chain))
  }

  /** A function whose entry covers its callees' settled entries is settled one step further. */
  lemma SettlesOneFurther(direct: set<Ident>, calls: Graph, before: map<Ident, Chain>, via: map<Ident, Chain>, k: nat)
    requires Settled(direct, calls, before, k) && Sound(direct, calls, via)
    requires forall f :: f in calls && f !in direct ==>
      Covers(before, calls[f], if f in via then Some(via[f]) else None)
    ensures Settled(direct, calls, via, k + 1)
  {
    forall f, chain | Leads(direct, calls, f, chain) && |chain| <= k + 1
      ensures f in via && (via[f] == chain || Better(via[f], chain))
    {
      if f !in direct {
        var g := chain[0];
        assert chain == [g] + chain[1..];
        assert Leads(direct, calls, g, chain[1..]) && g in before;
        BetterUnderCall(g, before[g], chain[1..]);
        BetterIsTransitive(via[f], [g] + before[g], chain);
      }
    }
  }

  /** A stable table is the closure. */
  lemma {:induction false} StableIsBest(direct: set<Ident>, calls: Graph, via: map<Ident, Chain>, f: Ident, chain: Chain)
    requires Sound(direct, calls, via) && Leads(direct, calls, f, chain)
    requires forall f :: f in calls && f !in direct ==>
      Covers(via, calls[f], if f in via then Some(via[f]) else None)
    ensures f in via && (via[f] == chain || Better(via[f], chain))
    decreases |chain|
  {
    if f !in direct {
      var g := chain[0];
      assert chain == [g] + chain[1..];
      StableIsBest(direct, calls, via, g, chain[1..]);
      BetterUnderCall(g, via[g], chain[1..]);
      BetterIsTransitive(via[f], [g] + via[g], chain);
    }
  }

  /** If some function is farther than `k`, some function is exactly one step farther. */
  lemma {:induction false} NextAway(direct: set<Ident>, calls: Graph, f: Ident, chain: Chain, k: nat) returns (g: Ident)
    requires Leads(direct, calls, f, chain) && !Within(direct, calls, f, k)
    ensures g in calls && Within(direct, calls, g, k + 1) && !Within(direct, calls, g, k)
    decreases |chain|
  {
    assert chain != [];
    var h := chain[0];
    if Within(direct, calls, h, k) {
      var rest :| Leads(direct, calls, h, rest) && |rest| <= k;
      assert ([h] + rest)[1..] == rest;
      assert Leads(direct, calls, f, [h] + rest);
      g := f;
    } else {
      g := NextAway(direct, calls, h, chain[1..], k);
    }
  }

  ghost function Near(direct: set<Ident>, calls: Graph, k: nat): set<Ident> {
    set f | f in calls && Within(direct, calls, f, k)
  }

  /** A sweep that changed an entry pushed the settled distance past a new function. */
  lemma NearGrows(direct: set<Ident>, calls: Graph, before: map<Ident, Chain>, after: map<Ident, Chain>, f: Ident, k: nat)
    requires Sound(direct, calls, before) && Sound(direct, calls, after)
    requires Settled(direct, calls, before, k)
    requires f in after && (f !in before || Better(after[f], before[f]))
    ensures |Near(direct, calls, k)| < |Near(direct, calls, k + 1)| <= |calls|
  {
    if Within(direct, calls, f, k) {
      var chain :| Leads(direct, calls, f, chain) && |chain| <= k;
      assert Leads(direct, calls, f, after[f]) && |after[f]| <= |before[f]| <= k;
      BetterIsTotal(after[f], before[f]);
      assert false;
    }
    var g := NextAway(direct, calls, f, after[f], k);
    assert Near(direct, calls, k) + {g} <= Near(direct, calls, k + 1) <= calls.Keys;
    SubsetSize(Near(direct, calls, k) + {g}, Near(direct, calls, k + 1));
    SubsetSize(Near(direct, calls, k + 1), calls.Keys);
  }

  lemma NearIsBounded(direct: set<Ident>, calls: Graph, k: nat)
    ensures |Near(direct, calls, k)| <= |calls|
  {
    SubsetSize(Near(direct, calls, k), calls.Keys);
  }

  lemma {:induction false} SubsetSize<T>(a: set<T>, b: set<T>)
    requires a <= b
    ensures |a| <= |b|
  {
    if a != {} {
      var x :| x in a;
      SubsetSize(a - {x}, b - {x});
    }
  }

  // ----- the iteration -----

  /** The keys in order, by insertion. */
  method SortedNames(names: set<Ident>) returns (sorted: seq<Ident>)
    ensures forall f :: f in sorted <==> f in names
    ensures forall i, j :: 0 <= i < j < |sorted| ==> NameLess(sorted[i], sorted[j])
  {
    sorted := [];
    var rest := names;
    while rest != {}
      invariant rest <= names
      invariant forall f :: f in sorted <==> f in names - rest
      invariant forall i, j :: 0 <= i < j < |sorted| ==> NameLess(sorted[i], sorted[j])
      decreases |rest|
    {
      var f :| f in rest;
      var at := 0;
      while at < |sorted| && NameLess(sorted[at], f)
        invariant 0 <= at <= |sorted|
        invariant forall i :: 0 <= i < at ==> NameLess(sorted[i], f)
      {
        at := at + 1;
      }
      InsertKeepsOrder(sorted, f, at);
      sorted := sorted[..at] + [f] + sorted[at..];
      rest := rest - {f};
    }
  }

  lemma InsertKeepsOrder(sorted: seq<Ident>, f: Ident, at: nat)
    requires at <= |sorted| && f !in sorted
    requires forall i, j :: 0 <= i < j < |sorted| ==> NameLess(sorted[i], sorted[j])
    requires forall i :: 0 <= i < at ==> NameLess(sorted[i], f)
    requires at < |sorted| ==> !NameLess(sorted[at], f)
    ensures var s := sorted[..at] + [f] + sorted[at..];
      && (forall g :: g in s <==> g in sorted || g == f)
      && forall i, j :: 0 <= i < j < |s| ==> NameLess(s[i], s[j])
  {
    hide NameLess;
    NameLessIsTotal();
    var s := sorted[..at] + [f] + sorted[at..];
    forall j | at <= j < |sorted| ensures NameLess(f, sorted[j]) {
      assert sorted[at] in sorted;
      assert NameLess(f, sorted[at]);
    }
    assert sorted == sorted[..at] + sorted[at..];
    forall i, j | 0 <= i < j < |s| ensures NameLess(s[i], s[j]) {
      var p, q := if i < at then i else i - 1, if j < at then j else j - 1;
    }
  }

  /** One pass over every function, updating the table as it goes. */
  method Sweep(direct: set<Ident>, calls: Graph, names: seq<Ident>, start: map<Ident, Chain>)
    returns (via: map<Ident, Chain>, changed: bool)
    requires forall f :: f in names <==> f in calls
    requires Sound(direct, calls, start)
    ensures Sound(direct, calls, via) && Improves(start, via)
    ensures forall f :: f in calls && f !in direct ==>
      Covers(start, calls[f], if f in via then Some(via[f]) else None)
    ensures changed ==> exists f :: f in via && (f !in start || Better(via[f], start[f]))
    ensures !changed ==> via == start
  {
    hide Better, Leads;
    via, changed := start, false;
    for i := 0 to |names|
      invariant Sound(direct, calls, via) && Improves(start, via)
      invariant forall j :: 0 <= j < i && names[j] !in direct ==>
        Covers(start, calls[names[j]], if names[j] in via then Some(via[names[j]]) else None)
      invariant changed ==> exists f :: f in via && (f !in start || Better(via[f], start[f]))
      invariant !changed ==> via == start
    {
      var f := names[i];
      if f !in direct {
        var best := Relax(direct, calls, via, f);
        var was := via;
        if best.Some? && !(f in via && via[f] == best.value) {
          via := via[f := best.value];
          changed := true;
        }
        assert Improves(was, via);
        SweepStep(direct, calls, start, was, via, names, i, best);
        if was != via {
          StillChanged(start, was, via, f);
        }
      }
    }
  }

  /** After a strict improvement some entry still beats the starting table. */
  lemma StillChanged(start: map<Ident, Chain>, was: map<Ident, Chain>, via: map<Ident, Chain>, f: Ident)
    requires Improves(start, was) && f in via && (f in was ==> Better(via[f], was[f]))
    ensures f !in start || Better(via[f], start[f])
  {
    if f in start {
      BetterIsTransitive(via[f], was[f], start[f]);
      if via[f] == start[f] {
        BetterIsTotal(was[f], start[f]);
        BetterIsTotal(via[f], was[f]);
      }
    }
  }

  lemma SweepStep(direct: set<Ident>, calls: Graph, start: map<Ident, Chain>, was: map<Ident, Chain>,
      via: map<Ident, Chain>, names: seq<Ident>, i: nat, best: Option<Chain>)
    requires i < |names| && forall f :: f in names <==> f in calls
    requires Improves(start, was) && Improves(was, via)
    requires names[i] in calls && Covers(was, calls[names[i]], best)
    requires best.Some? ==> names[i] in via && via[names[i]] == best.value
    requires forall j :: 0 <= j < i && names[j] !in direct ==>
      Covers(start, calls[names[j]], if names[j] in was then Some(was[names[j]]) else None)
    ensures Improves(start, via)
    ensures forall j :: 0 <= j <= i && names[j] !in direct ==>
      Covers(start, calls[names[j]], if names[j] in via then Some(via[names[j]]) else None)
  {
    hide Better;
    ImprovesTransitive(start, was, via);
    forall j | 0 <= j <= i && names[j] !in direct
      ensures Covers(start, calls[names[j]], if names[j] in via then Some(via[names[j]]) else None)
    {
      var f := names[j];
      forall g | g in calls[f] && g in start
        ensures f in via && (via[f] == [g] + start[g] || Better(via[f], [g] + start[g]))
      {
        if j == i {
          BetterUnderCall(g, was[g], start[g]);
          BetterIsTransitive(via[f], [g] + was[g], [g] + start[g]);
        } else {
          BetterIsTransitive(via[f], was[f], [g] + start[g]);
        }
      }
    }
  }

  /** The iteration to saturation: terminates on every graph, cyclic ones included, and
      leaves the closure. */
  method ShortestChains(direct: set<Ident>, calls: Graph) returns (via: map<Ident, Chain>)
    ensures Closure(direct, calls, via)
  {
    hide Better;
    via := map f | f in direct :: [];
    var names := SortedNames(calls.Keys);
    ghost var k := 0;
    NearIsBounded(direct, calls, k);
    ghost var left := |calls| + 1 - |Near(direct, calls, k)|;
    assert Settled(direct, calls, via, 0);
    while true
      invariant Sound(direct, calls, via) && Settled(direct, calls, via, k)
      invariant left == |calls| + 1 - |Near(direct, calls, k)| && left > 0
      decreases left
    {
      var next, changed := Sweep(direct, calls, names, via);
      if !changed {
        break;
      }
      ghost var f :| f in next && (f !in via || Better(next[f], via[f]));
      NearGrows(direct, calls, via, next, f, k);
      SettlesOneFurther(direct, calls, via, next, k);
      via := next;
      k := k + 1;
      left := |calls| + 1 - |Near(direct, calls, k)|;
    }
    forall f, chain | Leads(direct, calls, f, chain)
      ensures f in via && (via[f] == chain || Better(via[f], chain))
    {
      StableIsBest(direct, calls, via, f, chain);
    }
  }

  // ----- the contract -----

  /** What a body does about one effect: a form that has it by itself (a region, a
      spawned task), or a call of a resolved symbol. */
  datatype Op = Own | Calls(name: Ident)

  /** A free function: the name it is declared by, and the symbol its calls resolve to. */
  datatype Fn = Fn(name: Ident, symbol: Ident, body: seq<Op>)

  datatype Diag = OwnForm | Intrinsic(name: Ident) | Transitive(name: Ident, culprit: Ident, chain: Chain)

  /** Do two modules declare a function `n`? */
  predicate Colliding(fns: seq<Fn>, n: Ident) {
    exists i, j :: 0 <= i < j < |fns| && fns[i].name == n == fns[j].name
  }

  /** A symbol is the declared name unless two modules share that; then it is a name of its
      own, and no call resolves to the shared one. */
  ghost predicate Resolved(fns: seq<Fn>) {
    && (forall i, j :: 0 <= i < j < |fns| ==> fns[i].symbol != fns[j].symbol)
    && (forall fn :: fn in fns && !Colliding(fns, fn.name) ==> fn.symbol == fn.name)
    && (forall fn, other :: fn in fns && other in fns && Colliding(fns, fn.name) ==> fn.symbol != other.name)
    && (forall fn :: fn in fns ==> Spelled(fns, fn.body))
  }

  ghost predicate Spelled(fns: seq<Fn>, body: seq<Op>) {
    forall n :: Calls(n) in body ==> !Colliding(fns, n)
  }

  /** The functions whose names no other module shares. */
  function Unshared(fns: seq<Fn>): (us: seq<Fn>)
    ensures forall fn :: fn in us <==> fn in fns && !Colliding(fns, fn.name)
  {
    Keep(fns, fns)
  }

  function Keep(fns: seq<Fn>, some: seq<Fn>): (us: seq<Fn>)
    ensures forall fn :: fn in us <==> fn in some && !Colliding(fns, fn.name)
  {
    if some == [] then []
    else
      var front, last := Keep(fns, some[..|some| - 1]), some[|some| - 1];
      if Colliding(fns, last.name) then front else front + [last]
  }

  /** Does running `body` have the effect within `depth` nested calls? Names that are
      neither intrinsics nor functions of the program do nothing. */
  ghost predicate Performs(fns: seq<Fn>, intrinsics: set<Ident>, body: seq<Op>, depth: nat)
    decreases depth, 1
  {
    exists op :: op in body && Acts(fns, intrinsics, op, depth)
  }

  ghost predicate Acts(fns: seq<Fn>, intrinsics: set<Ident>, op: Op, depth: nat)
    decreases depth, 0
  {
    || op.Own?
    || op.name in intrinsics
    || (depth > 0
        && exists callee :: callee in fns && callee.symbol == op.name && Performs(fns, intrinsics, callee.body, depth - 1))
  }

  /** Some run of `body` has the effect, however many calls away. */
  ghost predicate HasEffect(fns: seq<Fn>, intrinsics: set<Ident>, body: seq<Op>) {
    exists depth: nat :: Performs(fns, intrinsics, body, depth)
  }

  predicate HasDirectly(intrinsics: set<Ident>, body: seq<Op>) {
    exists op :: op in body && (op.Own? || op.name in intrinsics)
  }

  function Callees(body: seq<Op>): (names: seq<Ident>)
    ensures forall n :: n in names <==> Calls(n) in body
  {
    if body == [] then []
    else if body[0].Calls? then [body[0].name] + Callees(body[1..])
    else Callees(body[1..])
  }

  /** The graph and the seeds describe the functions whose names are not shared. */
  ghost predicate Describes(fns: seq<Fn>, intrinsics: set<Ident>, direct: set<Ident>, calls: Graph) {
    && (forall fn :: fn in Unshared(fns) ==> fn.name in calls)
    && (forall fn :: fn in Unshared(fns) ==> (fn.name in direct <==> HasDirectly(intrinsics, fn.body)))
    && (forall fn :: fn in Unshared(fns) ==> forall n :: n in calls[fn.name] <==> Calls(n) in fn.body)
    && (forall f :: f in calls || f in direct ==> exists fn :: fn in fns && fn.name == f)
  }

  /** What the probe pass has recorded after the first `i` functions. */
  ghost predicate Tallied(fns: seq<Fn>, i: nat, intrinsics: set<Ident>, seeds: set<Ident>, graph: Graph)
    requires i <= |fns|
  {
    && (forall f :: f in graph <==> exists j :: 0 <= j < i && fns[j].name == f)
    && seeds <= graph.Keys
    && (forall j :: 0 <= j < i && !Colliding(fns, fns[j].name) ==>
          Measured(fns[j], intrinsics, fns[j].name in seeds, graph[fns[j].name]))
  }

  lemma TallyOne(fns: seq<Fn>, i: nat, intrinsics: set<Ident>, seeds: set<Ident>, graph: Graph, sorted: seq<Ident>)
    requires i < |fns| && Tallied(fns, i, intrinsics, seeds, graph)
    requires forall n :: n in sorted <==> n in Callees(fns[i].body)
    ensures var fn := fns[i];
            Tallied(fns, i + 1, intrinsics, if HasDirectly(intrinsics, fn.body) then seeds + {fn.name} else seeds,
                    graph[fn.name := sorted])
  {
    hide HasDirectly, Measured;
    var fn := fns[i];
    var seeds' := if HasDirectly(intrinsics, fn.body) then seeds + {fn.name} else seeds;
    var graph': Graph := graph[fn.name := sorted];
    forall j | 0 <= j < i + 1 && !Colliding(fns, fns[j].name)
      ensures Measured(fns[j], intrinsics, fns[j].name in seeds', graph'[fns[j].name])
    {
      if j == i {
        NewlyMeasured(fns, i, intrinsics, seeds, graph, sorted);
      } else {
        assert fns[j].name != fn.name;
      }
    }
    forall f ensures f in graph' <==> exists j :: 0 <= j < i + 1 && fns[j].name == f {
      if f in graph {
        var j :| 0 <= j < i && fns[j].name == f;
      }
    }
  }

  lemma NewlyMeasured(fns: seq<Fn>, i: nat, intrinsics: set<Ident>, seeds: set<Ident>, graph: Graph, sorted: seq<Ident>)
    requires i < |fns| && Tallied(fns, i, intrinsics, seeds, graph) && !Colliding(fns, fns[i].name)
    requires forall n :: n in sorted <==> n in Callees(fns[i].body)
    ensures fns[i].name !in seeds && Measured(fns[i], intrinsics, HasDirectly(intrinsics, fns[i].body), sorted)
  {
    hide HasDirectly;
    assert fns[i].name !in graph;
  }

  lemma TalliedDescribes(fns: seq<Fn>, intrinsics: set<Ident>, seeds: set<Ident>, graph: Graph)
    requires Tallied(fns, |fns|, intrinsics, seeds, graph)
    ensures Describes(fns, intrinsics, seeds, graph)
  {
    hide Colliding, HasDirectly;
    forall fn | fn in Unshared(fns)
      ensures fn.name in graph && Measured(fn, intrinsics, fn.name in seeds, graph[fn.name])
    {
      var j :| 0 <= j < |fns| && fns[j] == fn;
    }
  }

  /** The probe pass over every function, then the closure of what it measured. Functions of
      one name write over each other's callees. */
  method EffectClosure(fns: seq<Fn>, intrinsics: set<Ident>)
    returns (via: map<Ident, Chain>, direct: set<Ident>, calls: Graph)
    ensures Describes(fns, intrinsics, direct, calls)
    ensures Closure(direct, calls, via)
  {
    var seeds: set<Ident> := {};
    var graph: Graph := map[];
    for i := 0 to |fns|
      invariant Tallied(fns, i, intrinsics, seeds, graph)
    {
      ghost var before := (seeds, graph);
      var fn := fns[i];
      if HasDirectly(intrinsics, fn.body) {
        seeds := seeds + {fn.name};
      }
      var names := set n | n in Callees(fn.body);
      var sorted := SortedNames(names);
      graph := graph[fn.name := sorted];
      TallyOne(fns, i, intrinsics, before.0, before.1, sorted);
    }
    TalliedDescribes(fns, intrinsics, seeds, graph);
    direct, calls := seeds, graph;
    via := ShortestChains(seeds, graph);
  }

  predicate Measured(fn: Fn, intrinsics: set<Ident>, seeded: bool, callees: seq<Ident>) {
    && (seeded <==> HasDirectly(intrinsics, fn.body))
    && (forall n :: n in callees ==> Calls(n) in fn.body)
    && (forall op :: op in fn.body && op.Calls? ==> op.name in callees)
  }

  predicate Guilty(intrinsics: set<Ident>, via: map<Ident, Chain>, op: Op) {
    op.Own? || op.name in intrinsics || op.name in via
  }

  /** A finding names the operation it is about, and a transitive one the whole path. */
  predicate Justified(intrinsics: set<Ident>, via: map<Ident, Chain>, op: Op, d: Diag) {
    match d
    case OwnForm => op == Own
    case Intrinsic(name) => op == Calls(name) && name in intrinsics
    case Transitive(name, culprit, chain) =>
      && op == Calls(name) && name !in intrinsics && name in via && chain == via[name]
      && culprit == if chain == [] then name else chain[|chain| - 1]
  }

  function GuiltyOps(intrinsics: set<Ident>, via: map<Ident, Chain>, body: seq<Op>): seq<Op> {
    if body == [] then []
    else
      var last := body[|body| - 1];
      GuiltyOps(intrinsics, via, body[..|body| - 1]) + if Guilty(intrinsics, via, last) then [last] else []
  }

  lemma {:induction false} GuiltyOpsComplete(intrinsics: set<Ident>, via: map<Ident, Chain>, body: seq<Op>)
    ensures GuiltyOps(intrinsics, via, body) == [] <==> forall op :: op in body ==> !Guilty(intrinsics, via, op)
  {
    if body != [] {
      var front := body[..|body| - 1];
      GuiltyOpsComplete(intrinsics, via, front);
      assert body == front + [body[|body| - 1]];
    }
  }

  /** One finding for each guilty operation of an annotated body, in order. */
  method CheckBody(intrinsics: set<Ident>, via: map<Ident, Chain>, body: seq<Op>) returns (diags: seq<Diag>)
    ensures |diags| == |GuiltyOps(intrinsics, via, body)|
    ensures forall i :: 0 <= i < |diags| ==> Justified(intrinsics, via, GuiltyOps(intrinsics, via, body)[i], diags[i])
  {
    diags := [];
    for i := 0 to |body|
      invariant |diags| == |GuiltyOps(intrinsics, via, body[..i])|
      invariant forall j :: 0 <= j < |diags| ==>
        Justified(intrinsics, via, GuiltyOps(intrinsics, via, body[..i])[j], diags[j])
    {
      var op := body[i];
      assert body[..i + 1][..i] == body[..i];
      if op.Own? {
        diags := diags + [OwnForm];
      } else if op.name in intrinsics {
        diags := diags + [Intrinsic(op.name)];
      } else if op.name in via {
        var chain := via[op.name];
        var culprit := if chain == [] then op.name else chain[|chain| - 1];
        diags := diags + [Transitive(op.name, culprit, chain)];
      }
    }
    assert body[..|body|] == body;
  }

  /** A callee in the graph is a function that no other module's shares its name with. */
  lemma CalleeIsUnshared(fns: seq<Fn>, intrinsics: set<Ident>, direct: set<Ident>, calls: Graph, body: seq<Op>, n: Ident)
    returns (callee: Fn)
    requires Resolved(fns) && Describes(fns, intrinsics, direct, calls) && Spelled(fns, body)
    requires Calls(n) in body && (n in calls || n in direct)
    ensures callee in Unshared(fns) && callee.name == callee.symbol == n
  {
    callee :| callee in fns && callee.name == n;
  }

  lemma {:induction false} ChainPerforms(fns: seq<Fn>, intrinsics: set<Ident>, direct: set<Ident>, calls: Graph,
      fn: Fn, chain: Chain)
    requires Resolved(fns) && Describes(fns, intrinsics, direct, calls)
    requires fn in Unshared(fns) && Leads(direct, calls, fn.name, chain)
    ensures Performs(Unshared(fns), intrinsics, fn.body, |chain|)
    decreases |chain|
  {
    hide Unshared, Colliding;
    if chain != [] {
      var g := chain[0];
      assert g in calls || g in direct;
      assert Calls(g) in fn.body;
      var callee := CalleeIsUnshared(fns, intrinsics, direct, calls, fn.body, g);
      ChainPerforms(fns, intrinsics, direct, calls, callee, chain[1..]);
      assert Acts(Unshared(fns), intrinsics, Calls(g), |chain|);
    }
  }

  lemma {:induction false} PerformsHasChain(fns: seq<Fn>, intrinsics: set<Ident>, direct: set<Ident>, calls: Graph,
      fn: Fn, depth: nat) returns (chain: Chain)
    requires Resolved(fns) && Describes(fns, intrinsics, direct, calls)
    requires fn in Unshared(fns) && Performs(Unshared(fns), intrinsics, fn.body, depth)
    ensures Leads(direct, calls, fn.name, chain) && |chain| <= depth
    decreases depth
  {
    hide Unshared, Colliding;
    if HasDirectly(intrinsics, fn.body) {
      return [];
    }
    var us := Unshared(fns);
    var op :| op in fn.body && Acts(us, intrinsics, op, depth);
    var callee :| callee in us && callee.symbol == op.name && Performs(us, intrinsics, callee.body, depth - 1);
    var rest := PerformsHasChain(fns, intrinsics, direct, calls, callee, depth - 1);
    chain := [op.name] + rest;
    assert chain[1..] == rest;
  }

  /** A function of a name of its own is in the table exactly when some run of it has the
      effect along calls of such functions. */
  lemma TableIsEffect(fns: seq<Fn>, intrinsics: set<Ident>, direct: set<Ident>, calls: Graph,
      via: map<Ident, Chain>, fn: Fn)
    requires Resolved(fns) && Describes(fns, intrinsics, direct, calls) && Closure(direct, calls, via)
    requires fn in Unshared(fns)
    ensures fn.name in via <==> HasEffect(Unshared(fns), intrinsics, fn.body)
  {
    hide Unshared, Colliding, Resolved, Describes;
    if fn.name in via {
      ChainPerforms(fns, intrinsics, direct, calls, fn, via[fn.name]);
    }
    if HasEffect(Unshared(fns), intrinsics, fn.body) {
      var depth: nat :| Performs(Unshared(fns), intrinsics, fn.body, depth);
      var chain := PerformsHasChain(fns, intrinsics, direct, calls, fn, depth);
      assert Reaches(direct, calls, fn.name);
    }
  }

  /** The contract is checked: an annotated body is reported exactly when some run of it has
      the effect along calls of functions that share their names with no other module's. */
  method CheckContract(fns: seq<Fn>, intrinsics: set<Ident>, body: seq<Op>) returns (diags: seq<Diag>)
    requires Resolved(fns) && Spelled(fns, body)
    ensures diags == [] <==> !HasEffect(Unshared(fns), intrinsics, body)
    ensures CallsNoneShared(fns, body) ==> (diags == [] <==> !HasEffect(fns, intrinsics, body))
  {
    hide Unshared, Colliding;
    var via, direct, calls := EffectClosure(fns, intrinsics);
    diags := CheckBody(intrinsics, via, body);
    GuiltyOpsComplete(intrinsics, via, body);
    ContractIsExact(fns, intrinsics, direct, calls, via, body);
    if CallsNoneShared(fns, body) {
      UnsharedSuffices(fns, intrinsics, body);
    }
  }

  lemma ContractIsExact(fns: seq<Fn>, intrinsics: set<Ident>, direct: set<Ident>, calls: Graph,
      via: map<Ident, Chain>, body: seq<Op>)
    requires Resolved(fns) && Describes(fns, intrinsics, direct, calls) && Closure(direct, calls, via)
    requires Spelled(fns, body)
    ensures (forall op :: op in body ==> !Guilty(intrinsics, via, op))
      <==> !HasEffect(Unshared(fns), intrinsics, body)
  {
    hide Unshared, Colliding, Resolved, Describes, Spelled;
    var us := Unshared(fns);
    if !(forall op :: op in body ==> !Guilty(intrinsics, via, op)) {
      var op :| op in body && Guilty(intrinsics, via, op);
      if op.Calls? && op.name !in intrinsics {
        assert Leads(direct, calls, op.name, via[op.name]);
        assert op.name in direct || op.name in calls;
        var fn := CalleeIsUnshared(fns, intrinsics, direct, calls, body, op.name);
        TableIsEffect(fns, intrinsics, direct, calls, via, fn);
        var depth: nat :| Performs(us, intrinsics, fn.body, depth);
        assert Acts(us, intrinsics, op, depth + 1);
        assert Performs(us, intrinsics, body, depth + 1);
      } else {
        assert Acts(us, intrinsics, op, 0);
        assert Performs(us, intrinsics, body, 0);
      }
    } else if HasEffect(us, intrinsics, body) {
      var depth: nat :| Performs(us, intrinsics, body, depth);
      var op :| op in body && Acts(us, intrinsics, op, depth);
      assert !Guilty(intrinsics, via, op);
      var callee :| callee in us && callee.symbol == op.name && Performs(us, intrinsics, callee.body, depth - 1);
      assert HasEffect(us, intrinsics, callee.body);
      TableIsEffect(fns, intrinsics, direct, calls, via, callee);
      UnsharedSymbol(fns, callee);
      assert false;
    }
  }

  lemma UnsharedSymbol(fns: seq<Fn>, fn: Fn)
    requires Resolved(fns) && fn in Unshared(fns)
    ensures fn.symbol == fn.name
  {
  }

  // ----- when the contract is the whole truth -----

  /** No call resolves to a function whose name another module shares. */
  ghost predicate CallsNoneShared(fns: seq<Fn>, body: seq<Op>) {
    && NoneShared(fns, body)
    && (forall fn :: fn in fns ==> NoneShared(fns, fn.body))
  }

  ghost predicate NoneShared(fns: seq<Fn>, body: seq<Op>) {
    forall n, fn :: Calls(n) in body && fn in fns && fn.symbol == n ==> !Colliding(fns, fn.name)
  }

  /** A finding is always right. */
  lemma {:induction false} SeenIsReal(fns: seq<Fn>, intrinsics: set<Ident>, body: seq<Op>, depth: nat)
    requires Performs(Unshared(fns), intrinsics, body, depth)
    ensures Performs(fns, intrinsics, body, depth)
    decreases depth
  {
    hide Colliding;
    var us := Unshared(fns);
    var op :| op in body && Acts(us, intrinsics, op, depth);
    if op.Calls? && op.name !in intrinsics {
      var callee :| callee in us && callee.symbol == op.name && Performs(us, intrinsics, callee.body, depth - 1);
      SeenIsReal(fns, intrinsics, callee.body, depth - 1);
    }
    assert Acts(fns, intrinsics, op, depth);
  }

  lemma {:induction false} RealIsSeen(fns: seq<Fn>, intrinsics: set<Ident>, body: seq<Op>, depth: nat)
    requires CallsNoneShared(fns, body) && Performs(fns, intrinsics, body, depth)
    ensures Performs(Unshared(fns), intrinsics, body, depth)
    decreases depth
  {
    hide Colliding;
    var us := Unshared(fns);
    var op :| op in body && Acts(fns, intrinsics, op, depth);
    if op.Calls? && op.name !in intrinsics {
      var callee :| callee in fns && callee.symbol == op.name && Performs(fns, intrinsics, callee.body, depth - 1);
      assert Calls(op.name) in body;
      RealIsSeen(fns, intrinsics, callee.body, depth - 1);
      assert callee in us;
    }
    assert Acts(us, intrinsics, op, depth);
  }

  /** Where no call resolves to a shared name, nothing is missed. */
  lemma UnsharedSuffices(fns: seq<Fn>, intrinsics: set<Ident>, body: seq<Op>)
    requires CallsNoneShared(fns, body)
    ensures HasEffect(Unshared(fns), intrinsics, body) <==> HasEffect(fns, intrinsics, body)
  {
    hide Unshared, Colliding, CallsNoneShared;
    if HasEffect(fns, intrinsics, body) {
      var depth: nat :| Performs(fns, intrinsics, body, depth);
      RealIsSeen(fns, intrinsics, body, depth);
    }
    if HasEffect(Unshared(fns), intrinsics, body) {
      var depth: nat :| Performs(Unshared(fns), intrinsics, body, depth);
      SeenIsReal(fns, intrinsics, body, depth);
    }
  }

  /** A call of a shared name is never reported, whatever the function does. */
  lemma SharedCallUnseen(fns: seq<Fn>, intrinsics: set<Ident>, direct: set<Ident>, calls: Graph,
      via: map<Ident, Chain>, fn: Fn)
    requires Resolved(fns) && Describes(fns, intrinsics, direct, calls) && Closure(direct, calls, via)
    requires fn in fns && Colliding(fns, fn.name) && fn.symbol !in intrinsics
    ensures !Guilty(intrinsics, via, Calls(fn.symbol))
  {
    hide Colliding, Unshared;
    assert fn.symbol !in direct && fn.symbol !in calls;
    forall chain
      ensures !Leads(direct, calls, fn.symbol, chain)
    {
    }
  }

  /** The same functions with other bodies: `culprit` performs the effect, the others do nothing. */
  function OnlyBy(fns: seq<Fn>, culprit: Fn): (others: seq<Fn>)
    ensures |others| == |fns|
    ensures forall i :: 0 <= i < |fns| ==>
      others[i] == Fn(fns[i].name, fns[i].symbol, if fns[i] == culprit then [Own] else [])
  {
    seq(|fns|, i requires 0 <= i < |fns| => Fn(fns[i].name, fns[i].symbol, if fns[i] == culprit then [Own] else []))
  }

  /** For every call of a shared name in a body without an effect of its own, there are bodies of
      the program's functions with which the body performs the effect and nothing is found. */
  lemma SharedCallCanBeMissed(fns: seq<Fn>, intrinsics: set<Ident>, body: seq<Op>, fn: Fn)
    requires Resolved(fns) && Spelled(fns, body) && !HasDirectly(intrinsics, body)
    requires fn in fns && Colliding(fns, fn.name) && Calls(fn.symbol) in body
    ensures var fns' := OnlyBy(fns, fn);
            && Resolved(fns') && Spelled(fns', body)
            && HasEffect(fns', intrinsics, body) && !HasEffect(Unshared(fns'), intrinsics, body)
  {
    var fns' := OnlyBy(fns, fn);
    SameColliding(fns, fn);
    SameResolved(fns, fn, body);
    OthersDoNothing(fns, fn);
    hide Colliding, Unshared, Resolved, Spelled, Performs, HasEffect;
    assert Fn(fn.name, fn.symbol, [Own]) in fns' by {
      var i :| 0 <= i < |fns| && fns[i] == fn;
      assert fns'[i] in fns';
    }
    CulpritActs(fns', intrinsics, body, fn.name, fn.symbol);
    forall depth: nat
      ensures !Performs(Unshared(fns'), intrinsics, body, depth)
    {
      NobodyActs(Unshared(fns'), intrinsics, body, depth);
    }
  }

  lemma CulpritActs(fns: seq<Fn>, intrinsics: set<Ident>, body: seq<Op>, name: Ident, symbol: Ident)
    requires Fn(name, symbol, [Own]) in fns && Calls(symbol) in body
    ensures HasEffect(fns, intrinsics, body)
  {
    var fn := Fn(name, symbol, [Own]);
    assert Own in fn.body && Acts(fns, intrinsics, Own, 0);
    assert Performs(fns, intrinsics, fn.body, 0);
    assert Acts(fns, intrinsics, Calls(symbol), 1);
    assert Performs(fns, intrinsics, body, 1);
  }

  lemma NobodyActs(fns: seq<Fn>, intrinsics: set<Ident>, body: seq<Op>, depth: nat)
    requires (forall fn :: fn in fns ==> fn.body == []) && !HasDirectly(intrinsics, body)
    ensures !Performs(fns, intrinsics, body, depth)
  {
    forall op | op in body
      ensures !Acts(fns, intrinsics, op, depth)
    {
    }
  }

  lemma SameColliding(fns: seq<Fn>, culprit: Fn)
    ensures forall n :: Colliding(OnlyBy(fns, culprit), n) <==> Colliding(fns, n)
  {
    var fns' := OnlyBy(fns, culprit);
    forall n
      ensures Colliding(fns', n) <==> Colliding(fns, n)
    {
      if Colliding(fns, n) {
        var i, j :| 0 <= i < j < |fns| && fns[i].name == n == fns[j].name;
        assert fns'[i].name == n == fns'[j].name;
      }
      if Colliding(fns', n) {
        var i, j :| 0 <= i < j < |fns'| && fns'[i].name == n == fns'[j].name;
        assert fns[i].name == n == fns[j].name;
      }
    }
  }

  lemma SameResolved(fns: seq<Fn>, culprit: Fn, body: seq<Op>)
    requires Resolved(fns) && Spelled(fns, body)
    ensures Resolved(OnlyBy(fns, culprit)) && Spelled(OnlyBy(fns, culprit), body)
  {
    hide Colliding;
    SameColliding(fns, culprit);
    var fns' := OnlyBy(fns, culprit);
    assert forall fn :: fn in fns' ==> exists i :: 0 <= i < |fns| && fns[i].name == fn.name && fns[i].symbol == fn.symbol;
  }

  lemma OthersDoNothing(fns: seq<Fn>, culprit: Fn)
    requires Colliding(fns, culprit.name)
    ensures forall fn :: fn in Unshared(OnlyBy(fns, culprit)) ==> fn.body == []
  {
    SameColliding(fns, culprit);
    hide Colliding, Unshared;
  }

  /** Two modules declare `make`; one of them has the effect, and `f` calls that one. */
  const MAKE_1 := Fn("make", "make__m1", [Own])
  const MAKE_2 := Fn("make", "make__m2", [])
  const CALLS_MAKE := Fn("f", "f", [Calls("make__m1")])
  const TWO_MAKES: seq<Fn> := [MAKE_1, MAKE_2, CALLS_MAKE]

  lemma SharedNameIsMissed()
    ensures Resolved(TWO_MAKES) && Spelled(TWO_MAKES, CALLS_MAKE.body)
    ensures HasEffect(TWO_MAKES, {}, CALLS_MAKE.body)
    ensures !HasEffect(Unshared(TWO_MAKES), {}, CALLS_MAKE.body)
  {
    TwoMakes(TWO_MAKES);
    hide Colliding, Unshared, Resolved, Spelled;
    MakeIsCalled(TWO_MAKES);
    MakeIsNotSeen(Unshared(TWO_MAKES));
  }

  lemma TwoMakes(fns: seq<Fn>)
    requires fns == TWO_MAKES
    ensures Resolved(fns) && Spelled(fns, CALLS_MAKE.body)
    ensures forall fn :: fn in Unshared(fns) <==> fn == CALLS_MAKE
  {
    OneShared(fns);
    hide Colliding, Unshared;
    assert fns[0] == MAKE_1 && fns[1] == MAKE_2 && fns[2] == CALLS_MAKE;
  }

  lemma OneShared(fns: seq<Fn>)
    requires fns == TWO_MAKES
    ensures forall n :: Colliding(fns, n) <==> n == "make"
  {
    assert fns[0].name == "make" == fns[1].name && fns[2].name == "f";
    assert Colliding(fns, "make");
  }

  lemma MakeIsCalled(fns: seq<Fn>)
    requires MAKE_1 in fns
    ensures HasEffect(fns, {}, CALLS_MAKE.body)
  {
    assert Own in MAKE_1.body && Acts(fns, {}, Own, 0);
    assert Performs(fns, {}, MAKE_1.body, 0);
    assert Calls("make__m1") in CALLS_MAKE.body && Acts(fns, {}, Calls("make__m1"), 1);
    assert Performs(fns, {}, CALLS_MAKE.body, 1);
  }

  lemma MakeIsNotSeen(fns: seq<Fn>)
    requires forall fn :: fn in fns <==> fn == CALLS_MAKE
    ensures !HasEffect(fns, {}, CALLS_MAKE.body)
  {
    forall depth: nat
      ensures !Performs(fns, {}, CALLS_MAKE.body, depth)
    {
      assert !Acts(fns, {}, Calls("make__m1"), depth);
    }
  }

  /** A culprit has the effect by itself. */
  lemma {:induction false} ChainEndsAtCulprit(direct: set<Ident>, calls: Graph, f: Ident, chain: Chain)
    requires Leads(direct, calls, f, chain)
    ensures (if chain == [] then f else chain[|chain| - 1]) in direct
    decreases |chain|
  {
    if chain != [] {
      ChainEndsAtCulprit(direct, calls, chain[0], chain[1..]);
    }
  }
}
