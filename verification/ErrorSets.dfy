/** The error-set census: every site where an error may leave a function, judged against the
    declared sets, and what it means when no site is found wanting. */
module ErrorSets {
  import opened Wrappers

  type Ident = string
  type ErrorSet = Option<set<Ident>>

  datatype Span = Span(start: nat, end: nat)
  {
    predicate Inside(o: Span) { o.start <= start && end <= o.end }
  }

  /** The expression arena is flat; operands stand before the expressions that use them.
      `elsewhere` says of a call that its name may mean something the file does not declare:
      a function of an imported module, or a method of an imported type. The census reads one
      file and does not look at it. */
  datatype Kind =
    | Name(n: Ident)
    | Tail(n: Ident)
    | Call(callee: nat, args: seq<nat>, elsewhere: bool)
    | Try(base: nat)
    | Catch(base: nat, rethrow: bool)
    | Comptime
    | Other

  datatype Node = Node(kind: Kind, span: Span)

  /** A function or method with a body. */
  datatype Owner = Owner(name: Ident, isMethod: bool, declared: ErrorSet, body: Span)

  datatype Program = Program(arena: seq<Node>, owners: seq<Owner>, errVariant: bool)

  ghost predicate WellFormed(p: Program) {
    && (forall i :: 0 <= i < |p.arena| ==>
          match p.arena[i].kind
          case Call(callee, args, _) => callee < i && forall k :: 0 <= k < |args| ==> args[k] < i
          case Try(base) => base < i
          case Catch(base, _) => base < i
          case _ => true)
    && forall i, j :: 0 <= i < j < |p.owners| && !p.owners[i].isMethod && !p.owners[j].isMethod ==>
         p.owners[i].name != p.owners[j].name
  }

  predicate IsIntrinsic(n: Ident) { n == "try_read_file" || n == "try_from_utf8" }

  // ----- looking things up -----

  /** A user function or variant called `err` hides the error constructor. */
  predicate ErrShadowed(p: Program) {
    p.errVariant || exists i :: 0 <= i < |p.owners| && !p.owners[i].isMethod && p.owners[i].name == "err"
  }

  predicate InComptime(p: Program, s: Span) {
    exists i :: 0 <= i < |p.arena| && p.arena[i].kind.Comptime? && s.Inside(p.arena[i].span)
  }

  /** The innermost body around a span: the latest to start. */
  function OwnerOf(owners: seq<Owner>, s: Span): (o: Option<nat>)
    ensures o.Some? ==> o.value < |owners| && s.Inside(owners[o.value].body)
    ensures o.Some? ==> forall k :: 0 <= k < |owners| && s.Inside(owners[k].body) ==>
      owners[k].body.start <= owners[o.value].body.start
    ensures o.None? ==> forall k :: 0 <= k < |owners| ==> !s.Inside(owners[k].body)
  {
    if owners == [] then None
    else
      var k := |owners| - 1;
      var best := OwnerOf(owners[..k], s);
      if s.Inside(owners[k].body) && (best.None? || owners[best.value].body.start <= owners[k].body.start) then Some(k)
      else best
  }

  /** The name at the head of a callee, and whether it is a field tail. */
  function Head(p: Program, id: nat): Option<(Ident, bool)>
    requires WellFormed(p)
    decreases id
  {
    if id >= |p.arena| then None
    else
      match p.arena[id].kind
      case Name(n) => Some((n, false))
      case Tail(n) => Some((n, true))
      case Call(callee, _, _) => Head(p, callee)
      case _ => None
  }

  /** What the free function `n` declares; the first one counts. */
  function FreeSet(owners: seq<Owner>, n: Ident): Option<ErrorSet> {
    if owners == [] then None
    else
      var front := FreeSet(owners[..|owners| - 1], n);
      var last := owners[|owners| - 1];
      if front.Some? then front
      else if !last.isMethod && last.name == n then Some(last.declared)
      else None
  }

  function MethodSets(owners: seq<Owner>, n: Ident): seq<ErrorSet> {
    if owners == [] then []
    else
      var last := owners[|owners| - 1];
      MethodSets(owners[..|owners| - 1], n) + if last.isMethod && last.name == n then [last.declared] else []
  }

  // ----- verdicts -----

  datatype Verdict = Fine | Violation | Unresolved | Intrinsic
  datatype SiteKind = Raise | Propagate | Rethrow
  datatype Site = Site(node: nat, owner: nat, kind: SiteKind, verdict: Verdict)

  function CheckInclusion(callee: ErrorSet, owner: ErrorSet): Verdict {
    if callee.Some? && owner.Some? && callee.value <= owner.value then Fine else Violation
  }

  /** The callee's declared set, when this program alone can tell it. */
  function Callee(p: Program, base: nat): (r: Result<ErrorSet, Verdict>)
    requires WellFormed(p)
    ensures r.Err? ==> r.error == Unresolved || r.error == Intrinsic
  {
    if base >= |p.arena| || !p.arena[base].kind.Call? then Err(Unresolved)
    else
      match Head(p, p.arena[base].kind.callee)
      case None => Err(Unresolved)
      case Some((head, isField)) =>
        if IsIntrinsic(head) then Err(Intrinsic)
        else if !isField then
          (match FreeSet(p.owners, head)
           case Some(declared) => Ok(declared)
           case None => Err(Unresolved))
        else
          var sets := MethodSets(p.owners, head);
          if sets != [] && forall i :: 0 <= i < |sets| ==> sets[i] == sets[0] then Ok(sets[0]) else Err(Unresolved)
  }

  function ResolveAndCheck(p: Program, base: nat, owner: ErrorSet): Verdict
    requires WellFormed(p)
  {
    match Callee(p, base)
    case Ok(declared) => CheckInclusion(declared, owner)
    case Err(v) => v
  }

  predicate IsErrCall(p: Program, id: nat) {
    && id < |p.arena| && p.arena[id].kind.Call? && !ErrShadowed(p)
    && p.arena[id].kind.callee < |p.arena| && p.arena[p.arena[id].kind.callee].kind == Name("err")
  }

  /** `err(E)` and `err(E(v))` name the error; a computed one is not guessed. */
  function ErrName(p: Program, id: nat): Option<Ident>
    requires WellFormed(p) && IsErrCall(p, id)
  {
    var args := p.arena[id].kind.args;
    if args == [] then None
    else
      match p.arena[args[0]].kind
      case Name(n) => Some(n)
      case Call(callee, _, _) => if p.arena[callee].kind.Name? then Some(p.arena[callee].kind.n) else None
      case _ => None
  }

  function ErrVerdict(name: Option<Ident>, owner: ErrorSet): Verdict {
    if name.None? then Unresolved
    else if owner.Some? && name.value in owner.value then Fine
    else Violation
  }

  /** The obligation at a node, if it carries one. */
  function SiteAt(p: Program, id: nat): Option<Site>
    requires WellFormed(p) && id < |p.arena|
  {
    var node := p.arena[id];
    var o := OwnerOf(p.owners, node.span);
    if o.None? || InComptime(p, node.span) then None
    else
      var declared := p.owners[o.value].declared;
      match node.kind
      case Try(base) => Some(Site(id, o.value, Propagate, ResolveAndCheck(p, base, declared)))
      case Catch(base, rethrow) =>
        if rethrow then Some(Site(id, o.value, Rethrow, ResolveAndCheck(p, base, declared))) else None
      case Call(_, _, _) =>
        if IsErrCall(p, id) then Some(Site(id, o.value, Raise, ErrVerdict(ErrName(p, id), declared))) else None
      case _ => None
  }

  function Sites(p: Program, n: nat): seq<Site>
    requires WellFormed(p) && n <= |p.arena|
  {
    if n == 0 then []
    else Sites(p, n - 1) + if SiteAt(p, n - 1).Some? then [SiteAt(p, n - 1).value] else []
  }

  // ----- the census as it runs -----

  /** The two maps hold what the declarations say. */
  ghost predicate Indexed(owners: seq<Owner>, free: map<Ident, ErrorSet>, methods: map<Ident, seq<ErrorSet>>) {
    forall n :: IndexedAt(owners, free, methods, n)
  }

  predicate IndexedAt(owners: seq<Owner>, free: map<Ident, ErrorSet>, methods: map<Ident, seq<ErrorSet>>, n: Ident) {
    && (if n in free then FreeSet(owners, n) == Some(free[n]) else FreeSet(owners, n).None?)
    && (if n in methods then MethodSets(owners, n) == methods[n] != [] else MethodSets(owners, n) == [])
  }

  method Index(owners: seq<Owner>) returns (free: map<Ident, ErrorSet>, methods: map<Ident, seq<ErrorSet>>)
    ensures Indexed(owners, free, methods)
  {
    hide Indexed;
    free, methods := map[], map[];
    NothingIndexed();
    assert owners[..0] == [];
    for i := 0 to |owners|
      invariant Indexed(owners[..i], free, methods)
    {
      var o := owners[i];
      ghost var wasFree, wasMethods := free, methods;
      if o.isMethod {
        var before := if o.name in methods then methods[o.name] else [];
        methods := methods[o.name := before + [o.declared]];
      } else if o.name !in free {
        free := free[o.name := o.declared];
      }
      StillIndexed(owners, i, wasFree, wasMethods);
    }
    assert owners[..|owners|] == owners;
  }

  lemma NothingIndexed()
    ensures Indexed([], map[], map[])
  {
  }

  lemma OneMore(owners: seq<Owner>, i: nat, n: Ident)
    requires i < |owners|
    ensures MethodSets(owners[..i + 1], n)
      == MethodSets(owners[..i], n) + if owners[i].isMethod && owners[i].name == n then [owners[i].declared] else []
    ensures FreeSet(owners[..i + 1], n)
      == if FreeSet(owners[..i], n).Some? then FreeSet(owners[..i], n)
         else if !owners[i].isMethod && owners[i].name == n then Some(owners[i].declared)
         else None
  {
    assert owners[..i + 1][..i] == owners[..i];
  }

  lemma StillIndexed(owners: seq<Owner>, i: nat, free: map<Ident, ErrorSet>, methods: map<Ident, seq<ErrorSet>>)
    requires i < |owners| && Indexed(owners[..i], free, methods)
    ensures var o := owners[i];
      var before := if o.name in methods then methods[o.name] else [];
      Indexed(owners[..i + 1],
        if !o.isMethod && o.name !in free then free[o.name := o.declared] else free,
        if o.isMethod then methods[o.name := before + [o.declared]] else methods)
  {
    var o := owners[i];
    var before := if o.name in methods then methods[o.name] else [];
    var free1 := if !o.isMethod && o.name !in free then free[o.name := o.declared] else free;
    var methods1 := if o.isMethod then methods[o.name := before + [o.declared]] else methods;
    hide FreeSet, MethodSets;
    var more := owners[..i + 1];
    forall n ensures IndexedAt(more, free1, methods1, n) {
      OneMore(owners, i, n);
      assert IndexedAt(owners[..i], free, methods, n);
    }
  }

  method Collect(p: Program) returns (sites: seq<Site>)
    requires WellFormed(p)
    ensures sites == Sites(p, |p.arena|)
  {
    var free, methods := Index(p.owners);
    var shadowed := ErrShadowed(p);
    sites := [];
    for id := 0 to |p.arena|
      invariant sites == Sites(p, id)
    {
      var node := p.arena[id];
      var o := OwnerOf(p.owners, node.span);
      if o.Some? && !InComptime(p, node.span) {
        var declared := p.owners[o.value].declared;
        match node.kind {
          case Try(base) =>
            var v := Judge(p, free, methods, base, declared);
            sites := sites + [Site(id, o.value, Propagate, v)];
          case Catch(base, rethrow) =>
            if rethrow {
              var v := Judge(p, free, methods, base, declared);
              sites := sites + [Site(id, o.value, Rethrow, v)];
            }
          case Call(callee, _, _) =>
            if !shadowed && p.arena[callee].kind == Name("err") {
              sites := sites + [Site(id, o.value, Raise, ErrVerdict(ErrName(p, id), declared))];
            }
          case _ =>
        }
      }
    }
  }

  method Judge(p: Program, free: map<Ident, ErrorSet>, methods: map<Ident, seq<ErrorSet>>, base: nat, owner: ErrorSet)
    returns (v: Verdict)
    requires WellFormed(p) && base < |p.arena|
    requires Indexed(p.owners, free, methods)
    ensures v == ResolveAndCheck(p, base, owner)
  {
    if !p.arena[base].kind.Call? {
      return Unresolved;
    }
    var head := Head(p, p.arena[base].kind.callee);
    if head.None? {
      return Unresolved;
    }
    var (n, isField) := head.value;
    if IsIntrinsic(n) {
      return Intrinsic;
    }
    assert IndexedAt(p.owners, free, methods, n);
    if !isField {
      return if n in free then CheckInclusion(free[n], owner) else Unresolved;
    }
    if n !in methods {
      return Unresolved;
    }
    var sets := methods[n];
    var same := true;
    for i := 0 to |sets|
      invariant same <==> forall j :: 0 <= j < i ==> sets[j] == sets[0]
    {
      same := same && sets[i] == sets[0];
    }
    v := if same then CheckInclusion(sets[0], owner) else Unresolved;
  }

  // ----- which errors leave a function -----

  /** The functions of the file that a propagated call may reach: the free function of the
      name, or any method of it. */
  predicate MayReach(p: Program, base: nat, g: Owner)
    requires WellFormed(p)
  {
    && base < |p.arena| && p.arena[base].kind.Call?
    && var head := Head(p, p.arena[base].kind.callee);
       head.Some? && g in p.owners && g.name == head.value.0 && g.isMethod == head.value.1
  }

  /** What the file does not show may fail with anything: a call of a name it does not
      declare, and one that may mean something declared elsewhere. */
  predicate Opaque(p: Program, base: nat)
    requires WellFormed(p)
  {
    || base >= |p.arena| || !p.arena[base].kind.Call?
    || p.arena[base].kind.elsewhere
    || var head := Head(p, p.arena[base].kind.callee);
       head.None? || IsIntrinsic(head.value.0)
       || forall i :: 0 <= i < |p.owners| ==> p.owners[i].name != head.value.0 || p.owners[i].isMethod != head.value.1
  }

  /** Can the error `e` leave owner `o` within `depth` nested calls? It does so at a site of
      its body: raised there, or propagated from a callee it leaves. */
  ghost predicate Leaves(p: Program, o: nat, e: Ident, depth: nat)
    requires WellFormed(p)
    decreases depth, 2
  {
    exists id :: 0 <= id < |p.arena| && OwnerOf(p.owners, p.arena[id].span) == Some(o)
      && !InComptime(p, p.arena[id].span) && LeavesAt(p, id, e, depth)
  }

  ghost predicate LeavesAt(p: Program, id: nat, e: Ident, depth: nat)
    requires WellFormed(p) && id < |p.arena|
    decreases depth, 1
  {
    match p.arena[id].kind
    case Try(base) => Propagates(p, base, e, depth)
    case Catch(base, rethrow) => rethrow && Propagates(p, base, e, depth)
    case Call(_, _, _) => IsErrCall(p, id) && (ErrName(p, id) == None || ErrName(p, id) == Some(e))
    case _ => false
  }

  ghost predicate Propagates(p: Program, base: nat, e: Ident, depth: nat)
    requires WellFormed(p)
    decreases depth, 0
  {
    || Opaque(p, base)
    || (depth > 0 && exists g :: 0 <= g < |p.owners| && MayReach(p, base, p.owners[g]) && Leaves(p, g, e, depth - 1))
  }

  // ----- soundness -----

  ghost predicate AllFine(p: Program)
    requires WellFormed(p)
  {
    forall id :: 0 <= id < |p.arena| && SiteAt(p, id).Some? ==> SiteAt(p, id).value.verdict == Fine
  }

  lemma {:induction false} SitesAreFine(p: Program, n: nat)
    requires WellFormed(p) && n <= |p.arena|
    ensures (forall s :: s in Sites(p, n) ==> s.verdict == Fine)
      <==> forall id :: 0 <= id < n && SiteAt(p, id).Some? ==> SiteAt(p, id).value.verdict == Fine
  {
    hide SiteAt;
    if n > 0 {
      SitesAreFine(p, n - 1);
      var last := SiteAt(p, n - 1);
      if last.Some? {
        assert Sites(p, n) == Sites(p, n - 1) + [last.value];
        assert last.value in Sites(p, n);
      } else {
        assert Sites(p, n) == Sites(p, n - 1);
      }
    }
  }

  lemma {:induction false} FreeSetIs(owners: seq<Owner>, k: nat)
    requires k < |owners| && !owners[k].isMethod
    requires forall i, j :: 0 <= i < j < |owners| && !owners[i].isMethod && !owners[j].isMethod ==>
      owners[i].name != owners[j].name
    ensures FreeSet(owners, owners[k].name) == Some(owners[k].declared)
    decreases |owners|
  {
    var last := |owners| - 1;
    if k < last {
      FreeSetIs(owners[..last], k);
    } else {
      NoFreeSet(owners[..last], owners[k].name);
    }
  }

  lemma {:induction false} NoFreeSet(owners: seq<Owner>, n: Ident)
    requires forall i :: 0 <= i < |owners| ==> owners[i].isMethod || owners[i].name != n
    ensures FreeSet(owners, n).None?
    decreases |owners|
  {
    if owners != [] {
      NoFreeSet(owners[..|owners| - 1], n);
    }
  }

  lemma {:induction false} MethodSetIn(owners: seq<Owner>, k: nat)
    requires k < |owners| && owners[k].isMethod
    ensures owners[k].declared in MethodSets(owners, owners[k].name)
    decreases |owners|
  {
    if k < |owners| - 1 {
      MethodSetIn(owners[..|owners| - 1], k);
    }
  }

  /** Whatever a call may reach declares the set it was resolved to. */
  lemma ReachedDeclares(p: Program, base: nat, g: nat)
    requires WellFormed(p) && g < |p.owners| && MayReach(p, base, p.owners[g]) && Callee(p, base).Ok?
    ensures p.owners[g].declared == Callee(p, base).value
  {
    var o := p.owners[g];
    if o.isMethod {
      MethodSetIn(p.owners, g);
    } else {
      FreeSetIs(p.owners, g);
    }
  }

  lemma {:induction false} NoMethodSets(owners: seq<Owner>, n: Ident)
    requires forall i :: 0 <= i < |owners| ==> !owners[i].isMethod || owners[i].name != n
    ensures MethodSets(owners, n) == []
    decreases |owners|
  {
    if owners != [] {
      NoMethodSets(owners[..|owners| - 1], n);
    }
  }

  /** A resolved call is opaque exactly when it may mean something declared elsewhere. */
  lemma ResolvedIsNotOpaque(p: Program, base: nat)
    requires WellFormed(p) && Callee(p, base).Ok?
    ensures base < |p.arena| && p.arena[base].kind.Call?
    ensures Opaque(p, base) <==> p.arena[base].kind.elsewhere
  {
    if Opaque(p, base) && !p.arena[base].kind.elsewhere {
      var (n, isField) := Head(p, p.arena[base].kind.callee).value;
      if isField { NoMethodSets(p.owners, n); } else { NoFreeSet(p.owners, n); }
    }
  }

  predicate Propagating(p: Program, id: nat)
    requires WellFormed(p) && id < |p.arena|
  {
    SiteAt(p, id).Some? && (p.arena[id].kind.Try? || p.arena[id].kind.Catch?)
  }

  /** No error is propagated out of a call that may mean something declared elsewhere. */
  predicate Inward(p: Program)
    requires WellFormed(p)
  {
    forall id :: 0 <= id < |p.arena| && Propagating(p, id) ==>
      var base := p.arena[id].kind.base; p.arena[base].kind.Call? ==> !p.arena[base].kind.elsewhere
  }

  /** When every verdict is fine, each error that leaves a function is declared by it, however
      deep the calls and whichever method of the file is meant; a function without a set
      leaks none. */
  lemma {:induction false} DeclaredSetsAreSound(p: Program, o: nat, e: Ident, depth: nat)
    requires WellFormed(p) && Inward(p) && AllFine(p) && o < |p.owners| && Leaves(p, o, e, depth)
    ensures p.owners[o].declared.Some? && e in p.owners[o].declared.value
    decreases depth
  {
    hide Callee, OwnerOf, InComptime, Head, Opaque, MayReach, SiteAt, Propagating, LeavesAt;
    var id :| 0 <= id < |p.arena| && OwnerOf(p.owners, p.arena[id].span) == Some(o)
      && !InComptime(p, p.arena[id].span) && LeavesAt(p, id, e, depth);
    var declared := p.owners[o].declared;
    LeakIsSite(p, id, o, e, depth);
    assert SiteAt(p, id).value.verdict == Fine;
    if Propagating(p, id) {
      var base := p.arena[id].kind.base;
      var g := FineReaches(p, id, base, declared, e, depth);
      DeclaredSetsAreSound(p, g, e, depth - 1);
      ReachedDeclares(p, base, g);
    }
  }

  /** An error leaves at a site, and the site says how. */
  lemma LeakIsSite(p: Program, id: nat, o: nat, e: Ident, depth: nat)
    requires WellFormed(p) && id < |p.arena| && o < |p.owners| && OwnerOf(p.owners, p.arena[id].span) == Some(o)
    requires !InComptime(p, p.arena[id].span) && LeavesAt(p, id, e, depth)
    ensures SiteAt(p, id).Some? && SiteAt(p, id).value.owner == o
    ensures var declared := p.owners[o].declared;
            if Propagating(p, id) then
              && (p.arena[id].kind.Try? || p.arena[id].kind.Catch?)
              && SiteAt(p, id).value.verdict == ResolveAndCheck(p, p.arena[id].kind.base, declared)
              && Propagates(p, p.arena[id].kind.base, e, depth)
            else SiteAt(p, id).value.verdict == Fine ==> declared.Some? && e in declared.value
  {
    hide Callee, OwnerOf, InComptime, Head, Propagates, ResolveAndCheck;
  }

  /** A propagated error that is fine comes from a function of the file. */
  lemma FineReaches(p: Program, id: nat, base: nat, declared: ErrorSet, e: Ident, depth: nat) returns (g: nat)
    requires WellFormed(p) && Inward(p) && id < |p.arena| && Propagating(p, id) && p.arena[id].kind.base == base
    requires ResolveAndCheck(p, base, declared) == Fine && Propagates(p, base, e, depth)
    ensures depth > 0 && g < |p.owners| && MayReach(p, base, p.owners[g]) && Leaves(p, g, e, depth - 1)
    ensures Callee(p, base).Ok? && CheckInclusion(Callee(p, base).value, declared) == Fine
  {
    hide Callee, Opaque, MayReach, Leaves, Propagating;
    ResolvedIsNotOpaque(p, base);
    g :| 0 <= g < |p.owners| && MayReach(p, base, p.owners[g]) && Leaves(p, g, e, depth - 1);
  }

  // ----- and when a violation is a leak -----

  /** No declared error is idle, and each propagated call is to a resolved, fallible callee. */
  ghost predicate Tight(p: Program)
    requires WellFormed(p)
  {
    && (forall o, e :: 0 <= o < |p.owners| && p.owners[o].declared.Some? && e in p.owners[o].declared.value ==> CanLeave(p, o, e))
    && (forall id :: 0 <= id < |p.arena| && SiteAt(p, id).Some? ==>
          SiteAt(p, id).value.verdict != Unresolved && SiteAt(p, id).value.verdict != Intrinsic)
    && (forall id :: 0 <= id < |p.arena| && (p.arena[id].kind.Try? || p.arena[id].kind.Catch?) && SiteAt(p, id).Some? ==>
          Callee(p, p.arena[id].kind.base).Ok? && Callee(p, p.arena[id].kind.base).value.Some?
          && Callee(p, p.arena[id].kind.base).value.value != {})
  }

  ghost predicate CanLeave(p: Program, o: nat, e: Ident)
    requires WellFormed(p)
  {
    exists depth: nat :: Leaves(p, o, e, depth)
  }

  /** Every error that can leave a function is declared by it. */
  ghost predicate Safe(p: Program)
    requires WellFormed(p)
  {
    forall o, e :: 0 <= o < |p.owners| && CanLeave(p, o, e) ==>
      p.owners[o].declared.Some? && e in p.owners[o].declared.value
  }

  lemma SomeReached(p: Program, base: nat) returns (g: nat)
    requires WellFormed(p) && Callee(p, base).Ok?
    ensures g < |p.owners| && MayReach(p, base, p.owners[g])
  {
    var (n, isField) := Head(p, p.arena[base].kind.callee).value;
    if forall i :: 0 <= i < |p.owners| ==> p.owners[i].name != n || p.owners[i].isMethod != isField {
      if isField { NoMethodSets(p.owners, n); } else { NoFreeSet(p.owners, n); }
      assert false;
    }
    g :| 0 <= g < |p.owners| && p.owners[g].name == n && p.owners[g].isMethod == isField;
  }

  /** Something in the file may be reached, and all of it declares this one set. */
  ghost predicate AgreeOn(p: Program, base: nat, declared: ErrorSet)
    requires WellFormed(p)
  {
    && (exists g :: 0 <= g < |p.owners| && MayReach(p, base, p.owners[g]))
    && forall g :: 0 <= g < |p.owners| && MayReach(p, base, p.owners[g]) ==> p.owners[g].declared == declared
  }

  lemma {:induction false} MethodSetFrom(owners: seq<Owner>, n: Ident, i: nat) returns (k: nat)
    requires i < |MethodSets(owners, n)|
    ensures k < |owners| && owners[k].isMethod && owners[k].name == n && owners[k].declared == MethodSets(owners, n)[i]
    decreases |owners|
  {
    var front := owners[..|owners| - 1];
    if i < |MethodSets(front, n)| {
      k := MethodSetFrom(front, n, i);
    } else {
      k := |owners| - 1;
    }
  }

  lemma AgreedCallee(p: Program, base: nat, declared: ErrorSet)
    requires WellFormed(p) && AgreeOn(p, base, declared)
    requires !IsIntrinsic(Head(p, p.arena[base].kind.callee).value.0)
    ensures Callee(p, base) == Ok(declared)
  {
    var g :| 0 <= g < |p.owners| && MayReach(p, base, p.owners[g]);
    var (n, isField) := Head(p, p.arena[base].kind.callee).value;
    if isField {
      MethodSetIn(p.owners, g);
      var sets := MethodSets(p.owners, n);
      forall i | 0 <= i < |sets| ensures sets[i] == declared {
        var k := MethodSetFrom(p.owners, n, i);
        assert MayReach(p, base, p.owners[k]);
      }
    } else {
      FreeSetIs(p.owners, g);
    }
  }

  /** The verdict on a propagated call, by what it may reach: an intrinsic one is not judged;
      if everything reached declares one set, that set must be included; and what reaches
      nothing, or declarations that disagree, is left open. */
  lemma CallIsJudged(p: Program, base: nat, owner: ErrorSet, declared: ErrorSet)
    requires WellFormed(p)
    ensures var v := ResolveAndCheck(p, base, owner);
      var head := if base < |p.arena| && p.arena[base].kind.Call? then Head(p, p.arena[base].kind.callee) else None;
      if head.Some? && head.value.0 in {"try_read_file", "try_from_utf8"} then v == Intrinsic
      else if AgreeOn(p, base, declared) then
        v == if declared.Some? && owner.Some? && declared.value <= owner.value then Fine else Violation
      else (forall d :: !AgreeOn(p, base, d)) ==> v == Unresolved
  {
    hide Head, MayReach, FreeSet, MethodSets;
    var r := Callee(p, base);
    if AgreeOn(p, base, declared) {
      AgreedHead(p, base, declared);
      if !IsIntrinsic(Head(p, p.arena[base].kind.callee).value.0) {
        AgreedCallee(p, base, declared);
      }
    } else if r.Ok? {
      var g := SomeReached(p, base);
      forall k | 0 <= k < |p.owners| && MayReach(p, base, p.owners[k])
        ensures p.owners[k].declared == r.value
      {
        ReachedDeclares(p, base, k);
      }
      assert AgreeOn(p, base, r.value);
    }
  }

  lemma AgreedHead(p: Program, base: nat, declared: ErrorSet)
    requires WellFormed(p) && AgreeOn(p, base, declared)
    ensures base < |p.arena| && p.arena[base].kind.Call? && Head(p, p.arena[base].kind.callee).Some?
  {
  }

  /** What a clean census is worth: nothing leaves undeclared exactly when no error is
      propagated out of a call that may mean something declared elsewhere. */
  lemma FineIsSafeIff(p: Program)
    requires WellFormed(p) && AllFine(p)
    ensures Safe(p) <==> Inward(p)
  {
    if Inward(p) {
      FineIsSafe(p);
    } else {
      var id :| 0 <= id < |p.arena| && Propagating(p, id)
        && p.arena[p.arena[id].kind.base].kind.Call? && p.arena[p.arena[id].kind.base].kind.elsewhere;
      ElsewhereLeaks(p, id);
    }
  }

  lemma FineIsSafe(p: Program)
    requires WellFormed(p) && AllFine(p) && Inward(p)
    ensures Safe(p)
  {
    forall o, e | 0 <= o < |p.owners| && CanLeave(p, o, e)
      ensures p.owners[o].declared.Some? && e in p.owners[o].declared.value
    {
      var depth: nat :| Leaves(p, o, e, depth);
      DeclaredSetsAreSound(p, o, e, depth);
    }
  }

  /** An error propagated from elsewhere may be one that is not declared. */
  lemma ElsewhereLeaks(p: Program, id: nat)
    requires WellFormed(p) && id < |p.arena| && Propagating(p, id)
    requires var base := p.arena[id].kind.base; p.arena[base].kind.Call? && p.arena[base].kind.elsewhere
    ensures !Safe(p)
  {
    hide Head, InComptime, MayReach, Callee;
    var o := OwnerOf(p.owners, p.arena[id].span).value;
    var declared := p.owners[o].declared;
    var e := NameOutside(if declared.Some? then declared.value else {});
    OpaqueLeaves(p, id, o, e);
    hide Leaves;
    assert CanLeave(p, o, e);
  }

  /** No finite set holds every name. */
  lemma {:induction false} NameOutside(names: set<Ident>) returns (e: Ident)
    ensures e !in names
  {
    e := LongName(names);
  }

  lemma {:induction false} LongName(names: set<Ident>) returns (e: Ident)
    ensures forall n :: n in names ==> |n| < |e|
    decreases |names|
  {
    e := "e";
    if names != {} {
      var n :| n in names;
      var rest := LongName(names - {n});
      e := if |n| < |rest| then rest else n + "e";
    }
  }

  /** A file that imports `lib` and has a method `get` of its own that fails with A. Its `f`
      declares A and propagates the error of `lib.get()`, which may be any. */
  const GET := Owner("get", true, Some({"A"}), Span(0, 5))
  const CALLS_GET := Owner("f", false, Some({"A"}), Span(10, 20))
  const QUALIFIED := Program(
    [Node(Tail("get"), Span(11, 12)), Node(Call(0, [], true), Span(11, 13)), Node(Try(1), Span(11, 14))],
    [GET, CALLS_GET], false)

  lemma QualifiedCallLeaks()
    ensures WellFormed(QUALIFIED) && AllFine(QUALIFIED) && !Safe(QUALIFIED)
    ensures Leaves(QUALIFIED, 1, "B", 0)
  {
    QualifiedOwner(Span(11, 14));
    QualifiedSites();
    QualifiedNodes(QUALIFIED);
    hide OwnerOf, WellFormed, AllFine, Propagating, Leaves, Opaque;
    ElsewhereLeaks(QUALIFIED, 2);
    OpaqueLeaves(QUALIFIED, 2, 1, "B");
  }

  lemma QualifiedNodes(p: Program)
    requires WellFormed(p) && p == QUALIFIED
    ensures |p.arena| == 3 && p.arena[2].kind == Try(1) && p.arena[2].span == Span(11, 14)
    ensures p.arena[1].kind == Call(0, [], true) && Opaque(p, 1)
  {
  }

  /** Anything may leave through a call the file does not show. */
  lemma OpaqueLeaves(p: Program, id: nat, o: nat, e: Ident)
    requires WellFormed(p) && id < |p.arena| && Propagating(p, id) && Opaque(p, p.arena[id].kind.base)
    requires OwnerOf(p.owners, p.arena[id].span) == Some(o)
    ensures Leaves(p, o, e, 0)
  {
    hide Opaque, OwnerOf, InComptime;
    assert Propagates(p, p.arena[id].kind.base, e, 0);
    assert LeavesAt(p, id, e, 0);
  }

  lemma LeavesHere(p: Program, id: nat, o: nat, e: Ident, depth: nat)
    requires WellFormed(p) && id < |p.arena| && LeavesAt(p, id, e, depth)
    requires OwnerOf(p.owners, p.arena[id].span) == Some(o) && !InComptime(p, p.arena[id].span)
    ensures CanLeave(p, o, e)
  {
    hide LeavesAt, OwnerOf, InComptime;
    assert Leaves(p, o, e, depth);
  }

  lemma QualifiedSites()
    ensures WellFormed(QUALIFIED) && AllFine(QUALIFIED) && Propagating(QUALIFIED, 2)
  {
    var p := QUALIFIED;
    QualifiedOwner(Span(11, 14));
    QualifiedMethods();
    hide OwnerOf, MethodSets;
    assert Head(p, 0) == Some(("get", true));
    assert Callee(p, 1) == Ok(Some({"A"}));
    forall id | 0 <= id < 3 && SiteAt(p, id).Some?
      ensures SiteAt(p, id).value.verdict == Fine
    {
      assert id == 0 || id == 1 || id == 2;
    }
  }

  lemma QualifiedOwner(s: Span)
    requires 10 <= s.start && s.end <= 20
    ensures OwnerOf(QUALIFIED.owners, s) == Some(1)
  {
  }

  lemma QualifiedMethods()
    ensures MethodSets(QUALIFIED.owners, "get") == [Some({"A"})]
  {
    assert [GET, CALLS_GET][..1] == [GET] && [GET][..0] == [];
    assert MethodSets([GET], "get") == [Some({"A"})];
  }

  /** For tight programs the census is exact: all verdicts are fine and no error comes from
      elsewhere just when no error leaves undeclared. */
  lemma ExactWhenTight(p: Program)
    requires WellFormed(p) && Tight(p)
    ensures AllFine(p) && Inward(p) <==> Safe(p)
  {
    if AllFine(p) {
      FineIsSafeIff(p);
    } else {
      var id :| 0 <= id < |p.arena| && SiteAt(p, id).Some? && SiteAt(p, id).value.verdict != Fine;
      ViolationLeaks(p, id);
    }
  }

  lemma ViolationLeaks(p: Program, id: nat)
    requires WellFormed(p) && Tight(p) && id < |p.arena|
    requires SiteAt(p, id).Some? && SiteAt(p, id).value.verdict == Violation
    ensures !Safe(p)
  {
    hide Head, InComptime, Opaque, MayReach, Callee, Tight, Leaves;
    var o := OwnerOf(p.owners, p.arena[id].span).value;
    if p.arena[id].kind.Call? {
      var e := ErrName(p, id).value;
      assert LeavesAt(p, id, e, 0);
      LeavesHere(p, id, o, e, 0);
    } else {
      var e := UndeclaredError(p, id);
      LeavesCallee(p, id, o, e);
    }
  }

  /** What a violation at a propagating site is about. */
  lemma UndeclaredError(p: Program, id: nat) returns (e: Ident)
    requires WellFormed(p) && Tight(p) && id < |p.arena| && Propagating(p, id) && SiteAt(p, id).value.verdict == Violation
    ensures var callee := Callee(p, p.arena[id].kind.base);
            callee.Ok? && callee.value.Some? && e in callee.value.value
    ensures var o := OwnerOf(p.owners, p.arena[id].span).value;
            p.owners[o].declared.None? || e !in p.owners[o].declared.value
  {
    hide Head, InComptime, Opaque, MayReach, Callee, Leaves;
    var o := OwnerOf(p.owners, p.arena[id].span).value;
    var callee := Callee(p, p.arena[id].kind.base).value.value;
    if p.owners[o].declared.Some? {
      assert !(callee <= p.owners[o].declared.value);
      e :| e in callee && e !in p.owners[o].declared.value;
    } else {
      e :| e in callee;
    }
  }

  /** What a called function declares leaves its caller too, in a tight program. */
  lemma LeavesCallee(p: Program, id: nat, o: nat, e: Ident)
    requires WellFormed(p) && Tight(p) && id < |p.arena| && Propagating(p, id)
    requires OwnerOf(p.owners, p.arena[id].span) == Some(o)
    requires var callee := Callee(p, p.arena[id].kind.base);
             callee.Ok? && callee.value.Some? && e in callee.value.value
    ensures CanLeave(p, o, e)
  {
    hide Head, InComptime, Opaque, MayReach, Callee, Leaves;
    var base := p.arena[id].kind.base;
    var g := SomeReached(p, base);
    ReachedDeclares(p, base, g);
    assert CanLeave(p, g, e);
    var depth: nat :| Leaves(p, g, e, depth);
    assert Propagates(p, base, e, depth + 1);
    assert LeavesAt(p, id, e, depth + 1);
    LeavesHere(p, id, o, e, depth + 1);
  }
}
