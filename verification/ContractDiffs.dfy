/** The breaking-change detector: what it reports between two attested contracts, and what a
    report without a breaking change is worth to a caller. */
module ContractDiffs {
  import opened Wrappers
  import opened RangeTexts

  /** A top-level item's contract, as parsed back from a manifest. `sigCore` is the signature
      without the parts that are compared on their own. */
  datatype Item = Item(
    isPub: bool,
    sigCore: string,
    noPanic: bool,
    demands: set<string>,
    promises: set<string>,
    errors: set<string>,
    bounds: map<string, string>,
    deprecated: Option<string>)

  type Manifest = map<string, Item>

  // ----- integer ranges -----

  predicate RangeWidened(old_: string, new_: string) {
    var o, n := ParseRange(old_), ParseRange(new_);
    o.Some? && n.Some? && o.value.inclusive == n.value.inclusive && n.value.lo <= o.value.lo && n.value.hi >= o.value.hi
  }

  /** A range counts as wider when both texts spell ranges of one form and both bounds moved
      outwards or stayed. */
  lemma WidenedMeans(old_: string, new_: string)
    ensures RangeWidened(old_, new_) <==> exists o: Range, n: Range ::
      Spells(old_, o) && Spells(new_, n) && o.inclusive == n.inclusive && n.lo <= o.lo && o.hi <= n.hi
  {
    hide ParseRange, Spells;
    forall r ensures ParseRange(old_) == Some(r) <==> Spells(old_, r) { ParsesRanges(old_, r); }
    forall r ensures ParseRange(new_) == Some(r) <==> Spells(new_, r) { ParsesRanges(new_, r); }
    if RangeWidened(old_, new_) {
      assert Spells(old_, ParseRange(old_).value) && Spells(new_, ParseRange(new_).value);
    }
  }

  /** Widening is the superset relation, for ranges of one form that are not empty. */
  lemma WidenedIsSuperset(old_: string, new_: string, o: Range, n: Range)
    requires Spells(old_, o) && Spells(new_, n) && o.inclusive == n.inclusive
    ensures RangeWidened(old_, new_) ==> forall v :: o.Has(v) ==> n.Has(v)
    ensures (exists v :: o.Has(v)) && (forall v :: o.Has(v) ==> n.Has(v)) ==> RangeWidened(old_, new_)
  {
    hide ParseRange, Spells;
    ParsesRanges(old_, o);
    ParsesRanges(new_, n);
    if (exists v :: o.Has(v)) && (forall v :: o.Has(v) ==> n.Has(v)) {
      assert o.Has(o.lo) && o.Has(o.Last());
    }
  }

  // ----- what is reported -----

  datatype Verdict = Breaking | Compatible

  datatype Detail =
    | RemovedPub
    | RemovedInternal
    | Added
    | Unpublished
    | Published
    | Signature(was: string, now: string)
    | Deprecated(msg: string)
    | Undeprecated
    | Redeprecated(was: string, now: string)
    | LostNoPanic
    | GainedNoPanic
    | ErrorAdded(text: string)
    | ErrorRemoved(text: string)
    | RequiresAdded(text: string)
    | RequiresRemoved(text: string)
    | EnsuresAdded(text: string)
    | EnsuresRemoved(text: string)
    | Constrained(param: string, range: string)
    | Unconstrained(param: string)
    | Widened(param: string, was: string, now: string)
    | Narrowed(param: string, was: string, now: string)
  {
    function Verdict(): Verdict {
      match this
      case RemovedPub => Breaking
      case Unpublished => Breaking
      case Signature(_, _) => Breaking
      case LostNoPanic => Breaking
      case ErrorAdded(_) => Breaking
      case RequiresAdded(_) => Breaking
      case EnsuresRemoved(_) => Breaking
      case Constrained(_, _) => Breaking
      case Narrowed(_, _, _) => Breaking
      case _ => Compatible
    }
  }

  /** Does the pair of contracts differ in the way `d` says? */
  predicate Differs(o: Item, n: Item, d: Detail) {
    match d
    case RemovedPub => false
    case RemovedInternal => false
    case Added => false
    case Unpublished => o.isPub && !n.isPub
    case Published => !o.isPub && n.isPub
    case Signature(was, now) => was == o.sigCore && now == n.sigCore && was != now
    case Deprecated(msg) => o.deprecated.None? && n.deprecated == Some(msg)
    case Undeprecated => o.deprecated.Some? && n.deprecated.None?
    case Redeprecated(was, now) => o.deprecated == Some(was) && n.deprecated == Some(now) && was != now
    case LostNoPanic => o.noPanic && !n.noPanic
    case GainedNoPanic => !o.noPanic && n.noPanic
    case ErrorAdded(e) => e in n.errors - o.errors
    case ErrorRemoved(e) => e in o.errors - n.errors
    case RequiresAdded(r) => r in n.demands - o.demands
    case RequiresRemoved(r) => r in o.demands - n.demands
    case EnsuresAdded(s) => s in n.promises - o.promises
    case EnsuresRemoved(s) => s in o.promises - n.promises
    case Constrained(p, r) => p !in o.bounds && p in n.bounds && n.bounds[p] == r
    case Unconstrained(p) => p in o.bounds && p !in n.bounds
    case Widened(p, was, now) => Changed(o, n, p, was, now) && RangeWidened(was, now)
    case Narrowed(p, was, now) => Changed(o, n, p, was, now) && !RangeWidened(was, now)
  }

  predicate Changed(o: Item, n: Item, p: string, was: string, now: string) {
    p in o.bounds && p in n.bounds && o.bounds[p] == was && n.bounds[p] == now && was != now
  }

  method DiffItem(o: Item, n: Item) returns (out: seq<Detail>)
    ensures forall d :: d in out <==> Differs(o, n, d)
  {
    var status := DiffStatus(o, n);
    var clauses := DiffClauses(o, n);
    var bounds := DiffBounds(o, n);
    OneOfThree(o, n);
    hide Differs;
    out := status + clauses + bounds;
  }

  predicate IsStatus(d: Detail) {
    || d.Unpublished? || d.Published? || d.Signature? || d.Deprecated? || d.Undeprecated? || d.Redeprecated?
    || d.LostNoPanic? || d.GainedNoPanic?
  }

  lemma OneOfThree(o: Item, n: Item)
    ensures forall d :: Differs(o, n, d) ==> IsStatus(d) || IsClause(d) || IsBound(d)
  {
  }

  /** Visibility, signature, deprecation and `@no_panic`. */
  method DiffStatus(o: Item, n: Item) returns (out: seq<Detail>)
    ensures forall d :: d in out <==> IsStatus(d) && Differs(o, n, d)
  {
    var visibility, signature, panics := [], [], [];
    if o.isPub && !n.isPub {
      visibility := [Unpublished];
    } else if !o.isPub && n.isPub {
      visibility := [Published];
    }
    if o.sigCore != n.sigCore {
      signature := [Signature(o.sigCore, n.sigCore)];
    }
    var deprecation := DiffDeprecation(o, n);
    if o.noPanic && !n.noPanic {
      panics := [LostNoPanic];
    } else if !o.noPanic && n.noPanic {
      panics := [GainedNoPanic];
    }
    out := visibility + signature + deprecation + panics;
  }

  method DiffDeprecation(o: Item, n: Item) returns (out: seq<Detail>)
    ensures forall d :: d in out <==> (d.Deprecated? || d.Undeprecated? || d.Redeprecated?) && Differs(o, n, d)
  {
    out := [];
    match (o.deprecated, n.deprecated)
    case (None, Some(m)) => out := [Deprecated(m)];
    case (Some(_), None) => out := [Undeprecated];
    case (Some(a), Some(b)) =>
      if a != b {
        out := [Redeprecated(a, b)];
      }
    case (None, None) =>
  }

  predicate IsClause(d: Detail) {
    d.ErrorAdded? || d.ErrorRemoved? || d.RequiresAdded? || d.RequiresRemoved? || d.EnsuresAdded? || d.EnsuresRemoved?
  }

  method DiffClauses(o: Item, n: Item) returns (out: seq<Detail>)
    ensures forall d :: d in out <==> IsClause(d) && Differs(o, n, d)
  {
    var ea := Each(n.errors - o.errors, e => ErrorAdded(e));
    var er := Each(o.errors - n.errors, e => ErrorRemoved(e));
    var ra := Each(n.demands - o.demands, e => RequiresAdded(e));
    var rr := Each(o.demands - n.demands, e => RequiresRemoved(e));
    var sa := Each(n.promises - o.promises, e => EnsuresAdded(e));
    var sr := Each(o.promises - n.promises, e => EnsuresRemoved(e));
    out := ea + er + ra + rr + sa + sr;
  }

  /** One finding for each text. */
  method Each(texts: set<string>, f: string -> Detail) returns (out: seq<Detail>)
    ensures forall d :: d in out <==> exists e :: e in texts && d == f(e)
  {
    out := [];
    var rest := texts;
    while rest != {}
      invariant rest <= texts
      invariant forall d :: d in out <==> exists e :: e in texts - rest && d == f(e)
      decreases |rest|
    {
      var e :| e in rest;
      out := out + [f(e)];
      rest := rest - {e};
    }
  }

  predicate IsBound(d: Detail) { d.Constrained? || d.Unconstrained? || d.Widened? || d.Narrowed? }

  /** A narrowed range is a stronger demand; only a provable widening is not. */
  function BoundChange(o: Item, n: Item, p: string): Option<Detail> {
    if p !in o.bounds then (if p in n.bounds then Some(Constrained(p, n.bounds[p])) else None)
    else if p !in n.bounds then Some(Unconstrained(p))
    else if o.bounds[p] == n.bounds[p] then None
    else if RangeWidened(o.bounds[p], n.bounds[p]) then Some(Widened(p, o.bounds[p], n.bounds[p]))
    else Some(Narrowed(p, o.bounds[p], n.bounds[p]))
  }

  lemma BoundDiffers(o: Item, n: Item, d: Detail)
    requires IsBound(d)
    ensures Differs(o, n, d) <==> BoundChange(o, n, d.param) == Some(d)
    ensures BoundChange(o, n, d.param).Some? ==> d.param in o.bounds.Keys + n.bounds.Keys
  {
    hide RangeWidened;
  }

  lemma BoundChangeIsBound(o: Item, n: Item, p: string)
    ensures BoundChange(o, n, p).Some? ==> IsBound(BoundChange(o, n, p).value) && BoundChange(o, n, p).value.param == p
  {
    hide RangeWidened;
  }

  method DiffBounds(o: Item, n: Item) returns (out: seq<Detail>)
    ensures forall d :: d in out <==> IsBound(d) && Differs(o, n, d)
  {
    hide Differs, BoundChange;
    out := [];
    var params := o.bounds.Keys + n.bounds.Keys;
    var rest := params;
    while rest != {}
      invariant rest <= params
      invariant forall d :: d in out <==> IsBound(d) && d.param in params - rest && BoundChange(o, n, d.param) == Some(d)
      decreases |rest|
    {
      var p :| p in rest;
      var change := BoundChange(o, n, p);
      BoundChangeIsBound(o, n, p);
      if change.Some? {
        out := out + [change.value];
      }
      rest := rest - {p};
    }
    forall d | IsBound(d) ensures Differs(o, n, d) <==> d in out {
      BoundDiffers(o, n, d);
    }
  }

  datatype Change = Change(item: string, detail: Detail)

  predicate Reports(o: Manifest, n: Manifest, c: Change) {
    if c.item in o && c.item in n then Differs(o[c.item], n[c.item], c.detail)
    else if c.item in o then c.detail == if o[c.item].isPub then RemovedPub else RemovedInternal
    else c.item in n && c.detail == Added
  }

  method About(key: string, details: seq<Detail>) returns (changes: seq<Change>)
    ensures forall c: Change :: c in changes <==> c.item == key && c.detail in details
  {
    changes := [];
    for i := 0 to |details|
      invariant forall c: Change :: c in changes <==> c.item == key && c.detail in details[..i]
    {
      changes := changes + [Change(key, details[i])];
      assert details[..i + 1] == details[..i] + [details[i]];
    }
    assert details[..|details|] == details;
  }

  /** Exactly the differences there are. */
  method Diff(o: Manifest, n: Manifest) returns (changes: seq<Change>)
    ensures forall c :: c in changes <==> Reports(o, n, c)
  {
    hide Differs;
    changes := [];
    var rest := o.Keys + n.Keys;
    while rest != {}
      invariant rest <= o.Keys + n.Keys
      invariant forall c :: c in changes <==> Reports(o, n, c) && c.item !in rest
      decreases |rest|
    {
      var key :| key in rest;
      if key in o && key in n {
        var details := DiffItem(o[key], n[key]);
        var more := About(key, details);
        changes := changes + more;
      } else if key in o {
        changes := changes + [Change(key, if o[key].isPub then RemovedPub else RemovedInternal)];
      } else {
        changes := changes + [Change(key, Added)];
      }
      rest := rest - {key};
    }
  }

  ghost predicate NoBreaking(o: Manifest, n: Manifest) {
    forall c :: Reports(o, n, c) ==> c.detail.Verdict() == Compatible
  }

  // ----- what contracts mean -----

  /** What clause and range texts mean: any reading of them, as long as integer ranges mean
      what they say. */
  datatype Reading<!W> = Reading(pre: (string, W) -> bool, post: (string, W) -> bool, within: (string, int) -> bool)

  ghost predicate Faithful<W>(i: Reading<W>) {
    forall text, r: Range, v :: Spells(text, r) ==>
      (i.within(text, v) <==> r.lo <= v && (v < r.hi || (r.inclusive && v == r.hi)))
  }

  /** A reading is faithful when it takes the ranges that the diff parses at their word. */
  lemma FaithfulParses<W>(i: Reading<W>)
    ensures Faithful(i) <==>
      forall text, v :: ParseRange(text).Some? ==> (i.within(text, v) <==> ParseRange(text).value.Has(v))
  {
    hide ParseRange, Spells;
    forall text, r
      ensures ParseRange(text) == Some(r) <==> Spells(text, r)
    {
      ParsesRanges(text, r);
    }
    if Faithful(i) {
      forall text, v | ParseRange(text).Some?
        ensures i.within(text, v) <==> ParseRange(text).value.Has(v)
      {
        assert Spells(text, ParseRange(text).value);
      }
    }
  }

  datatype Call<W> = Call(args: map<string, int>, state: W)
  datatype Outcome<W> = Returns(state: W) | Fails(error: string) | Panics

  /** May the call be made under the contract? */
  ghost predicate Legal<W>(i: Reading<W>, item: Item, call: Call<W>) {
    && (forall r :: r in item.demands ==> i.pre(r, call.state))
    && (forall p :: p in item.bounds && p in call.args ==> i.within(item.bounds[p], call.args[p]))
  }

  /** May the contract's function end so? */
  ghost predicate Allowed<W>(i: Reading<W>, item: Item, out: Outcome<W>) {
    match out
    case Returns(w) => forall s :: s in item.promises ==> i.post(s, w)
    case Fails(e) => e in item.errors
    case Panics => !item.noPanic
  }

  /** Callers of `o` may be given `n`: no legal call becomes illegal, no outcome is new. */
  ghost predicate Substitutes<W(!new)>(i: Reading<W>, o: Item, n: Item) {
    && (forall call :: Legal(i, o, call) ==> Legal(i, n, call))
    && (forall out :: Allowed(i, n, out) ==> Allowed(i, o, out))
  }

  /** The differences that count as compatible leave every caller whole. */
  lemma CompatibleSubstitutes<W(!new)>(i: Reading<W>, o: Item, n: Item)
    requires Faithful(i)
    requires forall d :: Differs(o, n, d) ==> d.Verdict() == Compatible
    ensures o.isPub ==> n.isPub
    ensures o.sigCore == n.sigCore
    ensures Substitutes(i, o, n)
  {
    NoBreakingDetail(o, n);
    hide RangeWidened, Differs;
    forall call | Legal(i, o, call) ensures Legal(i, n, call) {
      forall p | p in n.bounds && p in call.args ensures i.within(n.bounds[p], call.args[p]) {
        if o.bounds[p] != n.bounds[p] {
          WithinWidened(i, o.bounds[p], n.bounds[p], call.args[p]);
        }
      }
    }
  }

  lemma WithinWidened<W>(i: Reading<W>, old_: string, new_: string, v: int)
    requires Faithful(i) && RangeWidened(old_, new_) && i.within(old_, v)
    ensures i.within(new_, v)
  {
    hide ParseRange, Spells;
    FaithfulParses(i);
  }

  lemma NoBreakingDetail(o: Item, n: Item)
    requires forall d :: Differs(o, n, d) ==> d.Verdict() == Compatible
    ensures (o.isPub ==> n.isPub) && o.sigCore == n.sigCore && (o.noPanic ==> n.noPanic)
    ensures n.errors <= o.errors && n.demands <= o.demands && o.promises <= n.promises
    ensures n.bounds.Keys <= o.bounds.Keys
    ensures forall p :: p in n.bounds ==> o.bounds[p] == n.bounds[p] || RangeWidened(o.bounds[p], n.bounds[p])
  {
    hide RangeWidened;
    assert !Differs(o, n, Unpublished) && !Differs(o, n, LostNoPanic);
    assert !Differs(o, n, Signature(o.sigCore, n.sigCore));
    forall e ensures e in n.errors ==> e in o.errors { assert !Differs(o, n, ErrorAdded(e)); }
    forall r ensures r in n.demands ==> r in o.demands { assert !Differs(o, n, RequiresAdded(r)); }
    forall s ensures s in o.promises ==> s in n.promises { assert !Differs(o, n, EnsuresRemoved(s)); }
    forall p | p in n.bounds
      ensures p in o.bounds && (o.bounds[p] == n.bounds[p] || RangeWidened(o.bounds[p], n.bounds[p]))
    {
      assert !Differs(o, n, Constrained(p, n.bounds[p]));
      assert !Differs(o, n, Narrowed(p, o.bounds[p], n.bounds[p]));
    }
  }

  /** Behavioural subtyping: a diff without a breaking change keeps every public promise,
      under any reading of the clauses. */
  lemma NoBreakingKeepsPromises<W(!new)>(i: Reading<W>, o: Manifest, n: Manifest, key: string)
    requires Faithful(i) && NoBreaking(o, n) && key in o && o[key].isPub
    ensures key in n && n[key].isPub && n[key].sigCore == o[key].sigCore
    ensures Substitutes(i, o[key], n[key])
  {
    assert !Reports(o, n, Change(key, RemovedPub));
    forall d | Differs(o[key], n[key], d) ensures d.Verdict() == Compatible {
      assert Reports(o, n, Change(key, d));
    }
    hide Differs;
    CompatibleSubstitutes(i, o[key], n[key]);
  }

  /** Does the old range let in an integer that the new one may keep out? A range that is not
      literal may mean anything. */
  predicate Narrows(was: string, now: string) {
    match (ParseRange(was), ParseRange(now))
    case (Some(a), Some(b)) => !a.Empty() && !(b.lo <= a.lo && a.Last() <= b.Last())
    case (Some(a), None) => !a.Empty()
    case (None, _) => true
  }

  /** The report is right exactly then: ranges of two forms, and empty ones, are reported without
      a closer look. */
  lemma NarrowedIsRealIff(was: string, now: string)
    requires was != now
    ensures Narrows(was, now) <==> exists i: Reading<int>, v :: Faithful(i) && i.within(was, v) && !i.within(now, v)
  {
    hide ParseRange, Faithful;
    forall i: Reading<int> | Faithful(i)
      ensures forall text, v :: ParseRange(text).Some? ==> (i.within(text, v) <==> ParseRange(text).value.Has(v))
    {
      FaithfulParses(i);
    }
    if Narrows(was, now) {
      var v := KeptOut(was, now);
      assert Faithful(Refuses(now)) && Refuses(now).within(was, v) && !Refuses(now).within(now, v);
    }
  }

  lemma KeptOut(was: string, now: string) returns (v: int)
    requires was != now && Narrows(was, now)
    ensures Faithful(Refuses(now)) && Refuses(now).within(was, v) && !Refuses(now).within(now, v)
  {
    hide ParseRange, Faithful;
    FaithfulParses(Refuses(now));
    match (ParseRange(was), ParseRange(now))
    case (Some(a), Some(b)) => v := if a.lo < b.lo then a.lo else a.Last();
    case (Some(a), None) => v := a.lo;
    case (None, Some(b)) => v := b.lo - 1;
    case (None, None) => v := 0;
  }

  /** And nothing is breaking without reason: each breaking verdict about a contract comes with
      a reading under which some caller is let down, but for a range that only looks narrower. */
  lemma BreakingIsReal(o: Item, n: Item, d: Detail) returns (i: Reading<int>)
    requires Differs(o, n, d) && d.Verdict() == Breaking
    requires !d.Unpublished? && !d.Signature?
    requires d.Narrowed? ==> Narrows(d.was, d.now)
    ensures Faithful(i) && !Substitutes(i, o, n)
  {
    hide ParseRange, RangeWidened, Narrows, Faithful;
    i := Refuses("");
    RefusesFaithfully("");
    match d
    case LostNoPanic =>
      assert Allowed(i, n, Panics) && !Allowed(i, o, Panics);
    case ErrorAdded(e) =>
      assert Allowed(i, n, Fails(e)) && !Allowed(i, o, Fails(e));
    case RequiresAdded(r) =>
      i := i.(pre := (t, w) => t != r);
      FaithfulParses(i);
      var call := Call(map[], 0);
      assert Legal(i, o, call) && !Legal(i, n, call);
    case EnsuresRemoved(s) =>
      i := i.(post := (t, w) => t != s);
      FaithfulParses(i);
      assert Allowed(i, n, Returns(0)) && !Allowed(i, o, Returns(0));
    case Constrained(p, r) =>
      i := Refuses(r);
      RefusesFaithfully(r);
      ShutsOut(i, o, n, p, match ParseRange(r) case Some(b) => b.lo - 1 case None => 0);
    case Narrowed(p, was, now) =>
      i := Refuses(now);
      var v := KeptOut(was, now);
      ShutsOut(i, o, n, p, v);
  }

  /** The reading under which one range, if it is symbolic, accepts nothing. */
  ghost function Refuses(text: string): Reading<int> {
    Reading((t, w) => true, (t, w) => true,
      (t: string, v: int) => if ParseRange(t).Some? then ParseRange(t).value.Has(v) else t != text)
  }

  lemma RefusesFaithfully(text: string)
    ensures Faithful(Refuses(text))
  {
    hide ParseRange, Faithful;
    FaithfulParses(Refuses(text));
  }

  lemma ShutsOut(i: Reading<int>, o: Item, n: Item, p: string, v: int)
    requires forall t, w :: i.pre(t, w)
    requires p in n.bounds && !i.within(n.bounds[p], v) && (p in o.bounds ==> i.within(o.bounds[p], v))
    ensures !Substitutes(i, o, n)
  {
    var call := Call(map[p := v], 0);
    assert Legal(i, o, call) && !Legal(i, n, call);
  }

  /** One range written in two forms, as `0..9` and `0..=8`: reported as breaking, though no
      call is shut out. */
  lemma SameRangeIsReported(lo: int, hi: int)
    requires -9_223_372_036_854_775_808 <= lo <= 9_223_372_036_854_775_807
    requires -9_223_372_036_854_775_808 <= hi < 9_223_372_036_854_775_807
    ensures var was, now := Signed(lo) + ".." + Signed(hi + 1), Signed(lo) + "..=" + Signed(hi);
      && !RangeWidened(was, now) && !RangeWidened(now, was) && !Narrows(was, now) && !Narrows(now, was)
      && ParseRange(was).Some? && ParseRange(now).Some?
      && (forall v :: ParseRange(was).value.Has(v) <==> ParseRange(now).value.Has(v))
  {
    hide ParseRange, Signed;
    PrintedRangeParses(Range(lo, hi + 1, false));
    PrintedRangeParses(Range(lo, hi, true));
  }

  // ----- across versions -----

  lemma Reflexive(m: Manifest)
    ensures NoBreaking(m, m)
  {
  }

  /** No public item breaks between the two. */
  ghost predicate NoPublicBreaking(o: Manifest, n: Manifest) {
    forall c :: Reports(o, n, c) && c.item in o && o[c.item].isPub ==> c.detail.Verdict() == Compatible
  }

  lemma WidenedTransitive(a: string, b: string, c: string)
    requires RangeWidened(a, b) && RangeWidened(b, c)
    ensures RangeWidened(a, c)
  {
  }

  /** Without a break at any step there is none over all of them. */
  lemma Composes(a: Manifest, b: Manifest, c: Manifest)
    requires NoPublicBreaking(a, b) && NoPublicBreaking(b, c)
    ensures NoPublicBreaking(a, c)
  {
    forall ch | Reports(a, c, ch) && ch.item in a && a[ch.item].isPub ensures ch.detail.Verdict() == Compatible {
      var k := ch.item;
      PublicSurvives(a, b, k);
      PublicSurvives(b, c, k);
      NoBreakingDetail(a[k], b[k]);
      NoBreakingDetail(b[k], c[k]);
      hide RangeWidened;
      if ch.detail.Narrowed? {
        var p := ch.detail.param;
        if a[k].bounds[p] != b[k].bounds[p] && b[k].bounds[p] != c[k].bounds[p] {
          WidenedTransitive(a[k].bounds[p], b[k].bounds[p], c[k].bounds[p]);
        }
      }
    }
  }

  lemma PublicSurvives(o: Manifest, n: Manifest, key: string)
    requires NoPublicBreaking(o, n) && key in o && o[key].isPub
    ensures key in n && n[key].isPub
    ensures forall d :: Differs(o[key], n[key], d) ==> d.Verdict() == Compatible
  {
    assert !Reports(o, n, Change(key, RemovedPub));
    forall d | Differs(o[key], n[key], d) ensures d.Verdict() == Compatible {
      assert Reports(o, n, Change(key, d));
    }
    assert !Differs(o[key], n[key], Unpublished);
  }

  /** Internal items are judged too, and there the steps do not add up: one that is dropped
      and comes back with another signature breaks only over the two steps together. */
  lemma InternalDoesNotCompose(o: Item, n: Item)
    requires !o.isPub && o.sigCore != n.sigCore
    ensures var a, b, c := map["fn f" := o], map[], map["fn f" := n];
      NoBreaking(a, b) && NoBreaking(b, c) && !NoBreaking(a, c)
  {
    var a: Manifest, b: Manifest, c: Manifest := map["fn f" := o], map[], map["fn f" := n];
    assert Reports(a, c, Change("fn f", Signature(o.sigCore, n.sigCore)));
  }
}
