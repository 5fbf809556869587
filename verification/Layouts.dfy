/** Placing fields: the C rule, and the order that wastes nothing between fields. */
module Layouts {
  import opened Scattering

  datatype Layout = Layout(size: nat, align: nat)

  /** Alignments are powers of two and sizes whole multiples of them. */
  ghost predicate Aligned(l: Layout) { PowerOfTwo(l.align) && Multiple(l.size, l.align) }

  ghost predicate PowerOfTwo(n: nat) { exists e: nat :: n == Pow2(e) }

  ghost predicate Multiple(n: nat, d: nat) { exists q: nat :: n == q * d }

  function AlignTo(n: nat, align: nat): nat {
    if align == 0 then n else (n + align - 1) / align * align
  }

  lemma AlignToBounds(n: nat, align: nat)
    requires align > 0
    ensures n <= AlignTo(n, align) < n + align && Multiple(AlignTo(n, align), align)
  {
    var x := n + align - 1;
    assert x == align * (x / align) + x % align;
  }

  lemma ProductGrows(a: nat, b: nat, d: nat)
    requires a < b
    ensures a * d + d <= b * d
  {
    assert b * d == a * d + (b - a) * d;
    assert (b - a) * d >= d by { assert (b - a) * d == d + (b - a - 1) * d; }
  }

  lemma AddMultiples(x: nat, y: nat, d: nat)
    requires Multiple(x, d) && Multiple(y, d)
    ensures Multiple(x + y, d)
  {
    var a: nat :| x == a * d;
    var b: nat :| y == b * d;
    assert x + y == (a + b) * d;
  }

  lemma MultipleOfMultiple(x: nat, a: nat, b: nat)
    requires Multiple(x, a) && Multiple(a, b)
    ensures Multiple(x, b)
  {
    var q: nat :| x == q * a;
    var k: nat :| a == k * b;
    assert x == (q * k) * b by { Regroup(q, k, b); }
  }

  lemma Regroup(a: nat, b: nat, c: nat)
    ensures (a * b) * c == a * (b * c)
  {
  }

  /** Of two powers of two the larger is a multiple of the smaller. */
  lemma PowersDivide(a: nat, b: nat)
    requires PowerOfTwo(a) && PowerOfTwo(b) && b <= a
    ensures Multiple(a, b)
  {
    var x: nat :| a == Pow2(x);
    var y: nat :| b == Pow2(y);
    if x < y {
      Pow2Strict(x, y);
    }
    Pow2Add(x - y, y);
  }

  lemma {:induction false} Pow2Strict(x: nat, y: nat)
    requires x < y
    ensures Pow2(x) < Pow2(y)
    decreases y
  {
    if x < y - 1 {
      Pow2Strict(x, y - 1);
    }
  }

  lemma AlreadyAligned(n: nat, align: nat)
    requires align > 0 && Multiple(n, align)
    ensures AlignTo(n, align) == n
  {
    AlignToBounds(n, align);
    hide AlignTo;
    var r := AlignTo(n, align);
    var q: nat :| r == q * align;
    var k: nat :| n == k * align;
    if k < q { ProductGrows(k, q, align); }
    if q < k { ProductGrows(q, k, align); }
  }

  lemma AlignToMonotone(a: nat, b: nat, align: nat)
    requires a <= b
    ensures AlignTo(a, align) <= AlignTo(b, align)
  {
    if align > 0 {
      AlignToBounds(a, align);
      AlignToBounds(b, align);
      hide AlignTo;
      var p: nat :| AlignTo(a, align) == p * align;
      var q: nat :| AlignTo(b, align) == q * align;
      if q < p { ProductGrows(q, p, align); }
    }
  }

  function Max(a: nat, b: nat): nat { if a >= b then a else b }

  // ----- the C rule -----

  function MaxAlign(fields: seq<Layout>): (a: nat)
    ensures a >= 1
  {
    if fields == [] then 1 else Max(MaxAlign(fields[..|fields| - 1]), fields[|fields| - 1].align)
  }

  function SumSizes(fields: seq<Layout>): nat {
    if fields == [] then 0 else SumSizes(fields[..|fields| - 1]) + fields[|fields| - 1].size
  }

  /** Where the fields end when each starts at the next multiple of its alignment. */
  function End(fields: seq<Layout>): nat {
    if fields == [] then 0
    else
      var last := fields[|fields| - 1];
      AlignTo(End(fields[..|fields| - 1]), last.align) + last.size
  }

  function OffsetAt(fields: seq<Layout>, i: nat): nat
    requires i < |fields|
  {
    AlignTo(End(fields[..i]), fields[i].align)
  }

  function Aggregate(fields: seq<Layout>): Layout {
    Layout(AlignTo(End(fields), MaxAlign(fields)), MaxAlign(fields))
  }

  /** The loop: a running offset and the strictest alignment so far. */
  method PlaceFields(fields: seq<Layout>) returns (whole: Layout, offsets: seq<nat>)
    ensures whole == Aggregate(fields)
    ensures |offsets| == |fields| && forall i :: 0 <= i < |fields| ==> offsets[i] == OffsetAt(fields, i)
  {
    var offset, align := 0, 1;
    offsets := [];
    for i := 0 to |fields|
      invariant offset == End(fields[..i]) && align == MaxAlign(fields[..i])
      invariant |offsets| == i && forall j :: 0 <= j < i ==> offsets[j] == OffsetAt(fields, j)
    {
      var f := fields[i];
      offset := AlignTo(offset, f.align);
      offsets := offsets + [offset];
      offset := offset + f.size;
      align := Max(align, f.align);
      assert fields[..i + 1][..i] == fields[..i];
    }
    assert fields[..|fields|] == fields;
    whole := Layout(AlignTo(offset, align), align);
  }

  // ----- what any order gives -----

  lemma {:induction false} MaxAlignIsMax(fields: seq<Layout>, i: nat)
    requires i < |fields|
    ensures fields[i].align <= MaxAlign(fields)
    decreases |fields|
  {
    if i < |fields| - 1 {
      MaxAlignIsMax(fields[..|fields| - 1], i);
    }
  }

  lemma {:induction false} MaxAlignIsOne(fields: seq<Layout>)
    ensures MaxAlign(fields) == 1 || exists i :: 0 <= i < |fields| && fields[i].align == MaxAlign(fields)
    decreases |fields|
  {
    if fields != [] {
      var front := fields[..|fields| - 1];
      MaxAlignIsOne(front);
      if MaxAlign(fields) == MaxAlign(front) && MaxAlign(front) != 1 {
        var i :| 0 <= i < |front| && front[i].align == MaxAlign(front);
        assert fields[i].align == MaxAlign(fields);
      }
    }
  }

  lemma {:induction false} EndCoversSizes(fields: seq<Layout>)
    ensures SumSizes(fields) <= End(fields)
    decreases |fields|
  {
    if fields != [] {
      var front, last := fields[..|fields| - 1], fields[|fields| - 1];
      EndCoversSizes(front);
      if last.align > 0 {
        AlignToBounds(End(front), last.align);
      }
    }
  }

  /** Aggregates of aligned fields are aligned, so the rule holds at every depth. */
  lemma AggregateAligned(fields: seq<Layout>)
    requires forall f :: f in fields ==> Aligned(f)
    ensures Aligned(Aggregate(fields))
  {
    AlignToBounds(End(fields), MaxAlign(fields));
    MaxAlignIsOne(fields);
    if MaxAlign(fields) == 1 {
      assert Pow2(0) == 1;
    } else {
      var i :| 0 <= i < |fields| && fields[i].align == MaxAlign(fields);
      assert Aligned(fields[i]);
    }
  }

  // ----- the chosen order -----

  predicate Below(order: seq<nat>, n: nat) { forall i :: 0 <= i < |order| ==> order[i] < n }

  /** The fields' indices by falling alignment; ties keep declaration order. */
  function AutoOrder(aligns: seq<nat>): (order: seq<nat>)
    ensures |order| == |aligns| && Below(order, |aligns|)
  {
    if aligns == [] then []
    else
      var n := |aligns| - 1;
      InsertByAlign(AutoOrder(aligns[..n]), n, aligns)
  }

  /** Index `k` goes behind every index whose alignment is at least its own. */
  function InsertByAlign(order: seq<nat>, k: nat, aligns: seq<nat>): (r: seq<nat>)
    requires k < |aligns| && Below(order, |aligns|)
    ensures |r| == |order| + 1 && Below(r, |aligns|)
  {
    if order == [] || aligns[order[|order| - 1]] >= aligns[k] then order + [k]
    else
      InsertByAlign(order[..|order| - 1], k, aligns) + [order[|order| - 1]]
  }

  lemma {:induction false} InsertAddsOne(order: seq<nat>, k: nat, aligns: seq<nat>)
    requires k < |aligns| && Below(order, |aligns|)
    ensures multiset(InsertByAlign(order, k, aligns)) == multiset(order) + multiset{k}
    decreases |order|
  {
    if order != [] {
      InsertAddsOne(order[..|order| - 1], k, aligns);
      assert order == order[..|order| - 1] + [order[|order| - 1]];
    }
  }

  lemma RemoveAt<T>(s: seq<T>, at: nat)
    requires at < |s|
    ensures multiset(s[..at] + s[at + 1..]) == multiset(s) - multiset{s[at]}
  {
    assert s == s[..at] + [s[at]] + s[at + 1..];
  }

  /** Falling alignment, and among equal ones rising index. */
  predicate InAutoOrder(order: seq<nat>, aligns: seq<nat>)
    requires Below(order, |aligns|)
  {
    forall i, j :: 0 <= i < j < |order| ==>
      aligns[order[i]] > aligns[order[j]] || (aligns[order[i]] == aligns[order[j]] && order[i] < order[j])
  }

  lemma {:induction false} InsertMembers(order: seq<nat>, k: nat, aligns: seq<nat>)
    requires k < |aligns| && Below(order, |aligns|)
    ensures forall x :: x in InsertByAlign(order, k, aligns) ==> x == k || x in order
    decreases |order|
  {
    if order != [] && aligns[order[|order| - 1]] < aligns[k] {
      InsertMembers(order[..|order| - 1], k, aligns);
    }
  }

  predicate Sooner(aligns: seq<nat>, x: nat, y: nat)
    requires x < |aligns| && y < |aligns|
  {
    aligns[x] > aligns[y] || (aligns[x] == aligns[y] && x < y)
  }

  lemma FrontSooner(order: seq<nat>, aligns: seq<nat>, x: nat)
    requires Below(order, |aligns|) && InAutoOrder(order, aligns) && order != [] && x in order[..|order| - 1]
    ensures x < |aligns| && Sooner(aligns, x, order[|order| - 1])
  {
    var i :| 0 <= i < |order| - 1 && order[i] == x;
  }

  lemma LastInOrder(r: seq<nat>, last: nat, aligns: seq<nat>)
    requires Below(r, |aligns|) && InAutoOrder(r, aligns) && last < |aligns|
    requires forall x :: x in r ==> Sooner(aligns, x, last)
    ensures Below(r + [last], |aligns|) && InAutoOrder(r + [last], aligns)
  {
    forall i | 0 <= i < |r| ensures Sooner(aligns, r[i], last) {
      assert r[i] in r;
    }
  }

  lemma {:induction false} InsertKeepsAutoOrder(order: seq<nat>, k: nat, aligns: seq<nat>)
    requires k < |aligns| && Below(order, k) && InAutoOrder(order, aligns)
    ensures InAutoOrder(InsertByAlign(order, k, aligns), aligns)
    decreases |order|
  {
    hide InAutoOrder;
    if order == [] {
      assert order + [k] == [k];
      OneInOrder([k], aligns);
    } else {
      var front, last := order[..|order| - 1], order[|order| - 1];
      FrontInOrder(order, aligns);
      if aligns[last] < aligns[k] {
        InsertKeepsAutoOrder(front, k, aligns);
        InsertMembers(front, k, aligns);
        var r := InsertByAlign(front, k, aligns);
        forall x | x in r ensures Sooner(aligns, x, last) {
          if x != k {
            FrontSooner(order, aligns, x);
          }
        }
        LastInOrder(r, last, aligns);
      } else {
        forall x | x in order ensures Sooner(aligns, x, k) {
          assert x == last || x in front;
          if x != last {
            FrontSooner(order, aligns, x);
          }
        }
        LastInOrder(order, k, aligns);
      }
    }
  }

  lemma OneInOrder(order: seq<nat>, aligns: seq<nat>)
    requires Below(order, |aligns|) && |order| == 1
    ensures InAutoOrder(order, aligns)
  {
  }

  lemma FrontInOrder(order: seq<nat>, aligns: seq<nat>)
    requires Below(order, |aligns|) && InAutoOrder(order, aligns) && order != []
    ensures Below(order[..|order| - 1], |aligns|) && InAutoOrder(order[..|order| - 1], aligns)
  {
  }

  lemma {:induction false} AutoOrderOrders(aligns: seq<nat>)
    ensures InAutoOrder(AutoOrder(aligns), aligns)
    decreases |aligns|
  {
    if aligns != [] {
      var n := |aligns| - 1;
      AutoOrderOrders(aligns[..n]);
      InsertKeepsAutoOrder(AutoOrder(aligns[..n]), n, aligns);
    }
  }

  /** The sort in place: each index moves forward past those of smaller alignment. */
  method SortByAlign(aligns: seq<nat>) returns (order: array<nat>)
    ensures fresh(order) && order[..] == AutoOrder(aligns)
  {
    order := new nat[|aligns|](i => i);
    for n := 0 to |aligns|
      invariant fresh(order) && order.Length == |aligns|
      invariant order[..n] == AutoOrder(aligns[..n])
      invariant forall k :: n <= k < |aligns| ==> order[k] == k
    {
      ghost var sorted := order[..n];
      SameInsert(sorted, n, aligns[..n + 1], aligns);
      assert aligns[..n + 1][..n] == aligns[..n];
      Insert(order, n, aligns);
    }
    assert aligns[..|aligns|] == aligns;
    assert order[..] == order[..|aligns|];
  }

  method Insert(order: array<nat>, n: nat, aligns: seq<nat>)
    requires n < order.Length == |aligns| && Below(order[..n], n)
    modifies order
    ensures order[..n + 1] == InsertByAlign(old(order[..n]), n, aligns)
    ensures forall k :: n < k < order.Length ==> order[k] == old(order[k])
  {
    hide InsertByAlign, Shifted;
    ghost var sorted := order[..n];
    var j := n;
    NotShifted(order[..], n);
    while j > 0 && aligns[order[j - 1]] < aligns[n]
      invariant 0 <= j <= n && Shifted(order[..], sorted, j, n)
      invariant j > 0 ==> order[j - 1] == sorted[j - 1]
      invariant forall k :: n < k < order.Length ==> order[k] == old(order[k])
      invariant forall k :: j <= k < n ==> aligns[sorted[k]] < aligns[n]
    {
      ghost var before := order[..];
      ShiftOne(before, sorted, j, n);
      order[j] := order[j - 1];
      j := j - 1;
      assert order[..] == before[j + 1 := before[j]];
    }
    ghost var shifted := order[..];
    order[j] := n;
    InsertsAt(sorted, j, n, aligns);
    Assembled(shifted, sorted, j, n);
    assert order[..] == shifted[j := n];
    assert order[..n + 1] == order[..][..n + 1];
  }

  /** The sorted indices from `j` on have moved one place up. */
  ghost predicate Shifted(now: seq<nat>, sorted: seq<nat>, j: nat, n: nat) {
    && j <= n == |sorted| < |now|
    && (forall k :: 0 <= k < j ==> now[k] == sorted[k])
    && (forall k :: j <= k < n ==> now[k + 1] == sorted[k])
  }

  lemma NotShifted(now: seq<nat>, n: nat)
    requires n < |now|
    ensures Shifted(now, now[..n], n, n)
  {
  }

  lemma ShiftOne(now: seq<nat>, sorted: seq<nat>, j: nat, n: nat)
    requires Shifted(now, sorted, j, n) && j > 0
    ensures |now| > j && Shifted(now[j := now[j - 1]], sorted, j - 1, n)
    ensures j > 1 ==> now[j := now[j - 1]][j - 2] == sorted[j - 2]
  {
  }

  lemma Assembled(now: seq<nat>, sorted: seq<nat>, j: nat, n: nat)
    requires Shifted(now, sorted, j, n)
    ensures |now| > n && now[j := n][..n + 1] == sorted[..j] + [n] + sorted[j..]
  {
    var next := now[j := n][..n + 1];
    forall k | 0 <= k <= n ensures next[k] == (sorted[..j] + [n] + sorted[j..])[k] {
      if k > j {
        assert now[(k - 1) + 1] == sorted[k - 1];
      }
    }
  }

  /** The place where an index stops. */
  lemma {:induction false} InsertsAt(order: seq<nat>, j: nat, k: nat, aligns: seq<nat>)
    requires j <= |order| && k < |aligns| && Below(order, |aligns|)
    requires forall i :: j <= i < |order| ==> aligns[order[i]] < aligns[k]
    requires j > 0 ==> aligns[order[j - 1]] >= aligns[k]
    ensures InsertByAlign(order, k, aligns) == order[..j] + [k] + order[j..]
    decreases |order|
  {
    if j < |order| {
      var front := order[..|order| - 1];
      InsertsAt(front, j, k, aligns);
      assert front[..j] == order[..j] && order[j..] == front[j..] + [order[|order| - 1]];
    } else {
      assert order[..j] == order;
    }
  }

  lemma {:induction false} SameInsert(order: seq<nat>, k: nat, a: seq<nat>, b: seq<nat>)
    requires k < |a| <= |b| && a == b[..|a|] && Below(order, |a|)
    ensures InsertByAlign(order, k, a) == InsertByAlign(order, k, b)
    decreases |order|
  {
    if order != [] {
      SameInsert(order[..|order| - 1], k, a, b);
    }
  }

  function Aligns(fields: seq<Layout>): (r: seq<nat>)
    ensures |r| == |fields| && forall i :: 0 <= i < |fields| ==> r[i] == fields[i].align
  {
    seq(|fields|, i requires 0 <= i < |fields| => fields[i].align)
  }

  /** The elements in the order given. */
  function Emitted<T>(xs: seq<T>, order: seq<nat>): (r: seq<T>)
    requires Below(order, |xs|)
    ensures |r| == |order| && forall i :: 0 <= i < |order| ==> r[i] == xs[order[i]]
  {
    seq(|order|, i requires 0 <= i < |order| => xs[order[i]])
  }

  function Auto(fields: seq<Layout>): seq<Layout> { Emitted(fields, AutoOrder(Aligns(fields))) }

  // ----- it is the best order -----

  /** In falling order of alignment no padding falls between fields. */
  lemma {:induction false} NoPadding(fields: seq<Layout>)
    requires forall f :: f in fields ==> Aligned(f)
    requires forall i, j :: 0 <= i < j < |fields| ==> fields[i].align >= fields[j].align
    ensures End(fields) == SumSizes(fields)
    ensures forall i :: 0 <= i < |fields| ==> OffsetAt(fields, i) == SumSizes(fields[..i])
    decreases |fields|
  {
    if fields != [] {
      var front, last := fields[..|fields| - 1], fields[|fields| - 1];
      NoPadding(front);
      assert last in fields && Aligned(last);
      SumIsMultiple(front, last.align);
      AlreadyAligned(SumSizes(front), last.align);
      forall i | 0 <= i < |fields| ensures OffsetAt(fields, i) == SumSizes(fields[..i]) {
        if i < |front| {
          assert OffsetAt(front, i) == SumSizes(front[..i]);
          assert front[..i] == fields[..i];
        }
      }
    }
  }

  lemma {:induction false} SumIsMultiple(fields: seq<Layout>, align: nat)
    requires PowerOfTwo(align)
    requires forall f :: f in fields ==> Aligned(f) && f.align >= align
    ensures Multiple(SumSizes(fields), align)
    decreases |fields|
  {
    if fields != [] {
      var last := fields[|fields| - 1];
      SumIsMultiple(fields[..|fields| - 1], align);
      assert Aligned(last);
      PowersDivide(last.align, align);
      MultipleOfMultiple(last.size, last.align, align);
      AddMultiples(SumSizes(fields[..|fields| - 1]), last.size, align);
    } else {
      assert 0 == 0 * align;
    }
  }

  lemma {:induction false} SameFieldsSameSum(a: seq<Layout>, b: seq<Layout>)
    requires multiset(a) == multiset(b)
    ensures SumSizes(a) == SumSizes(b) && MaxAlign(a) == MaxAlign(b) && |a| == |b|
    decreases |a|
  {
    if a == [] {
      assert |multiset(b)| == 0;
    } else {
      var last := a[|a| - 1];
      assert last in multiset(a);
      var i :| 0 <= i < |b| && b[i] == last;
      var rest := b[..i] + b[i + 1..];
      assert a == a[..|a| - 1] + [last];
      RemoveAt(b, i);
      SameFieldsSameSum(a[..|a| - 1], rest);
      MoveToEnd(b, i);
    }
  }

  lemma {:induction false} MoveToEnd(b: seq<Layout>, i: nat)
    requires i < |b|
    ensures var rest := b[..i] + b[i + 1..];
      SumSizes(b) == SumSizes(rest) + b[i].size && MaxAlign(b) == Max(MaxAlign(rest), b[i].align)
    decreases |b|
  {
    var rest := b[..i] + b[i + 1..];
    if i == |b| - 1 {
      assert rest == b[..|b| - 1];
    } else {
      MoveToEnd(b[..|b| - 1], i);
      LastStays(b, i);
    }
  }

  lemma LastStays(b: seq<Layout>, i: nat)
    requires i < |b| - 1
    ensures var front, rest := b[..|b| - 1], b[..i] + b[i + 1..];
      rest[..|rest| - 1] == front[..i] + front[i + 1..] && rest[|rest| - 1] == b[|b| - 1] && front[i] == b[i]
  {
  }

  function UpTo(n: nat): (r: seq<nat>)
    ensures |r| == n
  {
    if n == 0 then [] else UpTo(n - 1) + [n - 1]
  }

  lemma {:induction false} UpToIsBelow(n: nat)
    ensures Below(UpTo(n), n)
  {
    if n > 0 {
      UpToIsBelow(n - 1);
    }
  }

  lemma {:induction false} EmittedSameMembers<T>(fields: seq<T>, order: seq<nat>)
    requires |order| == |fields| && multiset(order) == multiset(UpTo(|fields|))
    requires Below(order, |fields|)
    ensures multiset(Emitted(fields, order)) == multiset(fields)
    decreases |fields|
  {
    if fields != [] {
      var n := |fields| - 1;
      assert n in multiset(UpTo(|fields|));
      assert n in order;
      var at :| 0 <= at < |order| && order[at] == n;
      var rest := order[..at] + order[at + 1..];
      RemoveAt(order, at);
      assert multiset(rest) == multiset(UpTo(n)) by { assert multiset(UpTo(n + 1)) == multiset(UpTo(n)) + multiset{n}; }
      SameMembersBelow(rest, n);
      EmittedSameMembers(fields[..n], rest);
      EmittedWithout(fields, order, at);
    }
  }

  lemma SameMembersBelow(s: seq<nat>, n: nat)
    requires multiset(s) == multiset(UpTo(n))
    ensures Below(s, n) && |s| == n
  {
    UpToIsBelow(n);
    forall i | 0 <= i < |s| ensures s[i] < n {
      assert s[i] in multiset(s);
      assert s[i] in UpTo(n);
    }
    assert |multiset(s)| == |multiset(UpTo(n))|;
  }

  lemma EmittedWithout<T>(fields: seq<T>, order: seq<nat>, at: nat)
    requires at < |order| && |fields| > 0 && order[at] == |fields| - 1 && Below(order, |fields|)
    requires Below(order[..at] + order[at + 1..], |fields| - 1)
    ensures var rest := order[..at] + order[at + 1..];
      multiset(Emitted(fields, order)) == multiset(Emitted(fields[..|fields| - 1], rest)) + multiset{fields[|fields| - 1]}
    ensures multiset(fields) == multiset(fields[..|fields| - 1]) + multiset{fields[|fields| - 1]}
  {
    hide Emitted;
    var n := |fields| - 1;
    var r := Emitted(fields, order);
    var rest := order[..at] + order[at + 1..];
    var q := Emitted(fields[..n], rest);
    RemoveAt(r, at);
    forall i | 0 <= i < |q| ensures q[i] == (r[..at] + r[at + 1..])[i] {
      assert rest[i] == order[if i < at then i else i + 1];
    }
    assert q == r[..at] + r[at + 1..];
    assert r[at] in multiset(r);
    assert fields == fields[..n] + [fields[n]];
  }

  lemma {:induction false} AutoOrderIsPermutation(aligns: seq<nat>)
    ensures multiset(AutoOrder(aligns)) == multiset(UpTo(|aligns|))
    decreases |aligns|
  {
    if aligns != [] {
      var n := |aligns| - 1;
      AutoOrderIsPermutation(aligns[..n]);
      InsertAddsOne(AutoOrder(aligns[..n]), n, aligns);
    }
  }

  lemma AutoKeepsFields(fields: seq<Layout>)
    ensures multiset(Auto(fields)) == multiset(fields)
    ensures Aggregate(Auto(fields)).align == Aggregate(fields).align
  {
    AutoOrderIsPermutation(Aligns(fields));
    EmittedSameMembers(fields, AutoOrder(Aligns(fields)));
    SameFieldsSameSum(Auto(fields), fields);
  }

  lemma AutoIsTight(fields: seq<Layout>)
    requires forall f :: f in fields ==> Aligned(f)
    ensures End(Auto(fields)) == SumSizes(fields)
    ensures forall i :: 0 <= i < |fields| ==> OffsetAt(Auto(fields), i) == SumSizes(Auto(fields)[..i])
  {
    var best := Auto(fields);
    AutoKeepsFields(fields);
    AutoOrderOrders(Aligns(fields));
    hide Auto, End, OffsetAt, Aligned, Aggregate;
    forall f | f in best ensures Aligned(f) {
      assert f in multiset(best);
    }
    SameFieldsSameSum(best, fields);
    AutoFalls(fields);
    NoPadding(best);
  }

  lemma AutoFalls(fields: seq<Layout>)
    ensures forall i, j :: 0 <= i < j < |fields| ==> Auto(fields)[i].align >= Auto(fields)[j].align
  {
    AutoOrderOrders(Aligns(fields));
  }

  /** The chosen order has no interior padding, and no other order is smaller. */
  lemma AutoIsBest(fields: seq<Layout>, other: seq<Layout>)
    requires forall f :: f in fields ==> Aligned(f)
    requires multiset(other) == multiset(fields)
    ensures Aggregate(Auto(fields)).size <= Aggregate(other).size
    ensures Aggregate(Auto(fields)).size == AlignTo(SumSizes(fields), MaxAlign(fields))
    ensures forall i :: 0 <= i < |fields| ==> OffsetAt(Auto(fields), i) == SumSizes(Auto(fields)[..i])
  {
    AutoIsTight(fields);
    AutoKeepsFields(fields);
    SameFieldsSameSum(Auto(fields), fields);
    SameFieldsSameSum(other, fields);
    EndCoversSizes(other);
    AlignToMonotone(SumSizes(fields), End(other), MaxAlign(fields));
    hide Auto, End, OffsetAt, Aligned, AlignTo;
  }
}
