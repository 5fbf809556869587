/** Integer ranges written as text: what the parser of the contract diff makes of them, and
    how integers are written in decimal. */
module RangeTexts {
  import opened Wrappers

  // ----- the parser -----

  predicate IsBlank(c: char) { c == ' ' || '\t' <= c <= '\r' }

  function TrimStart(s: string): string
    decreases |s|
  {
    if s != [] && IsBlank(s[0]) then TrimStart(s[1..]) else s
  }

  function TrimEnd(s: string): string
    decreases |s|
  {
    if s != [] && IsBlank(s[|s| - 1]) then TrimEnd(s[..|s| - 1]) else s
  }

  function Trim(s: string): string { TrimEnd(TrimStart(s)) }

  /** Both sides of the first occurrence of `sep`. */
  function SplitOnce(s: string, sep: string): (r: Option<(string, string)>)
    ensures r.Some? ==> s == r.value.0 + sep + r.value.1
    decreases |s|
  {
    if sep <= s then Some(([], s[|sep|..]))
    else if s == [] then None
    else
      match SplitOnce(s[1..], sep)
      case None => None
      case Some((a, b)) =>
        assert s == [s[0]] + s[1..];
        assert s == [s[0]] + a + sep + b;
        Some(([s[0]] + a, b))
  }

  function Digits(s: string, acc: nat): Option<nat>
    decreases |s|
  {
    if s == [] then Some(acc)
    else if '0' <= s[0] <= '9' then Digits(s[1..], 10 * acc + (s[0] as int - '0' as int))
    else None
  }

  /** A signed 64-bit integer literal. */
  function ParseInt(s: string): Option<int> {
    var negative := s != [] && s[0] == '-';
    var body := if s != [] && (s[0] == '-' || s[0] == '+') then s[1..] else s;
    if body == [] then None
    else
      match Digits(body, 0)
      case None => None
      case Some(n) =>
        var v: int := if negative then -(n as int) else n;
        if -0x8000_0000_0000_0000 <= v <= 0x7FFF_FFFF_FFFF_FFFF then Some(v) else None
  }

  datatype Range = Range(lo: int, hi: int, inclusive: bool)
  {
    predicate Has(v: int) { lo <= v && if inclusive then v <= hi else v < hi }

    function Last(): int { if inclusive then hi else hi - 1 }

    predicate Empty() { Last() < lo }
  }

  function ParseRange(s: string): Option<Range> {
    var inclusive := SplitOnce(s, "..=").Some?;
    match SplitOnce(s, if inclusive then "..=" else "..")
    case None => None
    case Some((a, b)) =>
      var lo, hi := ParseInt(Trim(a)), ParseInt(Trim(b));
      if lo.Some? && hi.Some? then Some(Range(lo.value, hi.value, inclusive)) else None
  }

  lemma SplitHas(s: string, sep: string)
    requires sep != []
    ensures SplitOnce(s, sep).Some? ==> sep[|sep| - 1] in s
  {
    match SplitOnce(s, sep)
    case None =>
    case Some((a, b)) => assert s[|a| + |sep| - 1] == sep[|sep| - 1];
  }

  lemma {:induction false} SplitFirst(x: string, sep: string, y: string)
    requires sep != [] && sep[0] !in x
    ensures SplitOnce(x + sep + y, sep) == Some((x, y))
    decreases |x|
  {
    var s := x + sep + y;
    if x == [] {
      assert s == sep + y && s[|sep|..] == y;
    } else {
      assert s[0] == x[0] && s[1..] == x[1..] + sep + y;
      SplitFirst(x[1..], sep, y);
      assert [x[0]] + x[1..] == x;
    }
  }

  // ----- decimal notation -----

  /** An integer in decimal, without a sign. */
  function Decimal(n: nat): (s: string)
    ensures s != [] && forall c :: c in s ==> c in "0123456789"
  {
    var last := ["0123456789"[n % 10]];
    if n < 10 then last else Decimal(n / 10) + last
  }

  function Zeros(n: nat): (s: string)
    ensures |s| == n && forall c :: c in s ==> c == '0'
  {
    seq(n, i => '0')
  }

  /** `s` is a 64-bit `v` in decimal, with leading zeros and a sign as they please. */
  ghost predicate Denotes(s: string, v: int) {
    && -9_223_372_036_854_775_808 <= v <= 9_223_372_036_854_775_807
    && exists sign: string, zeros: nat :: Writes(s, v, sign, zeros)
  }

  predicate Writes(s: string, v: int, sign: string, zeros: nat) {
    && (sign == "-" || sign == "+" || sign == "")
    && (if sign == "-" then v <= 0 else v >= 0)
    && s == sign + (Zeros(zeros) + Decimal(if v < 0 then -v else v))
  }

  predicate Blank(s: string) {
    forall i :: 0 <= i < |s| ==> s[i] in {' ', '\t', '\n', '\r', '\U{0B}', '\U{0C}'}
  }

  /** `v` with blanks around it. */
  ghost predicate Pads(s: string, v: int) {
    exists a: string, l: string, b: string :: Blank(a) && Denotes(l, v) && Blank(b) && s == a + l + b
  }

  /** `lo..hi` or `lo..=hi`. */
  ghost predicate Spells(text: string, r: Range) {
    exists x: string, y: string :: Pads(x, r.lo) && Pads(y, r.hi) && text == x + Dots(r.inclusive) + y
  }

  function Dots(inclusive: bool): string { if inclusive then "..=" else ".." }

  // ----- the parser reads decimal notation -----

  lemma {:induction false} DigitsAppend(s: string, c: char, acc: nat)
    ensures Digits(s + [c], acc) == match Digits(s, acc)
      case None => None
      case Some(m) => if '0' <= c <= '9' then Some(10 * m + (c as int - '0' as int)) else None
    decreases |s|
  {
    if s == [] {
      assert [c][1..] == [];
      assert s + [c] == [c];
      assert forall n: nat :: Digits([], n) == Some(n);
    } else {
      assert (s + [c])[1..] == s[1..] + [c];
      if '0' <= s[0] <= '9' {
        DigitsAppend(s[1..], c, 10 * acc + (s[0] as int - '0' as int));
      }
    }
  }

  lemma {:induction false} ZerosAreNothing(z: nat)
    ensures Digits(Zeros(z), 0) == Some(0)
    decreases z
  {
    if z > 0 {
      assert Zeros(z)[1..] == Zeros(z - 1);
      ZerosAreNothing(z - 1);
    }
  }

  lemma {:induction false} DigitsOfDecimal(z: nat, n: nat)
    ensures Digits(Zeros(z) + Decimal(n), 0) == Some(n)
    decreases n
  {
    var c := "0123456789"[n % 10];
    assert c as int == '0' as int + n % 10;
    if n < 10 {
      ZerosAreNothing(z);
      DigitsAppend(Zeros(z), c, 0);
    } else {
      DigitsOfDecimal(z, n / 10);
      DigitsAppend(Zeros(z) + Decimal(n / 10), c, 0);
      assert Zeros(z) + Decimal(n) == Zeros(z) + Decimal(n / 10) + [c];
    }
  }

  lemma DecimalEnds(m: nat, d: nat)
    requires d < 10
    ensures Decimal(10 * m + d) == (if m == 0 then "" else Decimal(m)) + ["0123456789"[d]]
    ensures m == 0 ==> Decimal(m) == "0"
  {
    assert (10 * m + d) / 10 == m && (10 * m + d) % 10 == d;
    if m == 0 {
      assert "" + ["0123456789"[d]] == ["0123456789"[d]];
    }
  }

  lemma DigitIs(c: char)
    requires '0' <= c <= '9'
    ensures "0123456789"[c as int - '0' as int] == c
  {
  }

  lemma LastDigit(t: string, c: char, n: nat) returns (m: nat)
    requires Digits(t + [c], 0) == Some(n)
    ensures Digits(t, 0) == Some(m) && '0' <= c <= '9' && n == 10 * m + (c as int - '0' as int)
  {
    DigitsAppend(t, c, 0);
    m := Digits(t, 0).value;
  }

  /** Every text of digits is a number in decimal behind zeros. */
  lemma {:induction false} DigitsAreDecimal(s: string, n: nat) returns (z: nat)
    requires s != [] && Digits(s, 0) == Some(n)
    ensures s == Zeros(z) + Decimal(n)
    decreases |s|
  {
    hide Decimal, Digits;
    var t, c := s[..|s| - 1], s[|s| - 1];
    assert s == t + [c];
    var m := LastDigit(t, c, n);
    DigitIs(c);
    DecimalEnds(m, c as int - '0' as int);
    if t == [] {
      z := 0;
      ZerosAreNothing(0);
      assert Zeros(0) == t;
    } else {
      z := DigitsAreDecimal(t, m);
      if m == 0 {
        assert t == Zeros(z + 1);
        z := z + 1;
      } else {
        assert s == Zeros(z) + (Decimal(m) + [c]);
      }
    }
  }

  /** The literals of the parser are the integers of 64 bits in decimal. */
  lemma ParsesDecimal(s: string, v: int)
    ensures ParseInt(s) == Some(v) <==> Denotes(s, v)
  {
    hide Digits, Decimal, Zeros;
    if Denotes(s, v) {
      var sign: string, zeros: nat :| Writes(s, v, sign, zeros);
      var n := if v < 0 then -v else v;
      var body := Zeros(zeros) + Decimal(n);
      DigitsOfDecimal(zeros, n);
      assert body[0] in "0123456789" by { assert body[0] in body; }
      assert s == sign + body;
      assert s == (if sign == "" then body else [sign[0]] + body);
    }
    if ParseInt(s) == Some(v) {
      var signed := s[0] == '-' || s[0] == '+';
      var body := if signed then s[1..] else s;
      var n := if v < 0 then -v else v;
      var z := DigitsAreDecimal(body, n);
      assert s == (if signed then [s[0]] else "") + body;
      assert Writes(s, v, if signed then [s[0]] else "", z);
    }
  }

  // ----- the parser reads ranges -----

  lemma Unblank(c: char)
    ensures IsBlank(c) <==> c in {' ', '\t', '\n', '\r', '\U{0B}', '\U{0C}'}
  {
  }

  lemma {:induction false} TrimsStart(a: string, s: string)
    requires Blank(a) && (s == [] || !IsBlank(s[0]))
    ensures TrimStart(a + s) == s
    decreases |a|
  {
    if a == [] {
      assert a + s == s;
    } else {
      Unblank(a[0]);
      assert (a + s)[1..] == a[1..] + s;
      TrimsStart(a[1..], s);
    }
  }

  lemma {:induction false} TrimsEnd(s: string, b: string)
    requires Blank(b) && (s == [] || !IsBlank(s[|s| - 1]))
    ensures TrimEnd(s + b) == s
    decreases |b|
  {
    if b == [] {
      assert s + b == s;
    } else {
      Unblank(b[|b| - 1]);
      assert (s + b)[..|s + b| - 1] == s + b[..|b| - 1];
      TrimsEnd(s, b[..|b| - 1]);
    }
  }

  lemma {:induction false} StartTrimmed(s: string) returns (a: string)
    ensures Blank(a) && s == a + TrimStart(s)
    decreases |s|
  {
    a := [];
    if s != [] && IsBlank(s[0]) {
      Unblank(s[0]);
      var rest := StartTrimmed(s[1..]);
      assert s == [s[0]] + s[1..];
      a := [s[0]] + rest;
    }
  }

  lemma {:induction false} EndTrimmed(s: string) returns (b: string)
    ensures Blank(b) && s == TrimEnd(s) + b
    decreases |s|
  {
    b := [];
    if s != [] && IsBlank(s[|s| - 1]) {
      Unblank(s[|s| - 1]);
      var front := s[..|s| - 1];
      b := EndTrimmed(front);
      assert s == front + [s[|s| - 1]];
      b := b + [s[|s| - 1]];
    }
  }

  predicate InLiteral(c: char) { c in "0123456789" || c == '-' || c == '+' }

  lemma LiteralChars(s: string, v: int)
    requires Denotes(s, v)
    ensures s != [] && forall c :: c in s ==> InLiteral(c)
  {
    hide Decimal, Zeros;
    var sign: string, zeros: nat :| Writes(s, v, sign, zeros);
  }

  lemma ParsesPadded(s: string, v: int)
    ensures ParseInt(Trim(s)) == Some(v) <==> Pads(s, v)
  {
    hide ParseInt, Denotes;
    if Pads(s, v) {
      var a: string, l: string, b: string :| Blank(a) && Denotes(l, v) && Blank(b) && s == a + l + b;
      LiteralChars(l, v);
      assert InLiteral(l[0]) && InLiteral(l[|l| - 1]);
      assert s == a + (l + b);
      TrimsStart(a, l + b);
      TrimsEnd(l, b);
      ParsesDecimal(l, v);
    }
    if ParseInt(Trim(s)) == Some(v) {
      var a := StartTrimmed(s);
      var b := EndTrimmed(TrimStart(s));
      ParsesDecimal(Trim(s), v);
      assert s == a + Trim(s) + b;
    }
  }

  lemma PaddedChars(s: string, v: int)
    requires Pads(s, v)
    ensures '.' !in s && '=' !in s
  {
    hide Denotes;
    var a: string, l: string, b: string :| Blank(a) && Denotes(l, v) && Blank(b) && s == a + l + b;
    LiteralChars(l, v);
    assert !InLiteral('.') && !InLiteral('=');
  }

  /** The parser accepts exactly the texts of ranges, and reads each as the range it spells. */
  lemma ParsesRanges(text: string, r: Range)
    ensures ParseRange(text) == Some(r) <==> Spells(text, r)
  {
    hide ParseInt, Trim, Pads, SplitOnce;
    if Spells(text, r) {
      var x: string, y: string :| Pads(x, r.lo) && Pads(y, r.hi) && text == x + Dots(r.inclusive) + y;
      PaddedChars(x, r.lo);
      PaddedChars(y, r.hi);
      SplitFirst(x, Dots(r.inclusive), y);
      SplitHas(text, "..=");
      ParsesPadded(x, r.lo);
      ParsesPadded(y, r.hi);
    }
    if ParseRange(text) == Some(r) {
      var (a, b) := SplitOnce(text, Dots(r.inclusive)).value;
      ParsesPadded(a, r.lo);
      ParsesPadded(b, r.hi);
    }
  }

  /** In particular a printed range is read back, whatever 64-bit bounds it has. */
  lemma PrintedRangeParses(r: Range)
    requires -9_223_372_036_854_775_808 <= r.lo <= 9_223_372_036_854_775_807
    requires -9_223_372_036_854_775_808 <= r.hi <= 9_223_372_036_854_775_807
    ensures ParseRange(Signed(r.lo) + Dots(r.inclusive) + Signed(r.hi)) == Some(r)
  {
    hide ParseRange, Pads, Signed, Dots;
    PrintedPads(r.lo);
    PrintedPads(r.hi);
    ParsesRanges(Signed(r.lo) + Dots(r.inclusive) + Signed(r.hi), r);
  }

  function Signed(v: int): string { if v < 0 then "-" + Decimal(-v) else Decimal(v) }

  lemma PrintedPads(v: int)
    requires -9_223_372_036_854_775_808 <= v <= 9_223_372_036_854_775_807
    ensures Pads(Signed(v), v)
  {
    hide Decimal;
    var s := Signed(v);
    assert Zeros(0) == "" && "" + s + "" == s;
    assert Writes(s, v, if v < 0 then "-" else "", 0);
  }
}
