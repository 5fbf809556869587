/** The lexer: a cursor over the text that every method advances. */
module Lexers {
  import opened Lexical

  datatype Token = Token(kind: Kind, start: nat, end: nat)

  /** The token stream from `pos` on, with its end marker. */
  function Scan(u: Unicode, src: string, pos: nat): seq<Token>
    requires pos <= |src|
    decreases |src| - pos
  {
    var t := First(u, src, pos);
    if t.kind == Eof then [t] else [t] + Scan(u, src, t.end)
  }

  /** The token behind the trivia at `pos`, or the end marker. */
  function First(u: Unicode, src: string, pos: nat): (t: Token)
    requires pos <= |src|
    ensures pos <= t.start <= t.end <= |src|
    ensures t.kind == Eof <==> Rest(u, src[pos..]) == []
    ensures t.kind == Eof ==> t == Token(Eof, |src|, |src|)
    ensures t.kind != Eof ==> t.start < t.end
  {
    var v := Rest(u, src[pos..]);
    var start := |src| - |v|;
    if v == [] then Token(Eof, |src|, |src|) else Token(Lex(u, v).0, start, start + LexLen(u, v))
  }

  /** The texts of the tokens, end marker aside. */
  function Texts(src: string, tokens: seq<Token>): seq<Lexeme>
    requires forall i :: 0 <= i < |tokens| ==> tokens[i].start <= tokens[i].end <= |src|
  {
    if tokens == [] then []
    else
      (if tokens[0].kind == Eof then [] else [Lexeme(tokens[0].kind, src[tokens[0].start..tokens[0].end])])
      + Texts(src, tokens[1..])
  }

  lemma {:induction false} RestStep(u: Unicode, s: string)
    requires StartsTrivia(u, s)
    ensures Rest(u, s) == Rest(u, s[FirstTrivia(u, s)..])
  {
    var n := FirstTrivia(u, s);
    var m := Trivia(u, s[n..]);
    assert s[n..][m..] == s[n + m..];
  }

  lemma RestIsSuffix(u: Unicode, src: string, pos: nat)
    requires pos <= |src|
    ensures var v := Rest(u, src[pos..]); |v| <= |src| - pos && src[|src| - |v|..] == v
  {
    var t := Trivia(u, src[pos..]);
    assert src[pos..][t..] == src[pos + t..];
  }

  class Lexer {
    const u: Unicode
    const src: string
    var pos: nat

    ghost predicate Valid()
      reads this
    {
      pos <= |src|
    }

    /** What is still to be read. */
    ghost function Left(): string
      reads this
      requires Valid()
    {
      src[pos..]
    }

    constructor (classes: Unicode, text: string)
      ensures u == classes && src == text && pos == 0 && Valid()
    {
      u, src, pos := classes, text, 0;
    }

    // ----- the cursor -----

    predicate Is(c: char)
      reads this
      requires Valid()
    {
      pos < |src| && src[pos] == c
    }

    predicate Second(c: char)
      reads this
      requires Valid()
    {
      pos + 1 < |src| && src[pos + 1] == c
    }

    method Eat(c: char) returns (eaten: bool)
      requires Valid()
      modifies this`pos
      ensures Valid() && eaten == old(Is(c)) && pos == old(pos) + if eaten then 1 else 0
    {
      eaten := Is(c);
      if eaten {
        pos := pos + 1;
      }
    }

    method EatWhile(p: char -> bool)
      requires Valid()
      modifies this`pos
      ensures Valid() && pos == RunEnd(p, src, old(pos))
    {
      while pos < |src| && p(src[pos])
        invariant Valid() && RunEnd(p, src, old(pos)) == RunEnd(p, src, pos)
        decreases |src| - pos
      {
        pos := pos + 1;
      }
    }

    // ----- trivia -----

    method SkipTrivia()
      requires Valid()
      modifies this`pos
      ensures Valid() && Left() == Rest(u, old(Left()))
    {
      hide Rest, Trivia;
      while pos < |src| && (IsSpace(u, src[pos]) || (Is('/') && (Second('/') || Second('*'))))
        invariant Valid() && Rest(u, old(Left())) == Rest(u, Left())
        decreases |src| - pos
      {
        ghost var v := Left();
        ghost var at := pos;
        assert v[0] == src[pos] && (|v| > 1 ==> v[1] == src[pos + 1]);
        assert StartsTrivia(u, v);
        RestStep(u, v);
        if IsSpace(u, src[pos]) {
          pos := pos + 1;
        } else if Second('/') {
          LineComment();
        } else {
          BlockComment();
        }
        assert Left() == v[pos - at..];
      }
      assert Left() != [] ==> Left()[0] == src[pos];
      assert |Left()| > 1 ==> Left()[1] == src[pos + 1];
      assert !StartsTrivia(u, Left());
      RestOfNone(u, Left());
    }

    static lemma RestOfNone(u: Unicode, s: string)
      requires !StartsTrivia(u, s)
      ensures Rest(u, s) == s
    {
    }

    method LineComment()
      requires Valid() && Is('/') && Second('/') && !IsSpace(u, src[pos])
      modifies this`pos
      ensures Valid() && StartsTrivia(u, old(Left())) && pos == old(pos) + FirstTrivia(u, old(Left()))
    {
      ghost var v := Left();
      assert v[0] == '/' && v[1] == '/';
      pos := pos + 2;
      ghost var at := pos - 2;
      EatWhile(c => c != '\n');
      RunShift(c => c != '\n', src, at, 2);
    }

    /** A run seen from a later start. */
    static lemma {:induction false} RunShift(p: char -> bool, s: string, at: nat, i: nat)
      requires at + i <= |s|
      ensures RunEnd(p, s, at + i) == at + RunEnd(p, s[at..], i)
      decreases |s| - at - i
    {
      if at + i < |s| {
        assert s[at..][i] == s[at + i];
        if p(s[at + i]) {
          RunShift(p, s, at, i + 1);
        }
      }
    }

    method BlockComment()
      requires Valid() && Is('/') && Second('*') && !IsSpace(u, src[pos])
      modifies this`pos
      ensures Valid() && StartsTrivia(u, old(Left())) && pos == old(pos) + FirstTrivia(u, old(Left()))
    {
      ghost var at := pos;
      ghost var v := Left();
      assert v[0] == '/' && v[1] == '*';
      pos := pos + 2;
      var depth: nat := 1;
      while depth > 0 && pos < |src|
        invariant Valid() && at + 2 <= pos
        invariant BlockEnd(v, 2, 1) == BlockEnd(v, pos - at, depth)
        decreases |src| - pos
      {
        var c := src[pos];
        assert v[pos - at] == c;
        assert pos + 1 < |src| ==> v[pos + 1 - at] == src[pos + 1];
        pos := pos + 1;
        if c == '/' && Is('*') {
          pos := pos + 1;
          depth := depth + 1;
        } else if c == '*' && Is('/') {
          pos := pos + 1;
          depth := depth - 1;
        }
      }
    }

    // ----- tokens -----

    method NextToken() returns (t: Token)
      requires Valid()
      modifies this`pos
      ensures Valid() && t == First(u, src, old(pos)) && pos == t.end
    {
      hide Rest, Lex;
      RestIsSuffix(u, src, pos);
      SkipTrivia();
      if pos == |src| {
        return Token(Eof, pos, pos);
      }
      t := TokenHere();
    }

    method TokenHere() returns (t: Token)
      requires Valid() && pos < |src|
      modifies this`pos
      ensures Valid() && t == Token(Lex(u, old(Left())).0, old(pos), old(pos) + LexLen(u, old(Left()))) && pos == t.end
    {
      hide WordKind, NumberEnd, QuoteEnd, CharEnd, PunctEnd, RunEnd;
      var start := pos;
      ghost var v := Left();
      var c := src[pos];
      assert v[0] == c;
      pos := pos + 1;
      if IsStart(u, c) {
        t := Word(start);
      } else if IsDigit(c) {
        t := Number(start);
      } else if c == '"' {
        Quoted(start, 1);
        t := Token(Str, start, pos);
      } else if c == '\'' {
        t := CharLiteral(start);
      } else {
        Operator(start);
        t := Token(if IsPunct(c) then Punct else Unknown, start, pos);
      }
    }

    method Word(start: nat) returns (t: Token)
      requires Valid() && pos == start + 1 && IsStart(u, src[start])
      modifies this`pos
      ensures Valid() && t == Token(Lex(u, src[start..]).0, start, start + LexLen(u, src[start..])) && pos == t.end
    {
      ghost var v := src[start..];
      EatWhile(c => IsContinue(u, c));
      RunShift(c => IsContinue(u, c), src, start, 1);
      assert forall i :: start <= i < |src| ==> v[i - start] == src[i];
      if src[start..pos] == ['f'] && Is('"') {
        pos := pos + 1;
        Quoted(start, 2);
        return Token(FStr, start, pos);
      }
      assert src[start..pos] == v[..pos - start];
      t := Token(WordKind(src[start..pos]), start, pos);
    }

    /** The body of a literal whose opening quote ends at `start + i`. */
    method Quoted(start: nat, i: nat)
      requires Valid() && pos == start + i
      modifies this`pos
      ensures Valid() && pos == start + QuoteEnd(src[start..], i)
    {
      ghost var v := src[start..];
      while pos < |src|
        invariant Valid() && start + i <= pos && QuoteEnd(v, i) == QuoteEnd(v, pos - start)
        decreases |src| - pos
      {
        var c := src[pos];
        assert v[pos - start] == c;
        pos := pos + 1;
        if c == '"' {
          return;
        }
        if c == '\\' && pos < |src| {
          pos := pos + 1;
        }
      }
    }

    method CharLiteral(start: nat) returns (t: Token)
      requires Valid() && pos == start + 1 && src[start] == '\''
      modifies this`pos
      ensures Valid() && t == Token(Char, start, start + CharEnd(src[start..])) && pos == t.end
    {
      ghost var v := src[start..];
      assert forall i :: start <= i < |src| ==> v[i - start] == src[i];
      if pos == |src| {
        return Token(Char, start, pos);
      }
      var c := src[pos];
      pos := pos + 1;
      if c == '\'' {
        return Token(Char, start, pos);
      }
      if c == '\\' && pos < |src| {
        pos := pos + 1;
      }
      var closed := Eat('\'');
      t := Token(Char, start, pos);
    }

    method Number(start: nat) returns (t: Token)
      requires Valid() && pos == start + 1 && IsDigit(src[start])
      modifies this`pos
      ensures Valid() && t == Token(NumberEnd(src[start..]).0, start, start + NumberEnd(src[start..]).1) && pos == t.end
    {
      ghost var v := src[start..];
      assert v[0] == src[start] && (|v| > 1 ==> v[1] == src[start + 1]);
      if src[start] == '0' && (Is('x') || Is('X')) {
        Radix(start, IsHex);
        t := Token(Int, start, pos);
      } else if src[start] == '0' && (Is('b') || Is('B')) {
        Radix(start, IsBinary);
        t := Token(Int, start, pos);
      } else {
        t := Decimal(start);
      }
    }

    /** The digits behind a two-character prefix. */
    method Radix(start: nat, p: char -> bool)
      requires Valid() && start + 2 <= |src|
      modifies this`pos
      ensures Valid() && pos == start + RunEnd(p, src[start..], 2)
    {
      pos := start + 2;
      RunShift(p, src, start, 2);
      EatWhile(p);
    }

    method Decimal(start: nat) returns (t: Token)
      requires Valid() && pos == start + 1
      requires !(src[start] == '0' && pos < |src| && src[pos] in "xXbB")
      modifies this`pos
      ensures Valid() && t == Token(NumberEnd(src[start..]).0, start, start + NumberEnd(src[start..]).1) && pos == t.end
    {
      hide RunEnd, ExponentEnd, NumberEnd;
      DecimalShift(src, start);
      EatWhile(IsDecimal);
      var whole := pos;
      if Is('.') && pos + 1 < |src| && IsDigit(src[pos + 1]) {
        pos := pos + 1;
        EatWhile(IsDecimal);
      }
      Exponent();
      t := Token(if pos > whole then Float else Int, start, pos);
    }

    method Exponent()
      requires Valid()
      modifies this`pos
      ensures Valid() && pos == ExponentEnd(src, old(pos))
    {
      hide RunEnd;
      if Is('e') || Is('E') {
        pos := pos + 1;
        if Is('+') || Is('-') {
          pos := pos + 1;
        }
        EatWhile(IsDecimal);
      }
    }

    static lemma ExponentShift(s: string, at: nat, i: nat)
      requires at + i <= |s|
      ensures ExponentEnd(s, at + i) == at + ExponentEnd(s[at..], i)
    {
      hide RunEnd;
      var v := s[at..];
      CharShift(s, at, i);
      CharShift(s, at, i + 1);
      if At(v, i, 'e') || At(v, i, 'E') {
        RunShift(IsDecimal, s, at, if At(v, i + 1, '+') || At(v, i + 1, '-') then i + 2 else i + 1);
      }
    }

    static lemma CharShift(s: string, at: nat, i: nat)
      requires at <= |s|
      ensures i < |s[at..]| <==> at + i < |s|
      ensures at + i < |s| ==> s[at..][i] == s[at + i]
    {
    }

    /** A decimal number read in place. */
    static lemma DecimalShift(s: string, at: nat)
      requires at < |s| && !(s[at] == '0' && at + 1 < |s| && s[at + 1] in "xXbB")
      ensures var whole := RunEnd(IsDecimal, s, at + 1);
              var end := ExponentEnd(s, FractionEnd(s, whole));
              NumberEnd(s[at..]) == (if end > whole then Float else Int, end - at)
    {
      hide RunEnd, ExponentEnd, FractionEnd, NumberEnd;
      var v := s[at..];
      CharShift(s, at, 0);
      CharShift(s, at, 1);
      Cases(v);
      RunShift(IsDecimal, s, at, 1);
      var whole := RunEnd(IsDecimal, v, 1);
      FractionShift(s, at, whole);
      ExponentShift(s, at, FractionEnd(v, whole));
    }

    static lemma FractionShift(s: string, at: nat, i: nat)
      requires at + i <= |s|
      ensures FractionEnd(s, at + i) == at + FractionEnd(s[at..], i)
    {
      hide RunEnd;
      CharShift(s, at, i);
      CharShift(s, at, i + 1);
      if At(s, at + i, '.') && DigitAt(s, at + i + 1) {
        RunShift(IsDecimal, s, at, i + 1);
      }
    }

    method Operator(start: nat)
      requires Valid() && pos == start + 1
      modifies this`pos
      ensures Valid() && pos == start + PunctEnd(src[start..])
    {
      ghost var v := src[start..];
      assert forall i :: start <= i < |src| ==> v[i - start] == src[i];
      if pos < |src| && Pair(src[start], src[pos]) {
        pos := pos + 1;
        if src[start] == '.' && src[start + 1] == '.' {
          var eaten := Eat('=');
        }
      }
    }

    /** The whole stream. */
    method Tokenize() returns (tokens: seq<Token>)
      requires Valid()
      modifies this`pos
      ensures Valid() && tokens == Scan(u, src, old(pos))
    {
      hide First;
      tokens := [];
      while true
        invariant Valid() && tokens + Scan(u, src, pos) == Scan(u, src, old(pos))
        decreases |src| - pos
      {
        ghost var was, at := tokens, pos;
        var t := NextToken();
        tokens := tokens + [t];
        if t.kind == Eof {
          assert tokens == was + Scan(u, src, at);
          break;
        }
        assert tokens + Scan(u, src, pos) == was + Scan(u, src, at);
      }
    }
  }

  // ----- the stream as a whole -----

  /** Spans in order, inside the text, and the end marker at its end. */
  predicate Ordered(tokens: seq<Token>, from: nat, end: nat) {
    if |tokens| == 1 then tokens[0] == Token(Eof, end, end) && from <= end
    else
      && |tokens| > 1
      && tokens[0].kind != Eof
      && from <= tokens[0].start < tokens[0].end
      && Ordered(tokens[1..], tokens[0].end, end)
  }

  lemma {:induction false} ScanOrdered(u: Unicode, src: string, pos: nat)
    requires pos <= |src|
    ensures Ordered(Scan(u, src, pos), pos, |src|)
    decreases |src| - pos
  {
    hide First;
    var t := First(u, src, pos);
    if t.kind != Eof {
      ScanOrdered(u, src, t.end);
      assert Scan(u, src, pos)[1..] == Scan(u, src, t.end);
    }
  }

  lemma {:induction false} OrderedInside(tokens: seq<Token>, from: nat, end: nat)
    requires Ordered(tokens, from, end)
    ensures forall i :: 0 <= i < |tokens| ==> from <= tokens[i].start <= tokens[i].end <= end
    ensures forall i :: 0 <= i < |tokens| - 1 ==> tokens[i].start < tokens[i].end <= tokens[i + 1].start
    ensures tokens[|tokens| - 1] == Token(Eof, end, end)
    decreases |tokens|
  {
    if |tokens| > 1 {
      OrderedInside(tokens[1..], tokens[0].end, end);
      forall i | 0 <= i < |tokens| ensures from <= tokens[i].start <= tokens[i].end <= end {
        if i > 0 { assert tokens[1..][i - 1] == tokens[i]; }
      }
      forall i | 0 <= i < |tokens| - 1 ensures tokens[i].start < tokens[i].end <= tokens[i + 1].start {
        if i > 0 { assert tokens[1..][i - 1] == tokens[i] && tokens[1..][i] == tokens[i + 1]; }
      }
    }
  }

  /** The spans cut out exactly the tokens of the grammar. */
  lemma {:induction false} ScanReadsTokens(u: Unicode, src: string, pos: nat)
    requires pos <= |src|
    ensures forall i :: 0 <= i < |Scan(u, src, pos)| ==>
      Scan(u, src, pos)[i].start <= Scan(u, src, pos)[i].end <= |src|
    ensures Texts(src, Scan(u, src, pos)) == Tokens(u, src[pos..])
    decreases |src| - pos
  {
    ScanInside(u, src, pos);
    FirstReads(u, src, pos);
    ScanStep(u, src, pos);
    var t := First(u, src, pos);
    hide First, Tokens, Scan;
    if t.kind != Eof {
      ScanReadsTokens(u, src, t.end);
    }
  }

  lemma ScanStep(u: Unicode, src: string, pos: nat)
    requires pos <= |src|
    ensures var t, tokens := First(u, src, pos), Scan(u, src, pos);
            |tokens| > 0 && tokens[0] == t && tokens[1..] == if t.kind == Eof then [] else Scan(u, src, t.end)
  {
    hide First;
  }

  lemma ScanInside(u: Unicode, src: string, pos: nat)
    requires pos <= |src|
    ensures forall i :: 0 <= i < |Scan(u, src, pos)| ==>
      Scan(u, src, pos)[i].start <= Scan(u, src, pos)[i].end <= |src|
  {
    ScanOrdered(u, src, pos);
    OrderedInside(Scan(u, src, pos), pos, |src|);
  }

  lemma FirstReads(u: Unicode, src: string, pos: nat)
    requires pos <= |src|
    ensures var t := First(u, src, pos);
      Tokens(u, src[pos..]) == if t.kind == Eof then [] else [Lexeme(t.kind, src[t.start..t.end])] + Tokens(u, src[t.end..])
  {
    hide Lex, Rest;
    RestIsSuffix(u, src, pos);
    var v := Rest(u, src[pos..]);
    if v != [] {
      TokensFrom(u, src[pos..], v);
      var start, n := |src| - |v|, LexLen(u, v);
      assert v == src[start..];
      Suffixes(src, start, n);
    }
  }

  lemma Suffixes(src: string, start: nat, n: nat)
    requires start + n <= |src|
    ensures src[start..][..n] == src[start..start + n] && src[start..][n..] == src[start + n..]
  {
  }
}
