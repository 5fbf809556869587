/** The lexical grammar: where trivia ends, where a token ends, and why a comment or a
    blank can never change what is read. */
module Lexical {
  // ----- characters -----

  /** Which characters beyond ASCII are blank, alphabetic or numeric. */
  datatype Unicode = Unicode(space: char -> bool, alphabetic: char -> bool, numeric: char -> bool)

  predicate IsDigit(c: char) { '0' <= c <= '9' }
  predicate IsLetter(c: char) { 'a' <= c <= 'z' || 'A' <= c <= 'Z' }
  predicate IsAscii(c: char) { c < 128 as char }

  predicate IsSpace(u: Unicode, c: char) {
    if IsAscii(c) then c == ' ' || '\t' <= c <= '\r' else u.space(c)
  }

  predicate IsStart(u: Unicode, c: char) {
    c == '_' || IsLetter(c) || (!IsAscii(c) && u.alphabetic(c))
  }

  predicate IsContinue(u: Unicode, c: char) {
    c == '_' || IsLetter(c) || IsDigit(c) || (!IsAscii(c) && (u.alphabetic(c) || u.numeric(c)))
  }

  predicate IsHex(c: char) { IsDigit(c) || 'a' <= c <= 'f' || 'A' <= c <= 'F' || c == '_' }
  predicate IsBinary(c: char) { c == '0' || c == '1' || c == '_' }
  predicate IsDecimal(c: char) { IsDigit(c) || c == '_' }

  // ----- looking ahead -----

  predicate At(s: string, i: nat, c: char) { i < |s| && s[i] == c }
  predicate DigitAt(s: string, i: nat) { i < |s| && IsDigit(s[i]) }

  /** Where the run of characters accepted by `p` from `i` on ends. */
  function RunEnd(p: char -> bool, s: string, i: nat): (r: nat)
    requires i <= |s|
    ensures i <= r <= |s|
    ensures forall k :: i <= k < r ==> p(s[k])
    ensures r < |s| ==> !p(s[r])
    decreases |s| - i
  {
    if i < |s| && p(s[i]) then RunEnd(p, s, i + 1) else i
  }

  // ----- trivia -----

  /** After a block comment, honouring nesting; the end of the text if it never closes. */
  function BlockEnd(s: string, i: nat, depth: nat): (r: nat)
    requires i <= |s|
    ensures i <= r <= |s|
    decreases |s| - i
  {
    if depth == 0 || i == |s| then i
    else if s[i] == '/' && At(s, i + 1, '*') then BlockEnd(s, i + 2, depth + 1)
    else if s[i] == '*' && At(s, i + 1, '/') then BlockEnd(s, i + 2, depth - 1)
    else BlockEnd(s, i + 1, depth)
  }

  predicate StartsComment(s: string) { At(s, 0, '/') && (At(s, 1, '/') || At(s, 1, '*')) }
  predicate StartsTrivia(u: Unicode, s: string) { |s| > 0 && (IsSpace(u, s[0]) || StartsComment(s)) }

  function FirstTrivia(u: Unicode, s: string): (n: nat)
    requires StartsTrivia(u, s)
    ensures 1 <= n <= |s|
  {
    if IsSpace(u, s[0]) then 1
    else if s[1] == '/' then RunEnd(c => c != '\n', s, 2)
    else BlockEnd(s, 2, 1)
  }

  /** The length of the blanks and comments in front. */
  function Trivia(u: Unicode, s: string): (n: nat)
    ensures n <= |s|
    ensures n == 0 <==> !StartsTrivia(u, s)
    ensures !StartsTrivia(u, s[n..])
    decreases |s|
  {
    if !StartsTrivia(u, s) then 0
    else
      var n := FirstTrivia(u, s);
      var m := Trivia(u, s[n..]);
      assert s[n..][m..] == s[n + m..];
      n + m
  }

  // ----- tokens -----

  /** Keywords and punctuation are told apart by their text. */
  datatype Kind = Eof | Ident | Underscore | Keyword | Int | Float | Str | FStr | Char | Punct | Unknown

  predicate IsKeyword(text: string) {
    text in {
      "fn", "let", "var", "const", "struct", "record", "enum", "union", "trait", "impl", "type", "distinct",
      "indirect", "error", "match", "if", "else", "for", "in", "while", "loop", "return", "break", "continue",
      "comptime", "region", "scope", "concurrent", "spawn", "await", "select", "with", "unsafe", "trusted",
      "extern", "import", "pub", "requires", "ensures", "invariant", "variant", "where", "as", "and", "or", "not",
      "dyn", "catch", "read", "mut", "take", "out", "true", "false", "null", "self", "Self"}
  }

  function WordKind(text: string): Kind {
    if text == "_" then Underscore else if IsKeyword(text) then Keyword else Ident
  }

  /** After the closing quote; a backslash hides the character behind it. */
  function QuoteEnd(s: string, i: nat): (r: nat)
    requires i <= |s|
    ensures i <= r <= |s|
    decreases |s| - i
  {
    if i == |s| then i
    else if s[i] == '"' then i + 1
    else if s[i] == '\\' && i + 1 < |s| then QuoteEnd(s, i + 2)
    else QuoteEnd(s, i + 1)
  }

  function CharEnd(s: string): (r: nat)
    requires |s| > 0
    ensures 1 <= r <= |s|
  {
    if |s| == 1 then 1
    else if s[1] == '\'' then 2
    else
      var i := if s[1] == '\\' && |s| > 2 then 3 else 2;
      if At(s, i, '\'') then i + 1 else i
  }

  function NumberEnd(s: string): (r: (Kind, nat))
    requires |s| > 0
    ensures 1 <= r.1 <= |s|
  {
    if s[0] == '0' && (At(s, 1, 'x') || At(s, 1, 'X')) then (Int, RunEnd(IsHex, s, 2))
    else if s[0] == '0' && (At(s, 1, 'b') || At(s, 1, 'B')) then (Int, RunEnd(IsBinary, s, 2))
    else
      var whole := RunEnd(IsDecimal, s, 1);
      var exponent := ExponentEnd(s, FractionEnd(s, whole));
      (if exponent > whole then Float else Int, exponent)
  }

  function FractionEnd(s: string, i: nat): (r: nat)
    requires i <= |s|
    ensures i <= r <= |s|
  {
    if At(s, i, '.') && DigitAt(s, i + 1) then RunEnd(IsDecimal, s, i + 1) else i
  }

  function ExponentEnd(s: string, i: nat): (r: nat)
    requires i <= |s|
    ensures i <= r <= |s|
  {
    if At(s, i, 'e') || At(s, i, 'E') then
      RunEnd(IsDecimal, s, if At(s, i + 1, '+') || At(s, i + 1, '-') then i + 2 else i + 1)
    else i
  }

  /** Two characters that make one operator. */
  predicate Pair(c: char, d: char) {
    || (c == ':' && d == ':')
    || (c == '.' && (d == '.' || d == '*'))
    || (c == '-' && d == '>')
    || (c == '=' && d == '>')
    || (c == '<' && d == '<')
    || (c == '>' && d == '>')
    || (c == '&' && d == '&')
    || (c == '|' && d == '|')
    || (d == '=' && c in "+-*/%=!<>&|^")
  }

  predicate IsPunct(c: char) { c in "(){}[],;@~?:.+-*/%=!<>&|^" }

  /** The longest operator in front. */
  function PunctEnd(s: string): (r: nat)
    requires |s| > 0
    ensures 1 <= r <= |s|
  {
    if s[0] == '.' && At(s, 1, '.') && At(s, 2, '=') then 3
    else if |s| > 1 && Pair(s[0], s[1]) then 2
    else 1
  }

  /** The token in front of a text that starts with no trivia. */
  function Lex(u: Unicode, s: string): (r: (Kind, nat))
    requires |s| > 0
    ensures 1 <= r.1 <= |s|
  {
    if IsStart(u, s[0]) then
      var n := RunEnd(c => IsContinue(u, c), s, 1);
      if s[0] == 'f' && n == 1 && At(s, 1, '"') then (FStr, QuoteEnd(s, 2)) else (WordKind(s[..n]), n)
    else if IsDigit(s[0]) then NumberEnd(s)
    else if s[0] == '"' then (Str, QuoteEnd(s, 1))
    else if s[0] == '\'' then (Char, CharEnd(s))
    else (if IsPunct(s[0]) then Punct else Unknown, PunctEnd(s))
  }

  datatype Lexeme = Lexeme(kind: Kind, text: string)

  /** What remains after the trivia in front. */
  function Rest(u: Unicode, s: string): (v: string)
    ensures |v| <= |s| && !StartsTrivia(u, v)
  {
    s[Trivia(u, s)..]
  }

  function LexLen(u: Unicode, v: string): (n: nat)
    requires |v| > 0
    ensures 1 <= n <= |v|
  {
    Lex(u, v).1
  }

  /** The tokens of a text, without their positions and without the end marker. */
  function Tokens(u: Unicode, s: string): seq<Lexeme>
    decreases |s|
  {
    var v := Rest(u, s);
    if v == [] then []
    else
      var n := LexLen(u, v);
      [Lexeme(Lex(u, v).0, v[..n])] + Tokens(u, v[n..])
  }

  function Gap(u: Unicode, s: string): string { if StartsTrivia(u, s) then " " else "" }

  /** Every run of trivia squeezed to one blank. */
  function Squeeze(u: Unicode, s: string): string
    decreases |s|
  {
    var v := Rest(u, s);
    Gap(u, s) + if v == [] then "" else v[..LexLen(u, v)] + Squeeze(u, v[LexLen(u, v)..])
  }

  // ----- what a token depends on -----

  /** `b` may follow a token in place of `a`: both are over, or `b` is a blank where `a` is
      trivia, or they begin alike as far as two characters matter. */
  predicate Follows(u: Unicode, a: string, b: string) {
    || (a == [] && b == [])
    || (|a| > 0 && |b| > 0 && b[0] == ' ' && StartsTrivia(u, a))
    || (|a| > 0 && |b| > 0 && a[0] == b[0] && DigitAt(a, 1) == DigitAt(b, 1))
  }

  lemma {:induction false} RunLocal(p: char -> bool, s: string, w: string, i: nat, n: nat)
    requires i <= n <= |s| && n <= |w| && s[..n] == w[..n]
    requires RunEnd(p, s, i) == n && (n < |w| ==> !p(w[n]))
    ensures RunEnd(p, w, i) == n
    decreases n - i
  {
    if i < n {
      assert s[i] == s[..n][i] && w[i] == w[..n][i];
      RunLocal(p, s, w, i + 1, n);
    }
  }

  lemma {:induction false} QuoteLocal(s: string, w: string, i: nat, n: nat)
    requires i <= n <= |s| && n <= |w| && s[..n] == w[..n]
    requires QuoteEnd(s, i) == n && (n == |s| <==> n == |w|)
    ensures QuoteEnd(w, i) == n
    decreases n - i
  {
    if i < n {
      assert s[i] == s[..n][i] && w[i] == w[..n][i];
      if s[i] == '\\' && i + 1 < |s| {
        QuoteLocal(s, w, i + 2, n);
      } else if s[i] != '"' {
        QuoteLocal(s, w, i + 1, n);
      }
    }
  }

  /** What may stand behind a token without changing it. */
  lemma NextChar(u: Unicode, s: string, w: string, n: nat)
    requires n <= |s| && n <= |w| && Follows(u, s[n..], w[n..])
    ensures n == |s| <==> n == |w|
    ensures n < |w| ==> w[n] == s[n] || (w[n] == ' ' && (IsSpace(u, s[n]) || s[n] == '/'))
    ensures n < |w| && w[n] == s[n] && s[n] != ' ' && !StartsTrivia(u, s[n..]) ==> DigitAt(w, n + 1) == DigitAt(s, n + 1)
  {
    if n < |w| {
      assert w[n..][0] == w[n];
      if n < |s| { assert s[n..][0] == s[n]; }
      if n + 1 < |w| { assert w[n..][1] == w[n + 1]; }
      if n + 1 < |s| { assert s[n..][1] == s[n + 1]; }
    }
  }

  /** `w` starts with the token that `s` starts with, and goes on in a way that may follow it. */
  predicate Resumes(u: Unicode, s: string, w: string, n: nat) {
    0 < n <= |s| && n <= |w| && s[..n] == w[..n] && Follows(u, s[n..], w[n..])
  }

  lemma SameFront(s: string, w: string, n: nat, i: nat)
    requires i < n <= |s| && n <= |w| && s[..n] == w[..n]
    ensures s[i] == w[i]
  {
    assert s[i] == s[..n][i] && w[i] == w[..n][i];
  }

  lemma WordLocal(u: Unicode, s: string, w: string, n: nat)
    requires Resumes(u, s, w, n) && IsStart(u, s[0]) && Lex(u, s).1 == n
    ensures Lex(u, w) == Lex(u, s)
  {
    var p := c => IsContinue(u, c);
    SameFront(s, w, n, 0);
    NextChar(u, s, w, n);
    var m := RunEnd(p, s, 1);
    if Lex(u, s).0 == FStr {
      SameFront(s, w, n, 1);
      assert m == 1 && RunEnd(p, w, 1) == 1;
      QuoteLocal(s, w, 2, n);
    } else {
      RunLocal(p, s, w, 1, n);
    }
  }

  lemma CharLocal(u: Unicode, s: string, w: string, n: nat)
    requires Resumes(u, s, w, n) && s[0] == '\'' && CharEnd(s) == n
    ensures CharEnd(w) == n
  {
    NextChar(u, s, w, n);
    SameFront(s, w, n, 0);
    if n > 1 { SameFront(s, w, n, 1); }
    if n > 2 { SameFront(s, w, n, 2); }
    if n > 3 { SameFront(s, w, n, 3); }
  }

  lemma PunctLocal(u: Unicode, s: string, w: string, n: nat)
    requires Resumes(u, s, w, n) && PunctEnd(s) == n
    ensures PunctEnd(w) == n
  {
    NextChar(u, s, w, n);
    SameFront(s, w, n, 0);
    if n > 1 { SameFront(s, w, n, 1); }
    if n > 2 { SameFront(s, w, n, 2); }
  }

  lemma ExponentLocal(u: Unicode, s: string, w: string, i: nat, n: nat)
    requires Resumes(u, s, w, n) && i <= n && ExponentEnd(s, i) == n
    ensures ExponentEnd(w, i) == n
  {
    NextChar(u, s, w, n);
    if i < n {
      SameFront(s, w, n, i);
      if i + 1 < n { SameFront(s, w, n, i + 1); }
      var from := if At(s, i + 1, '+') || At(s, i + 1, '-') then i + 2 else i + 1;
      assert from == if At(w, i + 1, '+') || At(w, i + 1, '-') then i + 2 else i + 1;
      RunLocal(IsDecimal, s, w, from, n);
    }
  }

  lemma NumberLocal(u: Unicode, s: string, w: string, n: nat)
    requires Resumes(u, s, w, n) && IsDigit(s[0]) && NumberEnd(s).1 == n
    ensures NumberEnd(w) == NumberEnd(s)
  {
    hide NumberEnd, RunEnd, ExponentEnd, FractionEnd, Follows;
    Cases(s);
    Cases(w);
    NextChar(u, s, w, n);
    SameFront(s, w, n, 0);
    if n > 1 { SameFront(s, w, n, 1); }
    if Prefixed(s, 'x', 'X') {
      RunLocal(IsHex, s, w, 2, n);
    } else if Prefixed(s, 'b', 'B') {
      RunLocal(IsBinary, s, w, 2, n);
    } else {
      DecimalLocal(u, s, w, n);
    }
  }

  predicate Prefixed(s: string, c: char, d: char) { At(s, 0, '0') && (At(s, 1, c) || At(s, 1, d)) }

  lemma Cases(s: string)
    requires |s| > 0
    ensures NumberEnd(s) ==
      if Prefixed(s, 'x', 'X') then (Int, RunEnd(IsHex, s, 2))
      else if Prefixed(s, 'b', 'B') then (Int, RunEnd(IsBinary, s, 2))
      else
        var whole := RunEnd(IsDecimal, s, 1);
        var end := ExponentEnd(s, FractionEnd(s, whole));
        (if end > whole then Float else Int, end)
  {
    hide RunEnd, ExponentEnd, FractionEnd;
  }

  lemma DecimalLocal(u: Unicode, s: string, w: string, n: nat)
    requires Resumes(u, s, w, n) && IsDigit(s[0])
    requires ExponentEnd(s, FractionEnd(s, RunEnd(IsDecimal, s, 1))) == n
    ensures RunEnd(IsDecimal, w, 1) == RunEnd(IsDecimal, s, 1)
    ensures ExponentEnd(w, FractionEnd(w, RunEnd(IsDecimal, s, 1))) == n
  {
    var whole := RunEnd(IsDecimal, s, 1);
    PrefixRun(u, s, w, 1, whole, n);
    if At(s, whole, '.') && DigitAt(s, whole + 1) {
      var fraction := RunEnd(IsDecimal, s, whole + 1);
      SameFront(s, w, n, whole);
      SameFront(s, w, n, whole + 1);
      PrefixRun(u, s, w, whole + 1, fraction, n);
      ExponentLocal(u, s, w, fraction, n);
    } else {
      NextChar(u, s, w, n);
      if whole < n {
        SameFront(s, w, n, whole);
        if whole + 1 < n { SameFront(s, w, n, whole + 1); }
      }
      ExponentLocal(u, s, w, whole, n);
    }
  }

  /** A run of digits inside the token, or up to its end. */
  lemma PrefixRun(u: Unicode, s: string, w: string, i: nat, m: nat, n: nat)
    requires Resumes(u, s, w, n) && i <= m <= n && RunEnd(IsDecimal, s, i) == m
    ensures RunEnd(IsDecimal, w, i) == m
  {
    NextChar(u, s, w, n);
    if m < n { SameFront(s, w, n, m); }
    assert s[..m] == s[..n][..m] && w[..m] == w[..n][..m];
    RunLocal(IsDecimal, s, w, i, m);
  }

  /** A token depends on its own text and at most two characters behind it. */
  lemma LexLocal(u: Unicode, s: string, w: string)
    requires |s| > 0 && Resumes(u, s, w, Lex(u, s).1)
    ensures Lex(u, w) == Lex(u, s)
  {
    var n := Lex(u, s).1;
    SameFront(s, w, n, 0);
    if IsStart(u, s[0]) {
      WordLocal(u, s, w, n);
    } else if IsDigit(s[0]) {
      NumberLocal(u, s, w, n);
    } else if s[0] == '"' {
      NextChar(u, s, w, n);
      QuoteLocal(s, w, 1, n);
    } else if s[0] == '\'' {
      CharLocal(u, s, w, n);
    } else {
      PunctLocal(u, s, w, n);
    }
  }

  // ----- comments and blanks never matter -----

  /** After squeezing, each token is followed by something that may follow it. */
  lemma {:induction false} SqueezeFollows(u: Unicode, s: string)
    ensures Follows(u, s, Squeeze(u, s))
    decreases |s|
  {
    if StartsTrivia(u, s) {
      GapFollows(u, s);
    } else if s != [] {
      hide StartsTrivia, LexLen, Squeeze, Follows;
      var n := LexLen(u, s);
      SqueezeFollows(u, s[n..]);
      FollowsBehind(u, s, n, Squeeze(u, s[n..]));
      SqueezeToken(u, s);
    }
  }

  lemma GapFollows(u: Unicode, s: string)
    requires StartsTrivia(u, s)
    ensures Follows(u, s, Squeeze(u, s))
  {
    hide StartsTrivia, LexLen;
    assert Squeeze(u, s)[0] == ' ';
  }

  lemma SqueezeToken(u: Unicode, s: string)
    requires s != [] && !StartsTrivia(u, s)
    ensures Squeeze(u, s) == s[..LexLen(u, s)] + Squeeze(u, s[LexLen(u, s)..])
  {
    hide LexLen;
    assert Rest(u, s) == s;
  }

  lemma FollowsBehind(u: Unicode, s: string, n: nat, q: string)
    requires 0 < n <= |s| && Follows(u, s[n..], q)
    ensures Follows(u, s, s[..n] + q)
  {
    var w := s[..n] + q;
    assert w[0] == s[0];
    if n == 1 {
      assert |s| > 1 ==> s[1] == s[n..][0];
      assert |w| > 1 ==> w[1] == q[0];
    } else {
      assert w[1] == s[1];
    }
  }

  /** What follows a token cannot make trivia of it. */
  lemma NoNewTrivia(u: Unicode, s: string, w: string, n: nat)
    requires Resumes(u, s, w, n) && !StartsTrivia(u, s)
    ensures !StartsTrivia(u, w)
  {
    NextChar(u, s, w, n);
    SameFront(s, w, n, 0);
    if n > 1 { SameFront(s, w, n, 1); }
  }

  lemma RestOfGap(u: Unicode, gap: string, w: string)
    requires (gap == "" || gap == " ") && !StartsTrivia(u, w)
    ensures Rest(u, gap + w) == w
  {
    if gap == " " {
      assert (" " + w)[1..] == w;
      assert Trivia(u, " " + w) == 1;
    } else {
      assert gap + w == w;
    }
  }

  /** The token in front of a squeezed text is the one it had. */
  lemma SqueezedToken(u: Unicode, v: string, w: string)
    requires |v| > 0 && !StartsTrivia(u, v)
    requires w == v[..LexLen(u, v)] + Squeeze(u, v[LexLen(u, v)..])
    ensures |w| > 0 && Lex(u, w) == Lex(u, v) && !StartsTrivia(u, w)
    ensures w[..LexLen(u, v)] == v[..LexLen(u, v)] && w[LexLen(u, v)..] == Squeeze(u, v[LexLen(u, v)..])
  {
    hide Lex, StartsTrivia, Follows, Squeeze;
    var n := LexLen(u, v);
    var q := Squeeze(u, v[n..]);
    SqueezeFollows(u, v[n..]);
    assert w[n..] == q && w[..n] == v[..n];
    LexLocal(u, v, w);
    NoNewTrivia(u, v, w, n);
  }

  /** Squeezing every run of trivia to one blank leaves the tokens as they are. */
  lemma {:induction false} TriviaNeverMatters(u: Unicode, s: string)
    ensures Tokens(u, Squeeze(u, s)) == Tokens(u, s)
    decreases |s|
  {
    hide Lex, StartsTrivia, Rest;
    var v := Rest(u, s);
    var gap := Gap(u, s);
    if v == [] {
      RestOfGap(u, gap, v);
    } else {
      var n := LexLen(u, v);
      var w := v[..n] + Squeeze(u, v[n..]);
      SqueezedToken(u, v, w);
      RestOfGap(u, gap, w);
      TriviaNeverMatters(u, v[n..]);
      TokensFrom(u, gap + w, w);
      TokensFrom(u, s, v);
      assert Squeeze(u, s) == gap + w;
    }
  }

  lemma TokensFrom(u: Unicode, s: string, v: string)
    requires |v| > 0 && Rest(u, s) == v
    ensures Tokens(u, s) == [Lexeme(Lex(u, v).0, v[..LexLen(u, v)])] + Tokens(u, v[LexLen(u, v)..])
  {
    hide Lex, StartsTrivia, Rest, LexLen;
  }

  // ----- the longest operator wins -----

  predicate IsOperator(text: string) {
    || (|text| == 1 && IsPunct(text[0]))
    || (|text| == 2 && Pair(text[0], text[1]))
    || text == "..="
  }

  lemma MaximalMunch(s: string)
    requires |s| > 0 && IsPunct(s[0])
    ensures IsOperator(s[..PunctEnd(s)])
    ensures forall m :: PunctEnd(s) < m <= |s| ==> !IsOperator(s[..m])
  {
    var n := PunctEnd(s);
    if n == 3 {
      assert s[..3] == "..=";
    }
    forall m | n < m <= |s| ensures !IsOperator(s[..m]) {
      assert s[..m][0] == s[0] && s[..m][1] == s[1];
      if m == 3 { assert s[..m][2] == s[2]; }
    }
  }
}
