/** The shapes of tokens and trivia, said by their characters alone: each token is the longest
    text of its shape, a quoted one ends at its closing quote, a comment at its closing mark. */
module LexicalShapes {
  import opened Lexical
  import opened Lexers

  // ----- characters -----

  lemma DigitsAre(c: char)
    ensures IsDigit(c) <==> c in "0123456789"
    ensures IsDecimal(c) <==> c in "0123456789_"
    ensures IsBinary(c) <==> c in "01_"
  {
  }

  lemma HexDigitsAre(c: char)
    ensures IsHex(c) <==> c in "0123456789abcdefABCDEF_"
  {
  }

  /** Letters, digits and blanks of ASCII by their codes; beyond it Unicode decides. */
  lemma CharactersAre(u: Unicode, c: char)
    ensures var n := c as int;
      var letter := if n < 128 then 65 <= n <= 90 || 97 <= n <= 122 || n == 95 else u.alphabetic(c);
      && (IsStart(u, c) <==> letter)
      && (IsContinue(u, c) <==> letter || (if n < 128 then 48 <= n <= 57 else u.numeric(c)))
      && (IsSpace(u, c) <==> if n < 128 then 9 <= n <= 13 || n == 32 else u.space(c))
  {
  }

  // ----- quotes -----

  /** How many backslashes stand in a row before `k`, none of them before `i`. */
  function Backslashes(s: string, i: nat, k: nat): nat
    requires i <= k <= |s|
    decreases k
  {
    if k > i && s[k - 1] == '\\' then 1 + Backslashes(s, i, k - 1) else 0
  }

  /** A quote that no backslash hides: backslashes before it hide each other in pairs. */
  predicate Closing(s: string, i: nat, k: nat) {
    i <= k < |s| && s[k] == '"' && Backslashes(s, i, k) % 2 == 0
  }

  /** A literal whose content starts at `i` ends behind the first closing quote, or with the
      text if there is none. */
  ghost predicate Quotes(s: string, i: nat, n: nat) {
    && i <= n <= |s|
    && (forall k :: i <= k < n - 1 ==> !Closing(s, i, k))
    && ((n > i && Closing(s, i, n - 1)) || (n == |s| && forall k :: i <= k < |s| ==> !Closing(s, i, k)))
  }

  /** Characters that are taken in whole before `j` hide nothing behind it. */
  lemma {:induction false} BackslashesFrom(s: string, i: nat, j: nat, k: nat)
    requires i <= j <= k <= |s|
    requires j == i + 1 ==> s[i] != '\\'
    requires j == i + 2 ==> s[i] == '\\'
    requires j <= i + 2
    ensures Backslashes(s, i, k) % 2 == Backslashes(s, j, k) % 2
    decreases k
  {
    if k > j {
      BackslashesFrom(s, i, j, k - 1);
    } else if j == i + 2 {
      assert Backslashes(s, i, i + 1) == 1;
    }
  }

  lemma {:induction false} QuoteEndIs(s: string, i: nat)
    requires i <= |s|
    ensures Quotes(s, i, QuoteEnd(s, i))
    decreases |s| - i
  {
    if i < |s| && s[i] != '"' {
      var j := if s[i] == '\\' && i + 1 < |s| then i + 2 else i + 1;
      QuoteEndIs(s, j);
      forall k | i <= k < |s|
        ensures Closing(s, i, k) <==> k >= j && Closing(s, j, k)
      {
        if k >= j && !(s[i] == '\\' && j == i + 1) {
          BackslashesFrom(s, i, j, k);
        }
      }
    }
  }

  lemma QuotesUnique(s: string, i: nat, m: nat, n: nat)
    requires Quotes(s, i, m) && Quotes(s, i, n)
    ensures m == n
  {
  }

  // ----- block comments -----

  /** A comment mark at `k`: marks do not overlap, and the earlier one counts. */
  predicate Mark(s: string, i: nat, k: nat)
    decreases k
  {
    && i <= k && k + 1 < |s|
    && ((s[k] == '/' && s[k + 1] == '*') || (s[k] == '*' && s[k + 1] == '/'))
    && !(k > i && Mark(s, i, k - 1))
  }

  /** How many comments are open at `k` when `depth` are open at `i`. */
  function Level(s: string, i: nat, depth: int, k: nat): int
    requires i <= k <= |s|
    decreases k
  {
    if k == i then depth
    else
      var before := Level(s, i, depth, k - 1);
      if k >= i + 2 && Mark(s, i, k - 2) then (if s[k - 2] == '/' then before + 1 else before - 1) else before
  }

  /** The comment ends where for the first time none is open, or with the text. */
  ghost predicate Comments(s: string, i: nat, depth: nat, n: nat) {
    && i <= n <= |s|
    && (forall k :: i <= k < n ==> Level(s, i, depth, k) > 0)
    && (n == |s| || Level(s, i, depth, n) == 0)
  }

  lemma {:induction false} MarksFrom(s: string, i: nat, j: nat, k: nat)
    requires i < j <= k
    requires j == (if Mark(s, i, i) then i + 2 else i + 1)
    ensures Mark(s, i, k) <==> Mark(s, j, k)
    decreases k
  {
    if k > j {
      MarksFrom(s, i, j, k - 1);
    }
  }

  lemma {:induction false} LevelFrom(s: string, i: nat, depth: nat, j: nat, k: nat)
    requires i < j <= k <= |s|
    requires j == (if Mark(s, i, i) then i + 2 else i + 1)
    ensures Level(s, i, depth, k) == Level(s, j, Level(s, i, depth, j), k)
    decreases k
  {
    if k > j {
      LevelFrom(s, i, depth, j, k - 1);
      if k >= j + 2 {
        MarksFrom(s, i, j, k - 2);
      }
    }
  }

  lemma {:induction false} BlockEndIs(s: string, i: nat, depth: nat)
    requires i <= |s|
    ensures Comments(s, i, depth, BlockEnd(s, i, depth))
    decreases |s| - i
  {
    if depth > 0 && i < |s| {
      var j := if Mark(s, i, i) then i + 2 else i + 1;
      var d := if !Mark(s, i, i) then depth else if s[i] == '/' then depth + 1 else depth - 1;
      assert Level(s, i, depth, i + 1) == depth;
      assert Level(s, i, depth, j) == d;
      BlockEndIs(s, j, d);
      forall k | j <= k <= |s|
        ensures Level(s, i, depth, k) == Level(s, j, d, k)
      {
        LevelFrom(s, i, depth, j, k);
      }
    }
  }

  lemma CommentsUnique(s: string, i: nat, depth: nat, m: nat, n: nat)
    requires Comments(s, i, depth, m) && Comments(s, i, depth, n)
    ensures m == n
  {
  }

  // ----- numbers -----

  predicate All(p: char -> bool, s: string, i: nat, j: nat)
    requires j <= |s|
  {
    forall k :: i <= k < j ==> p(s[k])
  }

  /** The first `m` characters are digits up to `w`, then perhaps a dot and digits up to `f`,
      then perhaps an exponent; a digit begins each of the first two, underscores may follow. */
  predicate Parts(s: string, w: nat, f: nat, m: nat) {
    && 1 <= w <= f <= m <= |s|
    && s[0] in "0123456789" && All(IsDecimal, s, 1, w)
    && (f == w || (w + 1 < f && s[w] == '.' && s[w + 1] in "0123456789" && All(IsDecimal, s, w + 2, f)))
    && (f == m || Exponent(s, f, m))
  }

  /** An `e`, perhaps a sign, and any number of digits: none is enough. */
  predicate Exponent(s: string, f: nat, m: nat) {
    && f < m <= |s| && s[f] in "eE"
    && All(IsDecimal, s, if f + 1 < m && s[f + 1] in "+-" then f + 2 else f + 1, m)
  }

  ghost predicate IsNumber(s: string, m: nat) { exists w: nat, f: nat :: Parts(s, w, f, m) }

  predicate HasBase(s: string) { |s| >= 2 && s[0] == '0' && s[1] in "xXbB" }

  /** `0x` or `0b` and digits of that base, with underscores. */
  predicate IsBased(s: string, m: nat) {
    && HasBase(s) && 2 <= m <= |s|
    && forall k :: 2 <= k < m ==> s[k] in BaseDigits(s[1])
  }

  function BaseDigits(base: char): string { if base in "xX" then "0123456789abcdefABCDEF_" else "01_" }

  /** The longest number in front: of the base that is named, or else a decimal one, which is a
      float when it has a dot or an exponent. */
  ghost predicate NumberIs(s: string, kind: Kind, n: nat) {
    && 1 <= n <= |s|
    && if HasBase(s) then kind == Int && IsBased(s, n) && forall m: nat :: IsBased(s, m) ==> m <= n
       else
         && IsNumber(s, n) && (forall m: nat :: IsNumber(s, m) ==> m <= n)
         && kind == if exists k :: 0 <= k < n && s[k] in ".eE" then Float else Int
  }

  lemma {:induction false} RunCovers(p: char -> bool, s: string, i: nat, j: nat)
    requires i <= j <= |s| && All(p, s, i, j)
    ensures j <= RunEnd(p, s, i)
    decreases j - i
  {
    if i < j {
      RunCovers(p, s, i + 1, j);
    }
  }

  function BaseRun(base: char): char -> bool { if base in "xX" then IsHex else IsBinary }

  lemma BaseRunIs(base: char, c: char)
    ensures BaseRun(base)(c) <==> c in BaseDigits(base)
  {
    HexDigitsAre(c);
    DigitsAre(c);
  }

  lemma BasedNumberEnd(s: string)
    requires |s| > 0 && HasBase(s)
    ensures NumberEnd(s) == (Int, RunEnd(BaseRun(s[1]), s, 2))
  {
    hide RunEnd, IsHex, IsBinary;
  }

  lemma BasedIs(s: string)
    requires |s| > 0 && HasBase(s)
    ensures NumberIs(s, NumberEnd(s).0, NumberEnd(s).1)
  {
    BasedNumberEnd(s);
    forall c ensures BaseRun(s[1])(c) <==> c in BaseDigits(s[1]) {
      BaseRunIs(s[1], c);
    }
    hide BaseRun, BaseDigits, RunEnd, NumberEnd;
    var n := NumberEnd(s).1;
    forall m: nat | IsBased(s, m)
      ensures m <= n
    {
      RunCovers(BaseRun(s[1]), s, 2, m);
    }
  }

  lemma PlainNumberEnd(s: string)
    requires |s| > 0 && !HasBase(s)
    ensures var w := RunEnd(IsDecimal, s, 1);
      var n := ExponentEnd(s, FractionEnd(s, w));
      NumberEnd(s) == (if n > w then Float else Int, n)
  {
    hide RunEnd, ExponentEnd, FractionEnd;
  }

  lemma FractionParts(s: string, w: nat)
    requires w <= |s|
    ensures var f := FractionEnd(s, w);
      f == w || (w + 1 < f && s[w] == '.' && s[w + 1] in "0123456789" && All(IsDecimal, s, w + 2, f))
  {
    if DigitAt(s, w + 1) {
      DigitsAre(s[w + 1]);
    }
    hide IsDigit;
    var f := FractionEnd(s, w);
    if f > w {
      assert IsDecimal(s[w + 1]) by { DigitsAre(s[w + 1]); }
      RunCovers(IsDecimal, s, w + 1, w + 2);
    }
  }

  lemma ExponentParts(s: string, f: nat)
    requires f <= |s|
    ensures ExponentEnd(s, f) == f || Exponent(s, f, ExponentEnd(s, f))
  {
  }

  /** No number is longer than what the lexer takes. */
  lemma NumberCovers(s: string, v: nat, g: nat, m: nat)
    requires Parts(s, v, g, m)
    ensures m <= ExponentEnd(s, FractionEnd(s, RunEnd(IsDecimal, s, 1)))
  {
    var w := RunEnd(IsDecimal, s, 1);
    var f := FractionEnd(s, w);
    RunCovers(IsDecimal, s, 1, v);
    if v == w {
      FractionCovers(s, w, g, m);
      if g == f && m > f {
        ExponentCovers(s, f, m);
      }
    }
  }

  lemma FractionCovers(s: string, w: nat, g: nat, m: nat)
    requires Parts(s, w, g, m) && (w < |s| ==> !IsDecimal(s[w]))
    ensures g == FractionEnd(s, w) || m <= FractionEnd(s, w)
  {
    if g > w {
      DigitsAre(s[w + 1]);
      RunCovers(IsDecimal, s, w + 1, g);
    }
  }

  lemma ExponentCovers(s: string, f: nat, m: nat)
    requires Exponent(s, f, m)
    ensures m <= ExponentEnd(s, f)
  {
    var signed := At(s, f + 1, '+') || At(s, f + 1, '-');
    if signed && m > f + 1 {
      RunCovers(IsDecimal, s, f + 2, m);
    } else if !signed {
      RunCovers(IsDecimal, s, f + 1, m);
    }
  }

  lemma PlainIs(s: string)
    requires |s| > 0 && IsDigit(s[0]) && !HasBase(s)
    ensures NumberIs(s, NumberEnd(s).0, NumberEnd(s).1)
  {
    PlainNumberEnd(s);
    DigitsAre(s[0]);
    var w := RunEnd(IsDecimal, s, 1);
    var f := FractionEnd(s, w);
    var n := ExponentEnd(s, f);
    FractionParts(s, w);
    ExponentParts(s, f);
    assert Parts(s, w, f, n);
    hide RunEnd, FractionEnd, ExponentEnd, NumberEnd;
    forall m: nat | IsNumber(s, m)
      ensures m <= n
    {
      var v: nat, g: nat :| Parts(s, v, g, m);
      NumberCovers(s, v, g, m);
    }
    forall k | 0 <= k < w
      ensures s[k] !in ".eE"
    {
      DigitsAre(s[k]);
    }
    assert n > w ==> s[w] in ".eE";
  }

  lemma NumbersAre(s: string)
    requires |s| > 0 && IsDigit(s[0])
    ensures NumberIs(s, NumberEnd(s).0, NumberEnd(s).1)
  {
    hide NumberIs, NumberEnd, IsDigit;
    if HasBase(s) {
      BasedIs(s);
    } else {
      PlainIs(s);
    }
  }

  // ----- character literals -----

  /** The opening quote, one character or a backslash with any one, and the closing quote. What
      does not close there ends there, and an empty literal with its second quote. */
  predicate CharIs(s: string, n: nat) {
    && 1 <= n <= |s|
    && if |s| == 1 then n == 1
       else if s[1] == '\'' then n == 2
       else
         var hidden := s[1] == '\\' && |s| > 2;
         var unit := if hidden then 3 else 2;
         n == unit + (if unit < |s| && s[unit] == '\'' then 1 else 0)
  }

  // ----- operators -----

  /** What may come second in an operator that begins with `c`. */
  function Seconds(c: char): string {
    match c
    case ':' => ":"
    case '.' => ".*"
    case '-' => ">="
    case '=' => "=>"
    case '<' => "=<"
    case '>' => "=>"
    case '&' => "&="
    case '|' => "|="
    case _ => if c in "+*/%!^" then "=" else ""
  }

  /** The first `m` characters are an operator. */
  predicate IsOp(s: string, m: nat) {
    || (m == 1 <= |s| && s[0] in "()[]{}" + ",;:.@~?" + "+-*/%" + "=!<>" + "&|^")
    || (m == 2 <= |s| && s[1] in Seconds(s[0]))
    || (m == 3 <= |s| && s[0] == '.' && s[1] == '.' && s[2] == '=')
  }

  /** The longest operator in front; a character that begins none is a token of its own. */
  ghost predicate OperatorIs(s: string, kind: Kind, n: nat) {
    && 1 <= n <= |s|
    && (forall m: nat :: IsOp(s, m) ==> m <= n)
    && kind == (if IsOp(s, n) then Punct else Unknown)
    && (kind == Unknown ==> n == 1)
  }

  lemma PairsAre(c: char, d: char)
    ensures Pair(c, d) <==> d in Seconds(c)
  {
  }

  lemma SinglesAre(c: char)
    ensures IsPunct(c) <==> c in "()[]{}" + ",;:.@~?" + "+-*/%" + "=!<>" + "&|^"
    ensures Seconds(c) != "" ==> IsPunct(c)
  {
  }

  lemma OperatorsAre(s: string)
    requires |s| > 0
    ensures OperatorIs(s, if IsPunct(s[0]) then Punct else Unknown, PunctEnd(s))
  {
    SinglesAre(s[0]);
    if |s| > 1 {
      PairsAre(s[0], s[1]);
    }
    hide IsPunct, Pair, Seconds;
  }

  // ----- tokens -----

  /** A name: the longest run of its characters. */
  ghost predicate WordIs(u: Unicode, s: string, n: nat) {
    1 <= n <= |s| && (forall k :: 1 <= k < n ==> IsContinue(u, s[k])) && (n < |s| ==> !IsContinue(u, s[n]))
  }

  /** The reserved words, by their first letters. */
  function Reserved(c: char): set<string> {
    match c
    case 'S' => {"Self"}
    case 'a' => {"and", "as", "await"}
    case 'b' => {"break"}
    case 'c' => {"catch", "comptime", "concurrent", "const", "continue"}
    case 'd' => {"distinct", "dyn"}
    case 'e' => {"else", "ensures", "enum", "error", "extern"}
    case 'f' => {"false", "fn", "for"}
    case 'i' => {"if", "impl", "import", "in", "indirect", "invariant"}
    case 'l' => {"let", "loop"}
    case 'm' => {"match", "mut"}
    case 'n' => {"not", "null"}
    case 'o' => {"or", "out"}
    case 'p' => {"pub"}
    case 'r' => {"read", "record", "region", "requires", "return"}
    case 's' => {"scope", "select", "self", "spawn", "struct"}
    case 't' => {"take", "trait", "true", "trusted", "type"}
    case 'u' => {"union", "unsafe"}
    case 'v' => {"var", "variant"}
    case 'w' => {"where", "while", "with"}
    case _ => {}
  }

  lemma ReservedAre(t: string)
    requires t != []
    ensures IsKeyword(t) <==> t in Reserved(t[0])
  {
  }

  /** `s` starts with a token of that kind and length. */
  ghost predicate IsToken(u: Unicode, s: string, kind: Kind, n: nat)
    requires |s| > 0
  {
    if s[0] in "0123456789" then NumberIs(s, kind, n)
    else if s[0] == '"' then kind == Str && Quotes(s, 1, n)
    else if s[0] == '\'' then kind == Char && CharIs(s, n)
    else if !IsStart(u, s[0]) then OperatorIs(s, kind, n)
    else if |s| > 1 && s[0] == 'f' && s[1] == '"' then kind == FStr && Quotes(s, 2, n)
    else
      WordIs(u, s, n) && kind == if s[..n] == "_" then Underscore else if s[..n] in Reserved(s[0]) then Keyword else Ident
  }

  lemma WordsAre(u: Unicode, s: string)
    requires |s| > 0 && IsStart(u, s[0])
    ensures WordIs(u, s, RunEnd(c => IsContinue(u, c), s, 1))
  {
    hide IsContinue;
  }

  lemma StartsApart(u: Unicode, s: string)
    requires |s| > 0
    ensures IsStart(u, s[0]) ==> s[0] !in "0123456789" && s[0] != '"' && s[0] != '\''
    ensures IsDigit(s[0]) <==> s[0] in "0123456789"
    ensures |s| > 1 && s[1] == '"' ==> !IsContinue(u, s[1])
  {
    DigitsAre(s[0]);
  }

  /** What the lexer takes is a token of the grammar. */
  lemma LexIsToken(u: Unicode, s: string)
    requires |s| > 0
    ensures IsToken(u, s, Lex(u, s).0, Lex(u, s).1)
  {
    StartsApart(u, s);
    hide IsDigit, IsStart, IsContinue, IsPunct, IsKeyword, Reserved, NumberIs, OperatorIs, WordIs, Quotes, NumberEnd, QuoteEnd,
      PunctEnd;
    if IsStart(u, s[0]) {
      ReservedAre(s[..RunEnd(c => IsContinue(u, c), s, 1)]);
      WordsAre(u, s);
      QuotedWord(u, s);
      if |s| > 1 {
        QuoteEndIs(s, 2);
      }
    } else if IsDigit(s[0]) {
      NumbersAre(s);
    } else {
      QuoteEndIs(s, 1);
      OperatorsAre(s);
    }
  }

  lemma QuotedWord(u: Unicode, s: string)
    requires |s| > 0
    ensures |s| > 1 && s[1] == '"' ==> RunEnd(c => IsContinue(u, c), s, 1) == 1
    ensures s[0] == 'f' && RunEnd(c => IsContinue(u, c), s, 1) == 1 ==> s[..1] != "_" && s[..1] == "f"
  {
  }

  lemma NumberUnique(s: string, k: Kind, n: nat, l: Kind, m: nat)
    requires NumberIs(s, k, n) && NumberIs(s, l, m)
    ensures k == l && n == m
  {
    hide IsBased, IsNumber;
    if HasBase(s) {
      assert IsBased(s, n) && IsBased(s, m);
    } else {
      assert IsNumber(s, n) && IsNumber(s, m);
    }
  }

  lemma OperatorUnique(s: string, k: Kind, n: nat, l: Kind, m: nat)
    requires OperatorIs(s, k, n) && OperatorIs(s, l, m)
    ensures k == l && n == m
  {
    hide IsOp;
  }

  lemma WordUnique(u: Unicode, s: string, n: nat, m: nat)
    requires WordIs(u, s, n) && WordIs(u, s, m)
    ensures n == m
  {
    hide IsContinue;
  }

  /** And there is no other: the grammar leaves no choice. */
  lemma TokenUnique(u: Unicode, s: string, k: Kind, n: nat, l: Kind, m: nat)
    requires |s| > 0 && IsToken(u, s, k, n) && IsToken(u, s, l, m)
    ensures k == l && n == m
  {
    hide IsStart, Reserved, NumberIs, OperatorIs, WordIs, Quotes;
    if s[0] in "0123456789" {
      NumberUnique(s, k, n, l, m);
    } else if s[0] == '"' {
      QuotesUnique(s, 1, n, m);
    } else if s[0] == '\'' {
      assert n == m;
    } else if !IsStart(u, s[0]) {
      OperatorUnique(s, k, n, l, m);
    } else if |s| > 1 && s[0] == 'f' && s[1] == '"' {
      QuotesUnique(s, 2, n, m);
    } else {
      WordUnique(u, s, n, m);
    }
  }

  /** The lexer takes exactly the token that the grammar sees. */
  lemma LexReadsToken(u: Unicode, s: string, kind: Kind, n: nat)
    requires |s| > 0
    ensures Lex(u, s) == (kind, n) <==> IsToken(u, s, kind, n)
  {
    hide IsToken, Lex;
    LexIsToken(u, s);
    if IsToken(u, s, kind, n) {
      TokenUnique(u, s, kind, n, Lex(u, s).0, Lex(u, s).1);
    }
  }

  // ----- trivia -----

  /** One blank, a line comment without its line end, or a block comment. */
  ghost predicate IsTrivium(u: Unicode, s: string, n: nat) {
    && 1 <= n <= |s|
    && if IsSpace(u, s[0]) then n == 1
       else
         && s[0] == '/' && |s| > 1
         && if s[1] == '/' then
              n >= 2 && (forall k :: 2 <= k < n ==> s[k] != '\n') && (n < |s| ==> s[n] == '\n')
            else
              s[1] == '*' && Comments(s, 2, 1, n)
  }

  /** `n` characters of trivia, one piece behind the other, and none behind them. */
  ghost predicate AllTrivia(u: Unicode, s: string, n: nat)
    decreases |s|
  {
    if exists m: nat :: IsTrivium(u, s, m) then
      exists m: nat :: IsTrivium(u, s, m) && m <= n && AllTrivia(u, s[m..], n - m)
    else n == 0
  }

  lemma FirstTriviaIs(u: Unicode, s: string)
    requires StartsTrivia(u, s)
    ensures IsTrivium(u, s, FirstTrivia(u, s))
  {
    hide IsSpace, Comments, BlockEnd;
    if |s| >= 2 {
      BlockEndIs(s, 2, 1);
    }
  }

  lemma TriviumUnique(u: Unicode, s: string, m: nat, n: nat)
    requires IsTrivium(u, s, m) && IsTrivium(u, s, n)
    ensures m == n && StartsTrivia(u, s)
  {
    hide IsSpace, Comments;
    if !IsSpace(u, s[0]) && s[1] == '*' {
      CommentsUnique(s, 2, 1, m, n);
    }
  }

  /** The lexer skips exactly the trivia in front. */
  lemma {:induction false} TriviaReads(u: Unicode, s: string, n: nat)
    ensures Trivia(u, s) == n <==> AllTrivia(u, s, n)
    decreases |s|
  {
    hide StartsTrivia, IsTrivium, FirstTrivia;
    if StartsTrivia(u, s) {
      FirstTriviaIs(u, s);
      var m := FirstTrivia(u, s);
      if n >= m {
        TriviaReads(u, s[m..], n - m);
      }
      forall k: nat | IsTrivium(u, s, k) ensures k == m {
        TriviumUnique(u, s, k, m);
      }
    } else {
      forall k: nat ensures !IsTrivium(u, s, k) {
        if IsTrivium(u, s, k) {
          TriviumUnique(u, s, k, k);
        }
      }
    }
  }

  // ----- whole texts -----

  /** `tokens` divide the text from `pos` on by the grammar: trivia, a token, trivia, a token and
      so on, and an end marker behind the last trivia. */
  ghost predicate Divides(u: Unicode, src: string, pos: nat, tokens: seq<Token>)
    requires pos <= |src|
    decreases |src| - pos
  {
    && tokens != []
    && var t := tokens[0];
    && pos <= t.start <= t.end <= |src|
    && AllTrivia(u, src[pos..], t.start - pos)
    && if t.start == |src| then tokens == [Token(Eof, |src|, |src|)]
       else t.start < t.end && IsToken(u, src[t.start..], t.kind, t.end - t.start) && Divides(u, src, t.end, tokens[1..])
  }

  lemma TokenKinds(u: Unicode, s: string, n: nat)
    requires |s| > 0
    ensures !IsToken(u, s, Eof, n)
  {
    hide IsToken;
    LexReadsToken(u, s, Eof, n);
  }

  lemma FirstIs(u: Unicode, src: string, pos: nat)
    requires pos <= |src|
    ensures var t := First(u, src, pos);
      && AllTrivia(u, src[pos..], t.start - pos)
      && (t.start == |src| <==> t == Token(Eof, |src|, |src|))
      && (t.start < |src| ==> t.start < t.end && IsToken(u, src[t.start..], t.kind, t.end - t.start))
  {
    hide AllTrivia, IsToken, Trivia, Lex;
    var n := Trivia(u, src[pos..]);
    RestIsSuffix(u, src, pos);
    TriviaReads(u, src[pos..], n);
    if pos + n < |src| {
      var v := src[pos..][n..];
      LexReadsToken(u, v, Lex(u, v).0, Lex(u, v).1);
    }
  }

  lemma {:induction false} ScanDivides(u: Unicode, src: string, pos: nat)
    requires pos <= |src|
    ensures Divides(u, src, pos, Scan(u, src, pos))
    decreases |src| - pos
  {
    hide AllTrivia, IsToken, First, Lex, Trivia;
    FirstIs(u, src, pos);
    ScanStep(u, src, pos);
    var f, tokens := First(u, src, pos), Scan(u, src, pos);
    if f.kind != Eof {
      TokenKinds(u, src[f.start..], f.end - f.start);
      ScanDivides(u, src, f.end);
    } else {
      assert tokens == [tokens[0]] + tokens[1..];
    }
  }

  lemma FirstUnique(u: Unicode, src: string, pos: nat, a: seq<Token>, b: seq<Token>)
    requires pos <= |src| && Divides(u, src, pos, a) && Divides(u, src, pos, b)
    ensures a[0] == b[0] && (a[0].start < |src| ==> pos < a[0].end <= |src|)
    ensures if a[0].start < |src| then Divides(u, src, a[0].end, a[1..]) && Divides(u, src, a[0].end, b[1..]) else a == b
  {
    hide AllTrivia, IsToken, Trivia;
    TriviaReads(u, src[pos..], a[0].start - pos);
    TriviaReads(u, src[pos..], b[0].start - pos);
    if a[0].start < |src| {
      TokenUnique(u, src[a[0].start..], a[0].kind, a[0].end - a[0].start, b[0].kind, b[0].end - b[0].start);
    }
  }

  lemma {:induction false} DivisionUnique(u: Unicode, src: string, pos: nat, a: seq<Token>, b: seq<Token>)
    requires pos <= |src| && Divides(u, src, pos, a) && Divides(u, src, pos, b)
    ensures a == b
    decreases |src| - pos
  {
    FirstUnique(u, src, pos, a, b);
    assert a != [] && b != [];
    hide Divides;
    if a[0].start < |src| {
      DivisionUnique(u, src, a[0].end, a[1..], b[1..]);
      assert a == [a[0]] + a[1..] && b == [b[0]] + b[1..];
    }
  }

  /** The tokens of a text are the one way the grammar divides it. */
  lemma ScanIsDivision(u: Unicode, src: string, tokens: seq<Token>)
    ensures tokens == Scan(u, src, 0) <==> Divides(u, src, 0, tokens)
  {
    hide Divides, Scan;
    ScanDivides(u, src, 0);
    if Divides(u, src, 0, tokens) {
      DivisionUnique(u, src, 0, tokens, Scan(u, src, 0));
    }
  }
}
