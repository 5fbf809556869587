/** The lossless view of a token stream: every character belongs to one element, either to
    its trivia or to its token. */
module LosslessTree {
  import opened Wrappers
  import opened Lexical
  import opened Lexers

  datatype Span = Span(start: nat, end: nat)
  datatype Element = Element(trivia: Span, token: Token)
  {
    function FullSpan(): Span { Span(trivia.start, token.end) }
  }

  // ----- attach and render -----

  function Min(a: nat, b: nat): nat { if a <= b then a else b }
  function Max(a: nat, b: nat): nat { if a >= b then a else b }

  function Attached(tokens: seq<Token>, prevEnd: nat): (cst: seq<Element>)
    ensures |cst| == |tokens|
  {
    if tokens == [] then []
    else
      var t := tokens[0];
      [Element(Span(Min(prevEnd, t.start), t.start), t)] + Attached(tokens[1..], Max(t.end, prevEnd))
  }

  method Attach(tokens: seq<Token>) returns (cst: seq<Element>)
    ensures cst == Attached(tokens, 0)
  {
    cst := [];
    var prevEnd := 0;
    for i := 0 to |tokens|
      invariant cst + Attached(tokens[i..], prevEnd) == Attached(tokens, 0)
    {
      var token := tokens[i];
      assert tokens[i..][0] == token && tokens[i..][1..] == tokens[i + 1..];
      var start := Min(prevEnd, token.start);
      cst := cst + [Element(Span(start, token.start), token)];
      prevEnd := Max(token.end, prevEnd);
    }
  }

  /** All spans lie in the text. */
  predicate Inside(cst: seq<Element>, n: nat) {
    forall i :: 0 <= i < |cst| ==>
      cst[i].trivia.start <= cst[i].trivia.end <= n && cst[i].token.start <= cst[i].token.end <= n
  }

  function Rendered(src: string, cst: seq<Element>): string
    requires Inside(cst, |src|)
  {
    if cst == [] then ""
    else
      var e := cst[0];
      src[e.trivia.start..e.trivia.end] + src[e.token.start..e.token.end] + Rendered(src, cst[1..])
  }

  method Render(src: string, cst: seq<Element>) returns (out: string)
    requires Inside(cst, |src|)
    ensures out == Rendered(src, cst)
  {
    hide Rendered, Inside;
    out := "";
    assert cst[0..] == cst;
    for i := 0 to |cst|
      invariant Inside(cst[i..], |src|) && out + Rendered(src, cst[i..]) == Rendered(src, cst)
    {
      var e := cst[i];
      RenderedStep(src, cst, i);
      Regroup(out, src[e.trivia.start..e.trivia.end], src[e.token.start..e.token.end], Rendered(src, cst[i + 1..]));
      out := out + src[e.trivia.start..e.trivia.end];
      out := out + src[e.token.start..e.token.end];
    }
    NothingRendered(src, cst[|cst|..]);
  }

  lemma RenderedStep(src: string, cst: seq<Element>, i: nat)
    requires Inside(cst, |src|) && i < |cst|
    ensures var e := cst[i];
            && e.trivia.start <= e.trivia.end <= |src| && e.token.start <= e.token.end <= |src|
            && Inside(cst[i..], |src|) && Inside(cst[i + 1..], |src|)
            && Rendered(src, cst[i..]) == src[e.trivia.start..e.trivia.end] + src[e.token.start..e.token.end] + Rendered(src, cst[i + 1..])
  {
    assert cst[i..][0] == cst[i] && cst[i..][1..] == cst[i + 1..];
  }

  lemma NothingRendered(src: string, cst: seq<Element>)
    requires cst == []
    ensures Inside(cst, |src|) && Rendered(src, cst) == ""
  {
  }

  lemma Regroup(was: string, trivia: string, token: string, rest: string)
    ensures was + trivia + token + rest == was + (trivia + token + rest)
  {
  }

  /** Each element starts where the one before it ended, and the last ends with the text. */
  predicate Tiles(cst: seq<Element>, from: nat, end: nat) {
    if cst == [] then from == end
    else
      && cst[0].trivia.start == from <= cst[0].trivia.end == cst[0].token.start <= cst[0].token.end
      && Tiles(cst[1..], cst[0].token.end, end)
  }

  lemma {:induction false} AttachedTiles(tokens: seq<Token>, from: nat, end: nat)
    requires Ordered(tokens, from, end)
    ensures Tiles(Attached(tokens, from), from, end)
    decreases |tokens|
  {
    var cst := Attached(tokens, from);
    assert cst[1..] == Attached(tokens[1..], Max(tokens[0].end, from));
    if |tokens| > 1 {
      AttachedTiles(tokens[1..], tokens[0].end, end);
    } else {
      assert tokens[1..] == [];
    }
  }

  lemma {:induction false} TilesInside(cst: seq<Element>, from: nat, end: nat)
    requires Tiles(cst, from, end)
    ensures from <= end
    ensures forall i :: 0 <= i < |cst| ==>
      from <= cst[i].trivia.start <= cst[i].trivia.end == cst[i].token.start <= cst[i].token.end <= end
    ensures forall i, j :: 0 <= i < j < |cst| ==> cst[i].token.end <= cst[j].trivia.start
    ensures cst != [] ==> cst[0].trivia.start == from && cst[|cst| - 1].token.end == end
    ensures forall i :: 0 <= i < |cst| - 1 ==> cst[i].token.end == cst[i + 1].trivia.start
    decreases |cst|
  {
    if cst != [] {
      var rest := cst[1..];
      TilesInside(rest, cst[0].token.end, end);
      forall i | 0 < i < |cst|
        ensures cst[i] == rest[i - 1]
      {
      }
    }
  }

  lemma {:induction false} TilesRender(src: string, cst: seq<Element>, from: nat)
    requires from <= |src| && Tiles(cst, from, |src|) && Inside(cst, |src|)
    ensures Rendered(src, cst) == src[from..]
    decreases |cst|
  {
    if cst != [] {
      var e := cst[0];
      TilesInside(cst, from, |src|);
      forall i | 0 <= i < |cst[1..]|
        ensures cst[1..][i] == cst[i + 1]
      {
      }
      TilesRender(src, cst[1..], e.token.end);
      assert src[from..] == src[from..e.token.start] + src[e.token.start..e.token.end] + src[e.token.end..];
    }
  }

  lemma OrderedRender(src: string, tokens: seq<Token>)
    requires Ordered(tokens, 0, |src|)
    ensures Inside(Attached(tokens, 0), |src|)
    ensures Rendered(src, Attached(tokens, 0)) == src
  {
    hide Ordered, Attached, Tiles, Rendered;
    var cst := Attached(tokens, 0);
    AttachedTiles(tokens, 0, |src|);
    TilesInside(cst, 0, |src|);
    TilesRender(src, cst, 0);
  }

  /** Nothing is lost: for every text, rendering what was attached gives the text back. */
  lemma Lossless(u: Unicode, src: string)
    ensures Inside(Attached(Scan(u, src, 0), 0), |src|)
    ensures Rendered(src, Attached(Scan(u, src, 0), 0)) == src
  {
    ScanOrdered(u, src, 0);
    hide *;
    OrderedRender(src, Scan(u, src, 0));
  }

  // ----- cursor queries -----

  /** Where the elements that satisfy `p` end, when they all stand in front. */
  method PartitionPoint(cst: seq<Element>, p: Element -> bool) returns (k: nat)
    requires forall i, j :: 0 <= i < j < |cst| && p(cst[j]) ==> p(cst[i])
    ensures k <= |cst|
    ensures forall i :: 0 <= i < |cst| ==> (p(cst[i]) <==> i < k)
  {
    var lo, hi := 0, |cst|;
    while lo < hi
      invariant 0 <= lo <= hi <= |cst|
      invariant forall i :: 0 <= i < lo ==> p(cst[i])
      invariant forall i :: hi <= i < |cst| ==> !p(cst[i])
    {
      var mid := (lo + hi) / 2;
      if p(cst[mid]) {
        lo := mid + 1;
      } else {
        hi := mid;
      }
    }
    k := lo;
  }

  /** The tokens that a span touches. */
  method TokenRange(cst: seq<Element>, span: Span, ghost end: nat) returns (lo: nat, hi: nat)
    requires Tiles(cst, 0, end)
    ensures lo <= hi <= |cst|
    ensures forall i :: lo <= i < hi ==> cst[i].token.end > span.start && cst[i].token.start < span.end
    ensures forall i :: 0 <= i < |cst| && cst[i].token.end > span.start && cst[i].token.start < span.end ==> lo <= i < hi
  {
    TilesInside(cst, 0, end);
    lo := PartitionPoint(cst, (e: Element) => e.token.end <= span.start);
    hi := PartitionPoint(cst, (e: Element) => e.token.start < span.end);
    hi := Max(hi, lo);
  }

  /** For a span cut at token ends the range is the tokens inside it. */
  lemma NodeSpanExact(cst: seq<Element>, end: nat, a: nat, b: nat, i: nat)
    requires Tiles(cst, 0, end) && a <= b < |cst| && i < |cst|
    requires forall k :: 0 <= k < |cst| - 1 ==> cst[k].token.start < cst[k].token.end
    requires b < |cst| - 1
    ensures var span := Span(cst[a].token.start, cst[b].token.end);
      (cst[i].token.end > span.start && cst[i].token.start < span.end) <==> a <= i <= b
  {
    TilesInside(cst, 0, end);
  }

  method TokenAt(cst: seq<Element>, pos: nat, ghost end: nat) returns (at: Option<nat>)
    requires Tiles(cst, 0, end)
    ensures at.Some? ==> at.value < |cst| && cst[at.value].token.start <= pos < cst[at.value].token.end
    ensures forall i :: 0 <= i < |cst| && cst[i].token.start <= pos < cst[i].token.end ==> at == Some(i)
  {
    TilesInside(cst, 0, end);
    var i := PartitionPoint(cst, (e: Element) => e.token.end <= pos);
    at := if i < |cst| && cst[i].token.start <= pos then Some(i) else None;
  }

  /** Total over the text, and there is only one answer. */
  method ElementAt(cst: seq<Element>, pos: nat, ghost end: nat) returns (at: Option<nat>)
    requires Tiles(cst, 0, end)
    ensures at.Some? <==> pos < end
    ensures at.Some? ==> at.value < |cst| && cst[at.value].FullSpan().start <= pos < cst[at.value].FullSpan().end
    ensures forall i :: 0 <= i < |cst| && cst[i].FullSpan().start <= pos < cst[i].FullSpan().end ==> at == Some(i)
  {
    TilesInside(cst, 0, end);
    var i := PartitionPoint(cst, (e: Element) => e.FullSpan().end <= pos);
    at := if i < |cst| && cst[i].FullSpan().start <= pos then Some(i) else None;
    if pos < end {
      assert cst[|cst| - 1].FullSpan().end == end;
      assert i > 0 ==> cst[i - 1].FullSpan().end == cst[i].FullSpan().start <= pos;
    }
  }

  // ----- pieces of trivia -----

  datatype PieceKind = Whitespace | LineComment | BlockComment
  datatype Piece = Piece(kind: PieceKind, span: Span)

  /** Non-empty pieces, one behind the other. */
  predicate Tiling(pieces: seq<Piece>, from: nat, end: nat) {
    if pieces == [] then from == end
    else
      var k := |pieces| - 1;
      pieces[k].span.start < pieces[k].span.end == end && Tiling(pieces[..k], from, pieces[k].span.start)
  }

  predicate AsciiBlank(c: char) { c == ' ' || c == '\t' || c == '\n' || c == '\r' || c == 12 as char }

  predicate CommentAt(src: string, i: nat, end: nat, second: char)
    requires i < end <= |src|
  {
    src[i] == '/' && i + 1 < end && src[i + 1] == second
  }

  /** Neither an ASCII blank nor a comment starts here. */
  predicate Stray(src: string, i: nat, end: nat)
    requires i < end <= |src|
  {
    !AsciiBlank(src[i]) && !CommentAt(src, i, end, '/') && !CommentAt(src, i, end, '*')
  }

  /** A piece is a maximal run of ASCII blanks, a line comment up to its line's end, a block
      comment to its matching close, or a single stray character; or it stops at `end`. */
  predicate PieceOk(src: string, piece: Piece, end: nat)
    requires piece.span.start < piece.span.end <= end <= |src|
  {
    var i, e := piece.span.start, piece.span.end;
    match piece.kind
    case LineComment =>
      CommentAt(src, i, end, '/') && e == RunEnd(c => c != '\n', src[..end], i)
    case BlockComment =>
      CommentAt(src, i, end, '*') && e == BlockEnd(src[..end], i + 2, 1)
    case Whitespace =>
      if Stray(src, i, end) then e == i + 1
      else AsciiBlank(src[i]) && e == RunEnd(AsciiBlank, src[..end], i)
  }

  method Pieces(src: string, trivia: Span) returns (out: seq<Piece>)
    ensures Tiling(out, Min(trivia.start, Min(trivia.end, |src|)), Min(trivia.end, |src|))
    ensures forall j :: 0 <= j < |out| ==>
      out[j].span.start < out[j].span.end <= Min(trivia.end, |src|) && PieceOk(src, out[j], Min(trivia.end, |src|))
  {
    var end := Min(trivia.end, |src|);
    var i := Min(trivia.start, end);
    ghost var from := i;
    out := [];
    while i < end
      invariant from <= i <= end
      invariant Tiling(out, from, i)
      invariant forall j :: 0 <= j < |out| ==> out[j].span.start < out[j].span.end <= i && PieceOk(src, out[j], end)
      decreases end - i
    {
      var start := i;
      var kind;
      kind, i := NextPiece(src, i, end);
      ghost var was := out;
      out := out + [Piece(kind, Span(start, i))];
      assert out[..|out| - 1] == was;
    }
  }

  method NextPiece(src: string, start: nat, end: nat) returns (kind: PieceKind, i: nat)
    requires start < end <= |src|
    ensures start < i <= end && PieceOk(src, Piece(kind, Span(start, i)), end)
  {
    ghost var text := src[..end];
    i := start;
    if AsciiBlank(src[i]) {
      i := SkipWhile(src, start, end, AsciiBlank);
      kind := Whitespace;
    } else if src[i] == '/' && i + 1 < end && src[i + 1] == '/' {
      i := SkipWhile(src, start, end, c => c != '\n');
      kind := LineComment;
    } else if src[i] == '/' && i + 1 < end && src[i + 1] == '*' {
      i := i + 2;
      var depth: nat := 1;
      while i < end && depth > 0
        invariant start < i <= end
        invariant BlockEnd(text, i, depth) == BlockEnd(text, start + 2, 1)
        decreases end - i
      {
        if i + 1 < end && src[i] == '/' && src[i + 1] == '*' {
          depth := depth + 1;
          i := i + 2;
        } else if i + 1 < end && src[i] == '*' && src[i + 1] == '/' {
          depth := depth - 1;
          i := i + 2;
        } else {
          i := i + 1;
        }
      }
      kind := BlockComment;
    } else {
      i := i + 1;
      kind := Whitespace;
    }
  }

  method SkipWhile(src: string, start: nat, end: nat, p: char -> bool) returns (i: nat)
    requires start < end <= |src| && p(src[start])
    ensures start < i <= end && i == RunEnd(p, src[..end], start)
  {
    i := start;
    while i < end && p(src[i])
      invariant start <= i <= end && RunEnd(p, src[..end], i) == RunEnd(p, src[..end], start)
    {
      i := i + 1;
    }
  }

  // ----- stray characters -----

  /** Between `i` and `end` there is nothing but trivia, and a token or nothing behind it. */
  predicate InTrivia(u: Unicode, src: string, i: nat, end: nat) {
    i <= end <= |src| && Rest(u, src[i..]) == src[end..]
  }

  /** In the lexer's trivia a stray character is a blank that is not an ASCII blank. */
  lemma {:induction false} StraysAreBlanks(u: Unicode, src: string, pieces: seq<Piece>, from: nat, end: nat, j: nat)
    requires InTrivia(u, src, from, end) && Tiling(pieces, from, end) && j < |pieces|
    requires forall k :: 0 <= k < |pieces| ==>
      pieces[k].span.start < pieces[k].span.end <= end && PieceOk(src, pieces[k], end)
    ensures InTrivia(u, src, pieces[j].span.start, end)
    ensures Stray(src, pieces[j].span.start, end) ==> IsSpace(u, src[pieces[j].span.start])
    decreases j
  {
    hide IsSpace, PieceOk, Rest;
    PiecesChain(pieces, from, end);
    if j > 0 {
      StraysAreBlanks(u, src, pieces, from, end, j - 1);
      PieceStaysInside(u, src, pieces[j - 1], end);
    }
    TriviaStartsHere(u, src, pieces[j].span.start, end);
  }

  lemma {:induction false} PiecesChain(pieces: seq<Piece>, from: nat, end: nat)
    requires Tiling(pieces, from, end)
    ensures pieces != [] ==> pieces[0].span.start == from
    ensures forall k :: 0 < k < |pieces| ==> pieces[k].span.start == pieces[k - 1].span.end
    decreases |pieces|
  {
    if pieces != [] {
      var k := |pieces| - 1;
      PiecesChain(pieces[..k], from, pieces[k].span.start);
    }
  }

  lemma TriviaStartsHere(u: Unicode, src: string, i: nat, end: nat)
    requires InTrivia(u, src, i, end) && i < end
    ensures StartsTrivia(u, src[i..])
    ensures Stray(src, i, end) ==> IsSpace(u, src[i])
  {
    var s := src[i..];
    assert !StartsTrivia(u, s) ==> Rest(u, s) == s;
    assert |Rest(u, s)| < |s|;
    if !IsSpace(u, src[i]) {
      CommentInside(u, src, i, end);
    }
  }

  /** A comment that starts in the trivia has both its opening characters there. */
  lemma CommentInside(u: Unicode, src: string, i: nat, end: nat)
    requires InTrivia(u, src, i, end) && i < end && StartsTrivia(u, src[i..]) && !IsSpace(u, src[i])
    ensures CommentAt(src, i, end, '/') || CommentAt(src, i, end, '*')
    ensures i + FirstTrivia(u, src[i..]) <= end && FirstTrivia(u, src[i..]) >= 2
  {
    var s := src[i..];
    assert s[0] == src[i] && s[1] == src[i + 1];
    FirstIsInside(u, src, i, end);
  }

  lemma FirstIsInside(u: Unicode, src: string, i: nat, end: nat)
    requires InTrivia(u, src, i, end) && StartsTrivia(u, src[i..])
    ensures InTrivia(u, src, i + FirstTrivia(u, src[i..]), end)
  {
    hide FirstTrivia, StartsTrivia;
    var s := src[i..];
    var n := FirstTrivia(u, s);
    RestStep(u, s);
    assert s[n..] == src[i + n..];
  }

  /** Behind a piece of trivia there is trivia, or its end. */
  lemma PieceStaysInside(u: Unicode, src: string, piece: Piece, end: nat)
    requires piece.span.start < piece.span.end <= end <= |src| && PieceOk(src, piece, end)
    requires InTrivia(u, src, piece.span.start, end)
    ensures InTrivia(u, src, piece.span.end, end)
  {
    hide InTrivia, StartsTrivia, FirstTrivia;
    var i := piece.span.start;
    TriviaStartsHere(u, src, i, end);
    FirstIsInside(u, src, i, end);
    if piece.kind.Whitespace? {
      if Stray(src, i, end) {
        BlankIsOne(u, src, i);
      } else {
        BlanksInside(u, src, i, end);
      }
    } else {
      CommentIsPiece(u, src, piece, end);
    }
  }

  lemma BlankIsOne(u: Unicode, src: string, i: nat)
    requires i < |src| && IsSpace(u, src[i])
    ensures StartsTrivia(u, src[i..]) && FirstTrivia(u, src[i..]) == 1
  {
  }

  lemma {:induction false} BlanksInside(u: Unicode, src: string, i: nat, end: nat)
    requires InTrivia(u, src, i, end)
    ensures InTrivia(u, src, RunEnd(AsciiBlank, src[..end], i), end)
    decreases end - i
  {
    hide Rest;
    if i < end && AsciiBlank(src[i]) {
      BlankIsOne(u, src, i);
      FirstIsInside(u, src, i, end);
      BlanksInside(u, src, i + 1, end);
    }
  }

  lemma CommentIsPiece(u: Unicode, src: string, piece: Piece, end: nat)
    requires piece.span.start < piece.span.end <= end <= |src| && PieceOk(src, piece, end) && !piece.kind.Whitespace?
    requires InTrivia(u, src, piece.span.start, end) && StartsTrivia(u, src[piece.span.start..])
    ensures piece.span.end == piece.span.start + FirstTrivia(u, src[piece.span.start..])
  {
    var i := piece.span.start;
    var s := src[i..];
    assert s[0] == src[i] && s[1] == src[i + 1];
    CommentInside(u, src, i, end);
    var n := FirstTrivia(u, s);
    if piece.kind.LineComment? {
      RunInside(c => c != '\n', src, i, 2, end);
      assert RunEnd(c => c != '\n', src[..end], i) == RunEnd(c => c != '\n', src[..end], i + 1)
        == RunEnd(c => c != '\n', src[..end], i + 2);
    } else {
      BlockInside(src, i, 2, 1, end);
    }
  }

  /** A run seen from a later start and up to an earlier end. */
  lemma {:induction false} RunInside(p: char -> bool, src: string, at: nat, i: nat, end: nat)
    requires at + i <= end <= |src| && at + RunEnd(p, src[at..], i) <= end
    ensures RunEnd(p, src[..end], at + i) == at + RunEnd(p, src[at..], i)
    decreases end - at - i
  {
    if at + i < end && p(src[at + i]) {
      RunInside(p, src, at, i + 1, end);
    }
  }

  lemma BlockInside(src: string, at: nat, i: nat, depth: nat, end: nat)
    requires at + i <= end <= |src| && at + BlockEnd(src[at..], i, depth) <= end
    ensures BlockEnd(src[..end], at + i, depth) == at + BlockEnd(src[at..], i, depth)
  {
    hide BlockEnd;
    BlockBehind(src, at, i, depth);
    BlockBefore(src, at + i, depth, end);
  }

  lemma {:induction false} BlockBehind(src: string, at: nat, i: nat, depth: nat)
    requires at + i <= |src|
    ensures BlockEnd(src, at + i, depth) == at + BlockEnd(src[at..], i, depth)
    decreases |src| - i
  {
    var s := src[at..];
    if depth > 0 && i < |s| {
      SameChars(src, s, at + i, i);
      if s[i] == '/' && At(s, i + 1, '*') {
        BlockBehind(src, at, i + 2, depth + 1);
      } else if s[i] == '*' && At(s, i + 1, '/') {
        BlockBehind(src, at, i + 2, depth - 1);
      } else {
        BlockBehind(src, at, i + 1, depth);
      }
    }
  }

  lemma SameChars(src: string, s: string, j: nat, i: nat)
    requires i <= j && j - i <= |src| && s == src[j - i..] && i < |s|
    ensures s[i] == src[j] && (i + 1 < |s| <==> j + 1 < |src|) && (i + 1 < |s| ==> s[i + 1] == src[j + 1])
  {
  }

  lemma {:induction false} BlockBefore(src: string, i: nat, depth: nat, end: nat)
    requires i <= end <= |src| && BlockEnd(src, i, depth) <= end
    ensures BlockEnd(src[..end], i, depth) == BlockEnd(src, i, depth)
    decreases end - i
  {
    var s := src[..end];
    if depth > 0 && i < end {
      assert s[i] == src[i] && (i + 1 < end ==> s[i + 1] == src[i + 1]);
      if src[i] == '/' && At(src, i + 1, '*') {
        BlockBefore(src, i + 2, depth + 1, end);
      } else if src[i] == '*' && At(src, i + 1, '/') {
        BlockBefore(src, i + 2, depth - 1, end);
      } else {
        BlockBefore(src, i + 1, depth, end);
      }
    }
  }

  // ----- the pieces and their text -----

  function PieceTexts(src: string, pieces: seq<Piece>): string
    requires forall j :: 0 <= j < |pieces| ==> pieces[j].span.start <= pieces[j].span.end <= |src|
  {
    if pieces == [] then ""
    else
      var k := |pieces| - 1;
      PieceTexts(src, pieces[..k]) + src[pieces[k].span.start..pieces[k].span.end]
  }

  /** The pieces spell out the trivia they were cut from. */
  lemma {:induction false} PiecesSpellTrivia(src: string, pieces: seq<Piece>, from: nat, end: nat)
    requires Tiling(pieces, from, end) && end <= |src|
    requires forall j :: 0 <= j < |pieces| ==> pieces[j].span.start <= pieces[j].span.end <= |src|
    ensures from <= end && PieceTexts(src, pieces) == src[from..end]
    decreases |pieces|
  {
    if pieces != [] {
      var k := |pieces| - 1;
      PiecesSpellTrivia(src, pieces[..k], from, pieces[k].span.start);
      assert src[from..end] == src[from..pieces[k].span.start] + src[pieces[k].span.start..end];
    }
  }
}
