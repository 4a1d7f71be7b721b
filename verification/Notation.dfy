// Coordinate and algebraic notation (src/chess/move.cc, parse_move of src/chess/board_util.cc), and where
// it is that of section 8.2.3 of the PGN Specification and Implementation Guide.
module Notation {
  import opened Basic
  import opened Moves
  import opened Rules
  import opened Text

  // ---- Coordinate notation ----------------------------------------------------------------

  // Move::str.
  function Str(m: Move): string
    requires m.HasSquares()
  {
    SquareStr(m.f) + SquareStr(m.t) + if m.IsPromotion() then [LowerChar(m.promo)] else ""
  }

  // Origin and destination by file and rank, and behind them the promotion piece in lower case.
  lemma StrIsSpelled(m: Move)
    requires m.HasSquares()
    ensures Str(m) == ["abcdefgh"[m.f.fil], "12345678"[m.f.rnk], "abcdefgh"[m.t.fil], "12345678"[m.t.rnk]]
                      + if !m.IsPromotion() then ""
                        else match m.promo { case Queen => "q" case Rook => "r" case Bishop => "b" case Knight => "n"
                                             case Pawn => "p" case King => "k" }
  {}

  lemma StrParts(m: Move)
    requires m.HasSquares()
    ensures Str(m)[..2] == SquareStr(m.f) && Str(m)[2..4] == SquareStr(m.t) && |Str(m)| == if m.IsPromotion() then 5 else 4
    ensures m.IsPromotion() ==> Str(m)[4] == LowerChar(m.promo)
  {}

  // Moves with equal squares and promotion piece are the same pseudo-legal move.
  lemma SquaresDecide(p: Position, m: Move, n: Move)
    requires Invariant(p) && Pseudo(p, m, true) && Pseudo(p, n, true)
    requires m.f == n.f && m.t == n.t && m.IsPromotion() == n.IsPromotion() && (m.IsPromotion() ==> m.promo == n.promo)
    ensures m == n
  {}

  lemma StrInjective(p: Position, m: Move, n: Move)
    requires Invariant(p) && Pseudo(p, m, true) && Pseudo(p, n, true) && Str(m) == Str(n)
    ensures m == n
  {
    StrParts(m);
    StrParts(n);
    SquareStrInjective(m.f, n.f);
    SquareStrInjective(m.t, n.t);
    SquaresDecide(p, m, n);
  }

  // ---- Standard algebraic notation --------------------------------------------------------

  predicate TakesX(m: Move) {
    m.IsCapture() || m.EnPassant?
  }

  // What comes before the capture sign and the destination.
  function Lead(m: Move, byFile: bool, byRank: bool): string
    requires m.HasSquares()
  {
    if m.PType() == Some(Pawn) then (if TakesX(m) then [FileChar(m.f.fil)] else "")
    else
      [PieceChar(m.PType().value)] + (if byFile then [FileChar(m.f.fil)] else "") + (if byRank then [RankChar(m.f.rnk)] else "")
  }

  function Cross(m: Move, withX: bool): string {
    if TakesX(m) && withX then "x" else ""
  }

  function PromoStr(m: Move): string {
    if m.IsPromotion() then ['=', PieceChar(m.promo)] else ""
  }

  function Body(m: Move, byFile: bool, byRank: bool, withX: bool): string
    requires m.HasSquares()
  {
    if m.Castle? then (if m.t.fil == 2 then "O-O-O" else "O-O")
    else Lead(m, byFile, byRank) + Cross(m, withX) + SquareStr(m.t) + PromoStr(m)
  }

  // Another legal move of the same kind of piece to the same square.
  ghost predicate Rival(p: Position, m: Move, n: Move)
    requires m.HasSquares()
  {
    Legal(p, n, true) && n.HasSquares() && n.PType() == m.PType() && n.t == m.t && n.f != m.f
  }

  ghost predicate NeedsFile(p: Position, m: Move)
    requires m.HasSquares()
  {
    exists n :: Rival(p, m, n) && n.f.fil != m.f.fil
  }

  ghost predicate NeedsRank(p: Position, m: Move)
    requires m.HasSquares()
  {
    exists n :: Rival(p, m, n) && n.f.fil == m.f.fil
  }

  ghost predicate IsMate(p: Position) {
    KingAttacked(p.men, p.side) && forall n :: !Legal(p, n, true)
  }

  // The mark for check or checkmate.
  ghost function Suffix(p: Position, m: Move): string
    requires |p.moveCount| == SQUARES
  {
    var q := Make(p, m);
    if !KingAttacked(q.men, q.side) then "" else if IsMate(q) then "#" else "+"
  }

  // The text of a move, given what tells it from its rivals and its check mark. Move::san with its
  // relaxed variants: 0 is the official form, 1 leaves out the check mark, 2 the capture sign, and 3 to 5
  // add file, rank or both.
  function MoveText(m: Move, needsFile: bool, needsRank: bool, mark: string, nonstd: int): string
    requires m.HasSquares()
  {
    Body(m, needsFile || nonstd == 3 || nonstd == 5, needsRank || nonstd == 4 || nonstd == 5, nonstd != 2)
    + (if nonstd != 1 then mark else "")
  }

  ghost function San(p: Position, m: Move, nonstd: int): string
    requires |p.moveCount| == SQUARES && m.HasSquares()
  {
    MoveText(m, NeedsFile(p, m), NeedsRank(p, m), Suffix(p, m), nonstd)
  }

  // ---- The notation of the standard -------------------------------------------------------

  // Section 8.2.3.4 of the PGN Specification: where other moves of such pieces go to the same square, the
  // file of origin if it tells them apart, else the rank if that does, else both.
  ghost predicate FileTells(p: Position, m: Move)
    requires m.HasSquares()
  {
    forall n :: Rival(p, m, n) ==> n.f.fil != m.f.fil
  }

  ghost predicate RankTells(p: Position, m: Move)
    requires m.HasSquares()
  {
    forall n :: Rival(p, m, n) ==> n.f.rnk != m.f.rnk
  }

  ghost predicate PgnFile(p: Position, m: Move)
    requires m.HasSquares()
  {
    (exists n :: Rival(p, m, n)) && (FileTells(p, m) || !RankTells(p, m))
  }

  ghost predicate PgnRank(p: Position, m: Move)
    requires m.HasSquares()
  {
    !FileTells(p, m)
  }

  // The letters of section 8.2.3.2; pawns have none.
  function PgnLetter(x: Piece): string {
    match x
    case Pawn => ""
    case Knight => "N"
    case Bishop => "B"
    case Rook => "R"
    case Queen => "Q"
    case King => "K"
  }

  // Section 8.2.3.3: castling towards the h-file is O-O, towards the a-file O-O-O; a pawn that captures is preceded
  // by its file, another piece by its letter and what tells it from its like; a capture is marked by x, and a
  // promotion written behind the square.
  function Spelled(x: Piece, m: Move, takes: bool, byFile: bool, byRank: bool): string
    requires m.HasSquares()
  {
    var square := ["abcdefgh"[m.t.fil], "12345678"[m.t.rnk]];
    if m.Castle? then (if m.t.fil > m.f.fil then "O-O" else "O-O-O")
    else if x == Pawn then
      (if m.t.fil != m.f.fil then ["abcdefgh"[m.f.fil], 'x'] else "") + square
      + if m.IsPromotion() then "=" + PgnLetter(m.promo) else ""
    else
      PgnLetter(x) + (if byFile then ["abcdefgh"[m.f.fil]] else "") + (if byRank then ["12345678"[m.f.rnk]] else "")
      + (if takes then "x" else "") + square
  }

  // Section 8.2.3.5: a move that leaves the opponent's king attacked is marked, checkmate with # and check with +.
  ghost function Marked(p: Position, m: Move): string
    requires |p.moveCount| == SQUARES
  {
    if !KingAttacked(Make(p, m).men, p.side.Other()) then ""
    else if exists n :: Legal(Make(p, m), n, true) then "+"
    else "#"
  }

  ghost function PgnSan(p: Position, m: Move): string
    requires |p.moveCount| == SQUARES && m.HasSquares() && m.f in p.men
  {
    Spelled(p.men[m.f].piece, m, m.t in p.men, PgnFile(p, m), PgnRank(p, m)) + Marked(p, m)
  }

  // san writes file and rank although the rank would do.
  ghost predicate SaysTooMuch(p: Position, m: Move)
    requires m.HasSquares()
  {
    m.PType() != Some(Pawn) && !m.Castle? && NeedsFile(p, m) && NeedsRank(p, m) && RankTells(p, m)
  }

  lemma PgnHelpIs(p: Position, m: Move)
    requires m.HasSquares()
    ensures PgnRank(p, m) == NeedsRank(p, m)
    ensures PgnFile(p, m) == NeedsFile(p, m) <==> !(NeedsFile(p, m) && NeedsRank(p, m) && RankTells(p, m))
  {
    if NeedsRank(p, m) {
      var n :| Rival(p, m, n) && n.f.fil == m.f.fil;
      if !RankTells(p, m) {
        var k :| Rival(p, m, k) && k.f.rnk == m.f.rnk;
        assert k.f.fil != m.f.fil;
      }
    }
  }

  lemma HelpShows(m: Move, f: bool, g: bool, r: bool)
    requires m.HasSquares() && m.PType() != Some(Pawn) && !m.Castle? && f != g
    ensures |Body(m, f, r, true)| != |Body(m, g, r, true)|
  {}

  // What the flags of a pseudo-legal move say of the board.
  ghost predicate FlagsFit(m: Move, x: Piece, takes: bool) {
    && m.HasSquares() && m.PType() == Some(x)
    && (m.Castle? ==> (m.t.fil == 2 <==> m.t.fil < m.f.fil) && m.t.fil != m.f.fil)
    && (x == Pawn ==> (TakesX(m) <==> m.t.fil != m.f.fil) && (m.IsPromotion() ==> m.promo != Pawn))
    && (x != Pawn && !m.Castle? ==> (TakesX(m) <==> takes) && !m.IsPromotion())
  }

  lemma CastlingFits(p: Position, m: Move)
    requires Invariant(p) && Pseudo(p, m, true) && m.Castle?
    ensures m.f in p.men && FlagsFit(m, p.men[m.f].piece, m.t in p.men)
  {
    var r: Right :| MayCastle(p, r) && m.f == KingHome(r) && m.t == KingGoal(r);
    assert HomeHeld(p.men, r);
  }

  lemma OtherFits(p: Position, m: Move)
    requires Pseudo(p, m, true) && !m.Castle?
    ensures m.f in p.men && FlagsFit(m, p.men[m.f].piece, m.t in p.men)
  {}

  lemma MoveFits(p: Position, m: Move)
    requires Invariant(p) && Pseudo(p, m, true)
    ensures m.f in p.men && FlagsFit(m, p.men[m.f].piece, m.t in p.men)
  {
    if m.Castle? { CastlingFits(p, m); } else { OtherFits(p, m); }
  }

  lemma SquareIsSpelled(s: Square)
    ensures FileChar(s.fil) == "abcdefgh"[s.fil] && RankChar(s.rnk) == "12345678"[s.rnk]
  {}

  lemma LetterIsSpelled(x: Piece)
    ensures x != Pawn ==> PgnLetter(x) == [PieceChar(x)]
  {}

  lemma PawnIsSpelled(m: Move, takes: bool, byFile: bool, byRank: bool)
    requires FlagsFit(m, Pawn, takes)
    ensures Body(m, byFile, byRank, true) == Spelled(Pawn, m, takes, byFile, byRank)
  {
    SquareIsSpelled(m.f);
    SquareIsSpelled(m.t);
    if m.IsPromotion() { LetterIsSpelled(m.promo); }
  }

  lemma PieceIsSpelled(m: Move, x: Piece, takes: bool, byFile: bool, byRank: bool)
    requires FlagsFit(m, x, takes) && x != Pawn && !m.Castle?
    ensures Body(m, byFile, byRank, true) == Spelled(x, m, takes, byFile, byRank)
  {
    SquareIsSpelled(m.f);
    SquareIsSpelled(m.t);
    LetterIsSpelled(x);
    assert PromoStr(m) == "";
  }

  lemma BodyIsSpelled(m: Move, x: Piece, takes: bool, byFile: bool, byRank: bool)
    requires FlagsFit(m, x, takes)
    ensures Body(m, byFile, byRank, true) == Spelled(x, m, takes, byFile, byRank)
  {
    if x == Pawn { PawnIsSpelled(m, takes, byFile, byRank); }
    else if !m.Castle? { PieceIsSpelled(m, x, takes, byFile, byRank); }
  }

  lemma MarkIsSuffix(p: Position, m: Move)
    requires |p.moveCount| == SQUARES
    ensures Suffix(p, m) == Marked(p, m)
  {}

  // san spells a move as the standard does, with the file of origin if a rival stands on another file and the rank
  // if one stands on the same file.
  lemma SanIsSpelled(p: Position, m: Move)
    requires Invariant(p) && Pseudo(p, m, true)
    ensures m.f in p.men
    ensures San(p, m, 0) == Spelled(p.men[m.f].piece, m, m.t in p.men, NeedsFile(p, m), NeedsRank(p, m)) + Marked(p, m)
  {
    MoveFits(p, m);
    SanSpelledAs(p, m, p.men[m.f].piece, m.t in p.men);
  }

  lemma SanSpelledAs(p: Position, m: Move, x: Piece, takes: bool)
    requires |p.moveCount| == SQUARES && FlagsFit(m, x, takes)
    ensures San(p, m, 0) == Spelled(x, m, takes, NeedsFile(p, m), NeedsRank(p, m)) + Marked(p, m)
  {
    BodyIsSpelled(m, x, takes, NeedsFile(p, m), NeedsRank(p, m));
    MarkIsSuffix(p, m);
  }

  // The last character is the mark, if there is one: + for check, # for checkmate.
  lemma SanEndsIn(p: Position, m: Move)
    requires |p.moveCount| == SQUARES && m.HasSquares()
    ensures var s, q := San(p, m, 0), Make(p, m);
            && |s| > 0
            && (s[|s| - 1] == '+' <==> KingAttacked(q.men, q.side) && exists n :: Legal(q, n, true))
            && (s[|s| - 1] == '#' <==> KingAttacked(q.men, q.side) && forall n :: !Legal(q, n, true))
  {
    MarkIsSuffix(p, m);
    BodyEnd(m, NeedsFile(p, m), NeedsRank(p, m), true);
    LastIsMark(Body(m, NeedsFile(p, m), NeedsRank(p, m), true), Suffix(p, m));
  }

  lemma LastIsMark(body: string, mark: string)
    requires |body| > 0 && !IsMark(body[|body| - 1]) && CheckMark(mark)
    ensures ((body + mark)[|body + mark| - 1] == '+' <==> mark == "+") && ((body + mark)[|body + mark| - 1] == '#' <==> mark == "#")
  {}

  // The official form of san is the standard's form if and only if it does not say too much.
  lemma SanIsPgnIff(p: Position, m: Move)
    requires Invariant(p) && Pseudo(p, m, true)
    ensures m.f in p.men && (San(p, m, 0) == PgnSan(p, m) <==> !SaysTooMuch(p, m))
  {
    MoveFits(p, m);
    SanIsPgnAs(p, m);
  }

  lemma SanIsPgnAs(p: Position, m: Move)
    requires |p.moveCount| == SQUARES && m.HasSquares() && m.f in p.men && FlagsFit(m, p.men[m.f].piece, m.t in p.men)
    ensures San(p, m, 0) == PgnSan(p, m) <==> !SaysTooMuch(p, m)
  {
    PgnHelpIs(p, m);
    MarkIsSuffix(p, m);
    BodyIsSpelled(m, p.men[m.f].piece, m.t in p.men, PgnFile(p, m), PgnRank(p, m));
    if SaysTooMuch(p, m) {
      HelpShows(m, NeedsFile(p, m), PgnFile(p, m), NeedsRank(p, m));
    } else if m.PType() == Some(Pawn) {
      PawnHelp(m, NeedsFile(p, m), NeedsRank(p, m));
      PawnHelp(m, PgnFile(p, m), PgnRank(p, m));
    }
  }

  lemma PawnHelp(m: Move, f: bool, r: bool)
    requires m.HasSquares() && m.PType() == Some(Pawn)
    ensures Body(m, f, r, true) == Body(m, false, false, true)
  {}

  // ---- Reading a string from its end ------------------------------------------------------

  predicate CheckMark(s: string) {
    s == "" || s == "+" || s == "#"
  }

  lemma MarkSeen(a: string, s: string)
    requires CheckMark(s) && |a| > 0 && !IsMark(a[|a| - 1])
    ensures IsMark((a + s)[|a + s| - 1]) <==> s != ""
  {}

  lemma MarkDetached(a: string, s: string, b: string, t: string)
    requires a + s == b + t && CheckMark(s) && CheckMark(t) && |a| > 0 && |b| > 0
    requires !IsMark(a[|a| - 1]) && !IsMark(b[|b| - 1])
    ensures a == b && s == t
  {
    MarkSeen(a, s);
    MarkSeen(b, t);
    assert |a| + |s| == |a + s| == |b + t| == |b| + |t|;
    assert a == (a + s)[..|a|] && b == (b + t)[..|b|];
    assert s == (a + s)[|a|..] && t == (b + t)[|b|..];
  }

  lemma DestinationDetached(a: string, d: Square, m: Move, b: string, e: Square, n: Move)
    requires a + SquareStr(d) + PromoStr(m) == b + SquareStr(e) + PromoStr(n)
    ensures a == b && d == e && PromoStr(m) == PromoStr(n)
  {
    var s, t := a + SquareStr(d) + PromoStr(m), b + SquareStr(e) + PromoStr(n);
    FileCharKinds(d.fil, d.rnk);
    FileCharKinds(e.fil, e.rnk);
    assert m.IsPromotion() ==> s[|s| - 2] == '=';
    assert n.IsPromotion() ==> t[|t| - 2] == '=';
    assert !m.IsPromotion() ==> s[|s| - 2] == FileChar(d.fil);
    assert !n.IsPromotion() ==> t[|t| - 2] == FileChar(e.fil);
    assert m.IsPromotion() == n.IsPromotion();
    assert |a| == |b|;
    assert a == s[..|a|] && b == t[..|b|];
    assert SquareStr(d) == s[|a|..|a| + 2] && SquareStr(e) == t[|b|..|b| + 2];
    SquareStrInjective(d, e);
    assert PromoStr(m) == s[|a| + 2..] && PromoStr(n) == t[|b| + 2..];
  }

  lemma CrossSeen(a: string, m: Move, x: bool)
    requires |a| > 0 ==> a[|a| - 1] != 'x'
    ensures var s := a + Cross(m, x); |s| > 0 && s[|s| - 1] == 'x' <==> Cross(m, x) == "x"
  {}

  lemma CrossDetached(a: string, m: Move, x: bool, b: string, n: Move, y: bool)
    requires a + Cross(m, x) == b + Cross(n, y)
    requires (|a| > 0 ==> a[|a| - 1] != 'x') && (|b| > 0 ==> b[|b| - 1] != 'x')
    ensures a == b && Cross(m, x) == Cross(n, y)
  {
    CrossSeen(a, m, x);
    CrossSeen(b, n, y);
    assert a == (a + Cross(m, x))[..|a|] && b == (b + Cross(n, y))[..|b|];
  }

  lemma LeadEnd(m: Move, byFile: bool, byRank: bool)
    requires m.HasSquares()
    ensures var l := Lead(m, byFile, byRank); |l| > 0 ==> l[|l| - 1] != 'x' && l[0] != 'O'
  {}

  lemma BodyEnd(m: Move, byFile: bool, byRank: bool, withX: bool)
    requires m.HasSquares()
    ensures var b := Body(m, byFile, byRank, withX); |b| > 0 && !IsMark(b[|b| - 1]) && (m.Castle? <==> b[0] == 'O')
  {}

  // ---- The notation decides the move ------------------------------------------------------

  // Equal bodies of moves that are not castlings have equal parts.
  lemma BodyParts(m: Move, f: bool, r: bool, x: bool, n: Move, g: bool, q: bool, y: bool)
    requires m.HasSquares() && n.HasSquares() && !m.Castle? && !n.Castle? && Body(m, f, r, x) == Body(n, g, q, y)
    ensures Lead(m, f, r) == Lead(n, g, q) && Cross(m, x) == Cross(n, y) && m.t == n.t && PromoStr(m) == PromoStr(n)
  {
    DestinationDetached(Lead(m, f, r) + Cross(m, x), m.t, m, Lead(n, g, q) + Cross(n, y), n.t, n);
    LeadEnd(m, f, r);
    LeadEnd(n, g, q);
    CrossDetached(Lead(m, f, r), m, x, Lead(n, g, q), n, y);
  }

  lemma SamePromo(m: Move, n: Move)
    requires PromoStr(m) == PromoStr(n)
    ensures m.IsPromotion() == n.IsPromotion() && (m.IsPromotion() ==> m.promo == n.promo)
  {}

  // A lead starts with an upper-case letter exactly when the piece is not a pawn.
  lemma LeadKind(m: Move, f: bool, r: bool)
    requires m.HasSquares()
    ensures m.PType() != Some(Pawn) ==> |Lead(m, f, r)| > 0 && Lead(m, f, r)[0] == PieceChar(m.PType().value)
    ensures m.PType() == Some(Pawn) && |Lead(m, f, r)| > 0 ==> IsFile(Lead(m, f, r)[0])
  {}

  lemma SamePiece(m: Move, f: bool, r: bool, n: Move, g: bool, q: bool)
    requires m.HasSquares() && n.HasSquares() && Lead(m, f, r) == Lead(n, g, q)
    ensures m.PType() == n.PType()
  {
    LeadKind(m, f, r);
    LeadKind(n, g, q);
  }

  // Pawns that reach the same square alike come from the same square.
  lemma PawnOrigin(p: Position, m: Move, n: Move)
    requires Invariant(p) && Pseudo(p, m, true) && Pseudo(p, n, true) && m.PType() == n.PType() == Some(Pawn)
    requires m.t == n.t && TakesX(m) == TakesX(n) && (TakesX(m) ==> m.f.fil == n.f.fil)
    ensures m.f == n.f
  {}

  // Rivals are told apart by what the official form adds.
  lemma RivalsApart(p: Position, m: Move, n: Move, g: bool, q: bool)
    requires m.HasSquares() && n.HasSquares() && m.PType() == n.PType() && m.PType() != Some(Pawn) && Rival(p, m, n)
    ensures Lead(m, NeedsFile(p, m), NeedsRank(p, m)) != Lead(n, g, q)
  {
    var a, b := Lead(m, NeedsFile(p, m), NeedsRank(p, m)), Lead(n, g, q);
    FileCharKinds(m.f.fil, m.f.rnk);
    FileCharKinds(n.f.fil, n.f.rnk);
    FileCharKinds(m.f.fil, n.f.rnk);
    FileCharKinds(n.f.fil, m.f.rnk);
    assert |b| == 1 || b[1] == FileChar(n.f.fil) || b[1] == RankChar(n.f.rnk);
    if n.f.fil != m.f.fil {
      assert NeedsFile(p, m);
      assert a[1] == FileChar(m.f.fil);
      DifferentFiles(m.f.fil, n.f.fil);
    } else {
      assert NeedsRank(p, m);
      DifferentRanks(m.f.rnk, n.f.rnk);
      assert if NeedsFile(p, m) then a[1] == FileChar(m.f.fil) && |a| == 3 && a[2] == RankChar(m.f.rnk) else a[1] == RankChar(m.f.rnk);
    }
  }

  lemma DifferentFiles(a: int, b: int)
    requires 0 <= a < 8 && 0 <= b < 8 && a != b
    ensures FileChar(a) != FileChar(b)
  {}

  lemma DifferentRanks(a: int, b: int)
    requires 0 <= a < 8 && 0 <= b < 8 && a != b
    ensures RankChar(a) != RankChar(b)
  {}

  lemma PawnLeads(m: Move, f: bool, r: bool, n: Move, g: bool, q: bool)
    requires m.HasSquares() && n.HasSquares() && m.PType() == n.PType() == Some(Pawn) && Lead(m, f, r) == Lead(n, g, q)
    ensures TakesX(m) == TakesX(n) && (TakesX(m) ==> m.f.fil == n.f.fil)
  {}

  lemma SameCastle(p: Position, m: Move, n: Move)
    requires Invariant(p) && Pseudo(p, m, true) && Pseudo(p, n, true) && m.Castle? && n.Castle?
    requires Body(m, false, false, true) == Body(n, false, false, true)
    ensures m == n
  {}

  lemma SamePlainBody(p: Position, m: Move, n: Move, g: bool, q: bool, y: bool)
    requires Invariant(p) && Legal(p, m, true) && Legal(p, n, true) && !m.Castle? && !n.Castle?
    requires Body(m, NeedsFile(p, m), NeedsRank(p, m), true) == Body(n, g, q, y)
    ensures m == n
  {
    BodyParts(m, NeedsFile(p, m), NeedsRank(p, m), true, n, g, q, y);
    SamePiece(m, NeedsFile(p, m), NeedsRank(p, m), n, g, q);
    SamePromo(m, n);
    if m.PType() == Some(Pawn) {
      PawnLeads(m, NeedsFile(p, m), NeedsRank(p, m), n, g, q);
      PawnOrigin(p, m, n);
    } else if Rival(p, m, n) {
      RivalsApart(p, m, n, g, q);
    }
    SquaresDecide(p, m, n);
  }

  lemma MarkOfBody(m: Move, f: bool, r: bool, x: bool, s: string, n: Move, g: bool, q: bool, y: bool, t: string)
    requires m.HasSquares() && n.HasSquares() && CheckMark(s) && CheckMark(t) && Body(m, f, r, x) + s == Body(n, g, q, y) + t
    ensures Body(m, f, r, x) == Body(n, g, q, y) && m.Castle? == n.Castle?
  {
    BodyEnd(m, f, r, x);
    BodyEnd(n, g, q, y);
    MarkDetached(Body(m, f, r, x), s, Body(n, g, q, y), t);
  }

  lemma TextBodies(m: Move, f: bool, r: bool, s: string, n: Move, g: bool, q: bool, t: string, k: int)
    requires m.HasSquares() && n.HasSquares() && CheckMark(s) && CheckMark(t)
    requires MoveText(m, f, r, s, 0) == MoveText(n, g, q, t, k)
    ensures Body(m, f, r, true) == Body(n, g || k == 3 || k == 5, q || k == 4 || k == 5, k != 2) && m.Castle? == n.Castle?
  {
    MarkOfBody(m, f, r, true, s, n, g || k == 3 || k == 5, q || k == 4 || k == 5, k != 2, if k != 1 then t else "");
  }

  lemma SanBodies(p: Position, m: Move, n: Move, k: int)
    requires |p.moveCount| == SQUARES && m.HasSquares() && n.HasSquares() && San(p, m, 0) == San(p, n, k)
    ensures Body(m, NeedsFile(p, m), NeedsRank(p, m), true)
         == Body(n, NeedsFile(p, n) || k == 3 || k == 5, NeedsRank(p, n) || k == 4 || k == 5, k != 2)
    ensures m.Castle? == n.Castle?
  {
    TextBodies(m, NeedsFile(p, m), NeedsRank(p, m), Suffix(p, m), n, NeedsFile(p, n), NeedsRank(p, n), Suffix(p, n), k);
  }

  // The official notation of a legal move is no form, official or relaxed, of any other legal move.
  lemma SanDecides(p: Position, m: Move, n: Move, k: int)
    requires Invariant(p) && Legal(p, m, true) && Legal(p, n, true) && San(p, m, 0) == San(p, n, k)
    ensures m == n
  {
    SanBodies(p, m, n, k);
    if m.Castle? {
      SameCastle(p, m, n);
    } else {
      SamePlainBody(p, m, n, NeedsFile(p, n) || k == 3 || k == 5, NeedsRank(p, n) || k == 4 || k == 5, k != 2);
    }
  }

  lemma StrShape(m: Move)
    requires m.HasSquares()
    ensures LikeStr(Str(m))
  {}

  predicate LikeStr(s: string) {
    |s| >= 4 && IsFile(s[0]) && IsRank(s[1]) && IsFile(s[2])
  }

  lemma BodyShape(m: Move, f: bool, r: bool, x: bool, t: string)
    requires m.HasSquares() && CheckMark(t)
    ensures !LikeStr(Body(m, f, r, x) + t)
  {}

  lemma TextIsNotStr(m: Move, f: bool, r: bool, s: string, k: int, n: Move)
    requires m.HasSquares() && n.HasSquares() && CheckMark(s)
    ensures MoveText(m, f, r, s, k) != Str(n)
  {
    StrShape(n);
    BodyShape(m, f || k == 3 || k == 5, r || k == 4 || k == 5, k != 2, if k != 1 then s else "");
  }

  // No algebraic form is a coordinate form.
  lemma SanIsNotStr(p: Position, m: Move, k: int, n: Move)
    requires |p.moveCount| == SQUARES && m.HasSquares() && n.HasSquares()
    ensures San(p, m, k) != Str(n)
  {
    TextIsNotStr(m, NeedsFile(p, m), NeedsRank(p, m), Suffix(p, m), k, n);
  }

  lemma LeadFits(m: Move, f: bool, r: bool)
    requires m.HasSquares()
    ensures |Lead(m, f, r)| <= if m.PType() == Some(Pawn) then 1 else 3
  {}

  lemma BodyFits(m: Move, f: bool, r: bool, x: bool)
    requires m.HasSquares()
    ensures |Body(m, f, r, x)| <= 6
  {
    if !m.Castle? {
      LeadFits(m, f, r);
      assert |Body(m, f, r, x)| == |Lead(m, f, r)| + |Cross(m, x)| + 2 + |PromoStr(m)|;
    }
  }

  lemma TextFits(m: Move, f: bool, r: bool, s: string, k: int)
    requires m.HasSquares() && CheckMark(s)
    ensures |MoveText(m, f, r, s, k)| < 8
  {
    BodyFits(m, f || k == 3 || k == 5, r || k == 4 || k == 5, k != 2);
  }

  // The eight-character buffer holds every form with its terminator.
  lemma SanFits(p: Position, m: Move, k: int)
    requires |p.moveCount| == SQUARES && m.HasSquares()
    ensures |San(p, m, k)| < 8
  {
    TextFits(m, NeedsFile(p, m), NeedsRank(p, m), Suffix(p, m), k);
  }

  // ---- Writing a move ---------------------------------------------------------------------

  // What the program finds out by making a move on a copy of the board.
  datatype Outcome = Outcome(check: bool, mate: bool)

  ghost predicate OutcomeIs(p: Position, m: Move, o: Outcome)
    requires |p.moveCount| == SQUARES
  {
    && o.check == KingAttacked(Make(p, m).men, Make(p, m).side)
    && o.mate == IsMate(Make(p, m))
  }

  ghost predicate ListsLegal(p: Position, legal: seq<Move>) {
    forall n :: n in legal <==> Legal(p, n, true)
  }

  ghost predicate OnlyLegal(p: Position, legal: seq<Move>) {
    forall n :: n in legal ==> Legal(p, n, true)
  }

  // A rival among the listed moves, on the file of the move's origin or on another.
  ghost predicate Among(p: Position, m: Move, list: seq<Move>, sameFile: bool)
    requires m.HasSquares()
  {
    exists n :: n in list && Rival(p, m, n) && (n.f.fil == m.f.fil) == sameFile
  }

  lemma AmongMore(p: Position, m: Move, list: seq<Move>, n: Move, sameFile: bool)
    requires m.HasSquares()
    ensures Among(p, m, list + [n], sameFile) <==>
      Among(p, m, list, sameFile) || (Rival(p, m, n) && (n.f.fil == m.f.fil) == sameFile)
  {}

  lemma AmongAll(p: Position, m: Move, legal: seq<Move>)
    requires m.HasSquares() && ListsLegal(p, legal)
    ensures Among(p, m, legal, false) == NeedsFile(p, m) && Among(p, m, legal, true) == NeedsRank(p, m)
  {}

  // The file or rank of origin is needed when another legal move of such a piece goes there.
  method Disambiguate(ghost p: Position, m: Move, legal: seq<Move>) returns (byFile: bool, byRank: bool)
    requires m.HasSquares() && OnlyLegal(p, legal)
    ensures ListsLegal(p, legal) ==> byFile == NeedsFile(p, m) && byRank == NeedsRank(p, m)
  {
    byFile, byRank := false, false;
    var i := 0;
    while i < |legal|
      invariant 0 <= i <= |legal|
      invariant byFile == Among(p, m, legal[..i], false) && byRank == Among(p, m, legal[..i], true)
    {
      var mov := legal[i];
      AmongMore(p, m, legal[..i], mov, false);
      AmongMore(p, m, legal[..i], mov, true);
      assert legal[..i + 1] == legal[..i] + [mov] && Legal(p, mov, true);
      if mov.PType() == m.PType() && mov.t == m.t && mov.f != m.f {
        if mov.f.fil != m.f.fil {
          byFile := true;
        } else if mov.f.rnk != m.f.rnk {
          byRank := true;
        }
      }
      i := i + 1;
    }
    assert legal[..i] == legal;
    if ListsLegal(p, legal) { AmongAll(p, m, legal); }
  }

  // Move::san.
  method WriteSan(ghost p: Position, m: Move, legal: seq<Move>, o: Outcome, nonstd: int) returns (s: string)
    requires |p.moveCount| == SQUARES && m.HasSquares() && OnlyLegal(p, legal)
    ensures ListsLegal(p, legal) && OutcomeIs(p, m, o) ==> s == San(p, m, nonstd)
  {
    var byFile, byRank := Disambiguate(p, m, legal);
    s := WriteBody(m, byFile || nonstd == 3 || nonstd == 5, byRank || nonstd == 4 || nonstd == 5, nonstd != 2);
    if nonstd != 1 && o.check {
      s := s + if o.mate then "#" else "+";
    }
  }

  method WriteLead(m: Move, byFile: bool, byRank: bool) returns (s: string)
    requires m.HasSquares() && !m.Castle?
    ensures s == Lead(m, byFile, byRank)
  {
    s := "";
    if m.PType() == Some(Pawn) {
      if m.IsCapture() || m.EnPassant? { s := s + [FileChar(m.f.fil)]; }
    } else {
      s := s + [PieceChar(m.PType().value)];
      if byFile { s := s + [FileChar(m.f.fil)]; }
      if byRank { s := s + [RankChar(m.f.rnk)]; }
    }
  }

  method WriteBody(m: Move, byFile: bool, byRank: bool, withX: bool) returns (s: string)
    requires m.HasSquares()
    ensures s == Body(m, byFile, byRank, withX)
  {
    if m.Castle? {
      s := if m.t.fil == 2 then "O-O-O" else "O-O";
    } else {
      s := WriteLead(m, byFile, byRank);
      if (m.IsCapture() || m.EnPassant?) && withX { s := s + "x"; }
      assert s == Lead(m, byFile, byRank) + Cross(m, withX);
      s := s + [FileChar(m.t.fil), RankChar(m.t.rnk)];
      if m.IsPromotion() { s := s + ['=', PieceChar(m.promo)]; }
    }
  }

  // ---- Reading a move ---------------------------------------------------------------------

  ghost predicate SanForm(p: Position, m: Move, s: string)
    requires |p.moveCount| == SQUARES && m.HasSquares()
  {
    exists k :: 0 <= k <= 5 && s == San(p, m, k)
  }

  // The string is the coordinate form or some algebraic form of the move.
  ghost predicate Names(p: Position, m: Move, s: string)
    requires |p.moveCount| == SQUARES
  {
    m.HasSquares() && (s == Str(m) || SanForm(p, m, s))
  }

  lemma SanNoOther(p: Position, m: Move, n: Move)
    requires Invariant(p) && Legal(p, m, true) && Legal(p, n, true) && n != m
    ensures !SanForm(p, n, San(p, m, 0))
  {
    forall k ensures San(p, m, 0) != San(p, n, k) {
      if San(p, m, 0) == San(p, n, k) { SanDecides(p, m, n, k); }
    }
  }

  lemma SanOwn(p: Position, m: Move)
    requires |p.moveCount| == SQUARES && m.HasSquares()
    ensures SanForm(p, m, San(p, m, 0))
  {}

  lemma SanNamesOne(p: Position, m: Move, n: Move)
    requires Invariant(p) && Legal(p, m, true) && Legal(p, n, true)
    ensures Names(p, n, San(p, m, 0)) <==> n == m
  {
    if n != m {
      SanIsNotStr(p, m, 0, n);
      SanNoOther(p, m, n);
    } else {
      SanOwn(p, m);
    }
  }

  lemma StrNamesOne(p: Position, m: Move, n: Move)
    requires Invariant(p) && Legal(p, m, true) && Legal(p, n, true)
    ensures Names(p, n, Str(m)) <==> n == m
  {
    if n != m && Str(m) == Str(n) { StrInjective(p, m, n); }
    StrNoSan(p, m, n);
  }

  lemma StrNoSan(p: Position, m: Move, n: Move)
    requires |p.moveCount| == SQUARES && m.HasSquares() && n.HasSquares()
    ensures !SanForm(p, n, Str(m))
  {
    forall k ensures Str(m) != San(p, n, k) {
      SanIsNotStr(p, n, k, m);
    }
  }

  // Is the string the official form, or else one of the relaxed ones?
  method AnyForm(ghost p: Position, m: Move, legal: seq<Move>, o: Outcome, s: string) returns (yes: bool)
    requires |p.moveCount| == SQUARES && m.HasSquares() && OnlyLegal(p, legal)
    ensures ListsLegal(p, legal) && OutcomeIs(p, m, o) ==> (yes <==> SanForm(p, m, s))
  {
    var k := 0;
    while k <= 5
      invariant 0 <= k <= 6
      invariant ListsLegal(p, legal) && OutcomeIs(p, m, o) ==> forall j :: 0 <= j < k ==> s != San(p, m, j)
    {
      var san := WriteSan(p, m, legal, o, k);
      if s == san {
        return true;
      }
      k := k + 1;
    }
    return false;
  }

  method MoveNamed(ghost p: Position, m: Move, legal: seq<Move>, o: Outcome, s: string) returns (yes: bool)
    requires |p.moveCount| == SQUARES && m.HasSquares() && OnlyLegal(p, legal)
    ensures ListsLegal(p, legal) && OutcomeIs(p, m, o) ==> (yes <==> Names(p, m, s))
  {
    yes := s == Str(m);
    if !yes {
      yes := AnyForm(p, m, legal, o, s);
    }
  }

  ghost predicate NamedMove(p: Position, s: string, m: Move)
    requires |p.moveCount| == SQUARES
  {
    Legal(p, m, true) && (s == Str(m) || s == San(p, m, 0))
  }

  ghost predicate Outcomes(p: Position, outcome: Move -> Outcome)
    requires |p.moveCount| == SQUARES
  {
    forall n :: Legal(p, n, true) ==> OutcomeIs(p, n, outcome(n))
  }

  lemma ListedMove(p: Position, legal: seq<Move>, outcome: Move -> Outcome, m: Move)
    requires |p.moveCount| == SQUARES && OnlyLegal(p, legal) && m in legal
    ensures m.HasSquares() && (Outcomes(p, outcome) ==> OutcomeIs(p, m, outcome(m)))
  {}

  // All legal moves are listed, and what each of them leads to is told.
  ghost predicate WellInformed(p: Position, legal: seq<Move>, outcome: Move -> Outcome)
    requires |p.moveCount| == SQUARES
  {
    ListsLegal(p, legal) && Outcomes(p, outcome)
  }

  // The loop of parse_move.
  method FirstNamed(ghost p: Position, legal: seq<Move>, outcome: Move -> Outcome, s: string) returns (mov: Option<Move>)
    requires |p.moveCount| == SQUARES && OnlyLegal(p, legal)
    ensures mov.Some? ==> mov.value in legal && (WellInformed(p, legal, outcome) ==> Names(p, mov.value, s))
    ensures mov.None? && WellInformed(p, legal, outcome) ==> forall j :: 0 <= j < |legal| ==> !Names(p, legal[j], s)
  {
    var i := 0;
    while i < |legal|
      invariant 0 <= i <= |legal|
      invariant WellInformed(p, legal, outcome) ==> forall j :: 0 <= j < i ==> !Names(p, legal[j], s)
    {
      ListedMove(p, legal, outcome, legal[i]);
      var yes := MoveNamed(p, legal[i], legal, outcome(legal[i]), s);
      if yes {
        return Some(legal[i]);
      }
      i := i + 1;
    }
    return None;
  }

  // parse_move: the first listed move that the string names; if all legal moves are listed, each of them is
  // read back from its coordinate form and from its official algebraic form.
  method ParseMove(ghost p: Position, legal: seq<Move>, outcome: Move -> Outcome, s: string) returns (mov: Move)
    requires Invariant(p) && OnlyLegal(p, legal)
    ensures mov.NoMove? || Legal(p, mov, true)
    ensures WellInformed(p, legal, outcome) ==>
              && (if mov.NoMove? then forall n :: Legal(p, n, true) ==> !Names(p, n, s) else Names(p, mov, s))
              && (forall m :: NamedMove(p, s, m) ==> mov == m)
  {
    var found := FirstNamed(p, legal, outcome, s);
    if found.Some? {
      mov := found.value;
      if WellInformed(p, legal, outcome) { NamesOnly(p, s, mov); }
    } else {
      mov := NoMove;
      if WellInformed(p, legal, outcome) { NamesNone(p, legal, s); }
    }
  }

  lemma NamesOnly(p: Position, s: string, n: Move)
    requires Invariant(p) && Legal(p, n, true) && Names(p, n, s)
    ensures forall m :: NamedMove(p, s, m) ==> n == m
  {
    forall m | NamedMove(p, s, m) ensures n == m {
      NamesNamed(p, s, m, n);
    }
  }

  lemma NamesNone(p: Position, legal: seq<Move>, s: string)
    requires Invariant(p) && ListsLegal(p, legal) && forall j :: 0 <= j < |legal| ==> !Names(p, legal[j], s)
    ensures forall n :: Legal(p, n, true) ==> !Names(p, n, s)
    ensures forall m :: !NamedMove(p, s, m)
  {}

  lemma NamesNamed(p: Position, s: string, m: Move, n: Move)
    requires Invariant(p) && NamedMove(p, s, m) && Legal(p, n, true)
    ensures Names(p, n, s) <==> n == m
  {
    if s == Str(m) { StrNamesOne(p, m, n); } else { SanNamesOne(p, m, n); }
  }
}
