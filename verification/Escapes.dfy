// The special generator for positions in check finds every legal move.
module Escapes {
  import opened Basic
  import opened Geometry
  import opened Moves
  import opened Rules
  import opened Legality

  // ---- What the generator produces --------------------------------------------------------

  ghost predicate Checker(p: Position, c: Square)
    requires HasSoleKing(p.men, p.side)
  {
    AttackedFrom(p.men, c, TheKing(p.men, p.side), p.side.Other())
  }

  predicate LastRank(c: Color, s: Square) {
    s.rnk == (if c == White then 7 else 0)
  }

  // The moves add_move makes out of a from and a to square, without under-promotions to rook and bishop.
  predicate AddsMove(p: Position, f: Square, t: Square, m: Move)
    requires f in p.men
  {
    var pc := p.men[f].piece;
    if pc == Pawn && p.epsq == Some(t) then m == EnPassant(f, t)
    else if t in p.men && p.men[t].color == p.side.Other() then
      if pc == Pawn && LastRank(p.side, t)
      then m == PromoCapture(f, t, Queen, p.men[t].piece) || m == PromoCapture(f, t, Knight, p.men[t].piece)
      else m == Capture(f, t, pc, p.men[t].piece)
    else
      if pc == Pawn && LastRank(p.side, t)
      then m == Promotion(f, t, Queen) || m == Promotion(f, t, Knight)
      else m == Normal(f, t, pc)
  }

  ghost predicate KingEscape(p: Position, k: Square, m: Move) {
    match m
    case Normal(f, t, pc) => f == k && pc == King && KingStep(k, t) && t !in p.men && !Attacked(p.men, t, p.side.Other())
    case Capture(f, t, pc, cap) => f == k && pc == King && KingStep(k, t) && Foe(p, t, cap) && !Attacked(p.men, t, p.side.Other())
    case _ => false
  }

  ghost predicate CapturesChecker(p: Position, c: Square, m: Move) {
    m.HasSquares() && AttackedFrom(p.men, m.f, c, p.side) && !KingOn(p.men, p.side, m.f) && AddsMove(p, m.f, c, m)
  }

  predicate CapturesCheckerEp(p: Position, c: Square, m: Move) {
    && m.EnPassant? && EpVictim(p.epsq) == Some(c) && m.t == p.epsq.value
    && PawnStep(p.side.Other(), m.t, m.f) && Owns(p, m.f, Pawn)
  }

  // The pawn that can advance to a square, as generate_escapes looks for it.
  function PushSource(p: Position, t: Square): Option<Square> {
    var back := t.rnk - Forward(p.side);
    if OnBoard(t.fil, back) && Owns(p, Sq(t.fil, back), Pawn) then Some(Sq(t.fil, back))
    else if t.rnk == (if p.side == White then 3 else 4) && Sq(t.fil, back) !in p.men
            && Owns(p, Sq(t.fil, back - Forward(p.side)), Pawn)
    then Some(Sq(t.fil, back - Forward(p.side)))
    else None
  }

  ghost predicate BlockSource(p: Position, f: Square, t: Square) {
    || (AttackedFrom(p.men, f, t, p.side) && p.men[f].piece != Pawn && p.men[f].piece != King)
    || PushSource(p, t) == Some(f)
  }

  ghost predicate BlocksChecker(p: Position, k: Square, c: Square, m: Move) {
    && m.HasSquares() && Btw(c, m.t, k)
    && BlockSource(p, m.f, m.t) && m.f in p.men && Clear(p.men.Keys, m.f, m.t) && AddsMove(p, m.f, m.t, m)
  }

  ghost predicate EscapeMove(p: Position, m: Move)
    requires HasSoleKing(p.men, p.side)
  {
    var k := TheKing(p.men, p.side);
    || KingEscape(p, k, m)
    || exists c: Square ::
         && Checker(p, c) && (forall d: Square :: Checker(p, d) ==> d == c)
         && (|| CapturesChecker(p, c, m)
             || CapturesCheckerEp(p, c, m)
             || (p.men[c].piece != Pawn && p.men[c].piece != Knight && BlocksChecker(p, k, c, m)))
  }

  // ---- Every checker has to be answered ---------------------------------------------------

  predicate Slider(pc: Piece) {
    pc == Bishop || pc == Rook || pc == Queen
  }

  predicate Answers(p: Position, m: Move, k: Square, c: Square) {
    && m.HasSquares()
    && (|| m.t == c
        || (m.EnPassant? && EpVictim(p.epsq) == Some(c))
        || (c in p.men && Slider(p.men[c].piece) && Btw(c, m.t, k)))
  }

  // A move other than a king move that answers a checker in none of these ways leaves the check.
  lemma CheckStays(p: Position, m: Move, c: Square)
    requires Invariant(p) && Pseudo(p, m, false) && m.PType() != Some(King) && Checker(p, c)
    requires !Answers(p, m, TheKing(p.men, p.side), c)
    ensures KingAttacked(MenAfter(p, m), p.side)
  {
    var k := TheKing(p.men, p.side);
    var men := MenAfter(p, m);
    KeepsOwnKing(p, m, false);
    Stays(p, m, c);
    assert forall x: Square :: x in men ==> x in p.men || x == m.t;
    assert AttackedFrom(men, c, k, p.side.Other());
    assert KingOn(men, p.side, k);
  }

  lemma LegalAnswersChecker(p: Position, m: Move, c: Square)
    requires Invariant(p) && Legal(p, m, false) && m.PType() != Some(King) && Checker(p, c)
    ensures Answers(p, m, TheKing(p.men, p.side), c)
  {
    if !Answers(p, m, TheKing(p.men, p.side), c) {
      CheckStays(p, m, c);
    }
  }

  lemma Stays(p: Position, m: Move, c: Square)
    requires Invariant(p) && Pseudo(p, m, false) && m.PType() != Some(King)
    requires c in p.men && p.men[c].color == p.side.Other()
    requires m.t != c && !(m.EnPassant? && EpVictim(p.epsq) == Some(c))
    ensures c in MenAfter(p, m) && MenAfter(p, m)[c] == p.men[c]
  {}

  lemma SameRay(x: Square, a: Square, b: Square, k: Square)
    requires Btw(a, x, k) && Btw(b, x, k)
    ensures a == b || Btw(a, b, k) || Btw(b, a, k)
  {}

  // A check that an en-passant capture could block was there before the double push.
  lemma BlockedByEpBefore(p: Position, c: Square, k: Square, e: Square)
    requires 0 < e.rnk < 7 && e !in p.men
    requires Foe(p, Sq(e.fil, e.rnk - Forward(p.side)), Pawn)
    requires AttackedFrom(p.men, c, k, p.side.Other()) && Slider(p.men[c].piece) && KingOn(p.men, p.side, k)
    requires Btw(c, e, k)
    ensures AttackedFrom(Retracted(p.men, e, p.side), c, k, p.side.Other())
    ensures KingOn(Retracted(p.men, e, p.side), p.side, k)
  {}

  lemma NoEpBlock(p: Position, m: Move, c: Square)
    requires Invariant(p) && Pseudo(p, m, false) && m.EnPassant? && Checker(p, c) && Slider(p.men[c].piece)
    ensures !Btw(c, m.t, TheKing(p.men, p.side))
  {
    if Btw(c, m.t, TheKing(p.men, p.side)) {
      BlockedByEpBefore(p, c, TheKing(p.men, p.side), m.t);
    }
  }

  lemma EpAnswersVictim(p: Position, m: Move, c: Square)
    requires Invariant(p) && Legal(p, m, false) && m.EnPassant? && Checker(p, c)
    ensures EpVictim(p.epsq) == Some(c)
  {
    LegalAnswersChecker(p, m, c);
    assert m.t !in p.men;
    if Slider(p.men[c].piece) { NoEpBlock(p, m, c); }
  }

  // Two checkers cannot both be answered on one square.
  lemma OneAnswered(occ: Bitboard, t: Square, k: Square, c: Square, d: Square)
    requires c in occ && d in occ
    requires t == c || (Btw(c, t, k) && Clear(occ, c, k))
    requires t == d || (Btw(d, t, k) && Clear(occ, d, k))
    ensures c == d
  {
    if t != c && t != d { SameRay(t, c, d, k); }
  }

  lemma PlainAnswer(p: Position, m: Move, c: Square)
    requires Invariant(p) && Legal(p, m, false) && m.PType() != Some(King) && !m.EnPassant? && Checker(p, c)
    ensures m.HasSquares() && c in p.men
    ensures m.t == c || (Btw(c, m.t, TheKing(p.men, p.side)) && Clear(p.men.Keys, c, TheKing(p.men, p.side)))
  {
    LegalAnswersChecker(p, m, c);
  }

  lemma AnswersOneChecker(p: Position, m: Move, c: Square, d: Square)
    requires Invariant(p) && Legal(p, m, false) && m.PType() != Some(King)
    requires Checker(p, c) && Checker(p, d)
    ensures c == d
  {
    if m.EnPassant? {
      EpAnswersVictim(p, m, c);
      EpAnswersVictim(p, m, d);
    } else {
      PlainAnswer(p, m, c);
      PlainAnswer(p, m, d);
      OneAnswered(p.men.Keys, m.t, TheKing(p.men, p.side), c, d);
    }
  }

  // ---- The king moves ---------------------------------------------------------------------

  // A square attacked while the king still stands on its old square is attacked when it arrives.
  lemma StillAttacked(p: Position, m: Move, a: Square)
    requires Invariant(p) && Pseudo(p, m, false) && (m.Normal? || m.Capture?) && m.p == King
    requires AttackedFrom(p.men, a, m.t, p.side.Other())
    ensures AttackedFrom(MenAfter(p, m), a, m.t, p.side.Other())
    ensures KingOn(MenAfter(p, m), p.side, m.t)
  {}

  lemma LegalKingMove(p: Position, m: Move)
    requires Invariant(p) && KingAttacked(p.men, p.side) && Legal(p, m, false) && m.PType() == Some(King)
    ensures KingEscape(p, TheKing(p.men, p.side), m)
  {
    assert !m.Castle?;
    assert KingOn(p.men, p.side, m.f);
    forall a: Square ensures !AttackedFrom(p.men, a, m.t, p.side.Other()) {
      if AttackedFrom(p.men, a, m.t, p.side.Other()) { StillAttacked(p, m, a); }
    }
  }

  lemma KingEscapeIsPseudo(p: Position, m: Move)
    requires Invariant(p) && KingEscape(p, TheKing(p.men, p.side), m)
    ensures Pseudo(p, m, false)
  {}

  // ---- The other moves --------------------------------------------------------------------

  lemma LegalCapturesChecker(p: Position, m: Move, c: Square)
    requires Invariant(p) && Pseudo(p, m, false) && m.PType() != Some(King) && Checker(p, c)
    requires m.HasSquares() && m.t == c
    ensures CapturesChecker(p, c, m)
  {}

  lemma LegalCapturesEp(p: Position, m: Move, c: Square)
    requires Invariant(p) && Pseudo(p, m, false) && m.EnPassant? && EpVictim(p.epsq) == Some(c)
    ensures CapturesCheckerEp(p, c, m)
  {}

  lemma PushSourceFound(p: Position, f: Square, t: Square)
    requires Owns(p, f, Pawn) && PawnAdvance(p.men, p.side, f, t)
    ensures PushSource(p, t) == Some(f) && Clear(p.men.Keys, f, t)
  {}

  lemma LegalBlocks(p: Position, m: Move, c: Square)
    requires Invariant(p) && Pseudo(p, m, false) && m.PType() != Some(King) && Checker(p, c)
    requires m.HasSquares() && !m.EnPassant? && m.t !in p.men && Btw(c, m.t, TheKing(p.men, p.side))
    ensures BlocksChecker(p, TheKing(p.men, p.side), c, m)
  {
    if m.PType() == Some(Pawn) {
      PushSourceFound(p, m.f, m.t);
    } else {
      assert AttackedFrom(p.men, m.f, m.t, p.side);
    }
  }

  lemma CapturesCheckerIsPseudo(p: Position, m: Move, c: Square)
    requires Invariant(p) && Checker(p, c) && CapturesChecker(p, c, m)
    ensures Pseudo(p, m, false)
  {}

  lemma CapturesEpIsPseudo(p: Position, m: Move, c: Square)
    requires Invariant(p) && CapturesCheckerEp(p, c, m)
    ensures Pseudo(p, m, false)
  {}

  lemma BlocksIsPseudo(p: Position, m: Move, c: Square)
    requires Invariant(p) && Checker(p, c) && Slider(p.men[c].piece)
    requires BlocksChecker(p, TheKing(p.men, p.side), c, m)
    ensures Pseudo(p, m, false)
  {}

  // ---- The escapes are the legal moves ----------------------------------------------------

  lemma EscapeIsPseudo(p: Position, m: Move)
    requires Invariant(p) && EscapeMove(p, m)
    ensures Pseudo(p, m, false)
  {
    var k := TheKing(p.men, p.side);
    if KingEscape(p, k, m) {
      KingEscapeIsPseudo(p, m);
    } else {
      var c: Square :| Checker(p, c)
         && (|| CapturesChecker(p, c, m)
             || CapturesCheckerEp(p, c, m)
             || (p.men[c].piece != Pawn && p.men[c].piece != Knight && BlocksChecker(p, k, c, m)));
      if CapturesChecker(p, c, m) {
        CapturesCheckerIsPseudo(p, m, c);
      } else if CapturesCheckerEp(p, c, m) {
        CapturesEpIsPseudo(p, m, c);
      } else {
        KingNeverChecks(p, c);
        BlocksIsPseudo(p, m, c);
      }
    }
  }

  lemma KingNeverChecks(p: Position, c: Square)
    requires Invariant(p) && Checker(p, c)
    ensures p.men[c].piece != King
  {
    if p.men[c].piece == King {
      assert AttackedFrom(p.men, TheKing(p.men, p.side), c, p.side);
      assert KingOn(p.men, p.side.Other(), c);
    }
  }

  lemma LegalOtherMove(p: Position, m: Move, c: Square)
    requires Invariant(p) && Legal(p, m, false) && m.PType() != Some(King) && Checker(p, c)
    ensures EscapeMove(p, m)
  {
    LegalAnswersChecker(p, m, c);
    forall d: Square | Checker(p, d) ensures d == c { AnswersOneChecker(p, m, c, d); }
    if m.t == c {
      LegalCapturesChecker(p, m, c);
    } else if m.EnPassant? && EpVictim(p.epsq) == Some(c) {
      LegalCapturesEp(p, m, c);
    } else {
      if m.EnPassant? { NoEpBlock(p, m, c); }
      assert m.t !in p.men;
      LegalBlocks(p, m, c);
    }
  }

  lemma SomeChecker(p: Position)
    requires HasSoleKing(p.men, p.side) && KingAttacked(p.men, p.side)
    ensures exists c: Square :: Checker(p, c)
  {
    var s: Square :| KingOn(p.men, p.side, s) && Attacked(p.men, s, p.side.Other());
    assert s == TheKing(p.men, p.side);
    var a: Square :| AttackedFrom(p.men, a, s, p.side.Other());
    assert Checker(p, a);
  }

  lemma LegalIsEscape(p: Position, m: Move)
    requires Invariant(p) && KingAttacked(p.men, p.side) && Legal(p, m, false)
    ensures EscapeMove(p, m)
  {
    if m.PType() == Some(King) {
      LegalKingMove(p, m);
    } else {
      SomeChecker(p);
      var c: Square :| Checker(p, c);
      LegalOtherMove(p, m, c);
    }
  }

  // The legal moves among the escapes are exactly the legal moves among all generated moves, for
  // every position in check that satisfies the invariant.
  lemma EscapesAreLegalMoves(p: Position, m: Move)
    requires Invariant(p) && KingAttacked(p.men, p.side)
    ensures EscapeMove(p, m) && LegalAfter(p, m) <==> Legal(p, m, false)
  {
    if EscapeMove(p, m) { EscapeIsPseudo(p, m); }
    if Legal(p, m, false) { LegalIsEscape(p, m); }
  }

  // ---- En-passant squares without a history -----------------------------------------------

  ghost predicate SoleChecker(p: Position, c: Square)
    requires HasSoleKing(p.men, p.side)
  {
    Checker(p, c) && forall d: Square :: Checker(p, d) ==> d == c
  }

  // The pawn that can be captured en passant is the only checker.
  ghost predicate TakesChecker(p: Position)
    requires HasSoleKing(p.men, p.side)
  {
    EpVictim(p.epsq).Some? && SoleChecker(p, EpVictim(p.epsq).value)
  }

  // No pawn advances to the en-passant square, and no man stands there.
  lemma EpSquareApart(p: Position)
    requires Sound(p) && p.epsq.Some?
    ensures p.epsq.value !in p.men && PushSource(p, p.epsq.value) == None
  {}

  lemma CapturesWithoutEp(p: Position, c: Square, m: Move)
    requires Sound(p) && c in p.men
    ensures CapturesChecker(p, c, m) <==> CapturesChecker(p.(epsq := None), c, m)
    ensures CapturesChecker(p, c, m) ==> !m.EnPassant?
  {}

  // A piece other than a pawn, or a move elsewhere, takes no notice of the en-passant square.
  lemma AddsWithoutEp(p: Position, f: Square, t: Square, m: Move)
    requires f in p.men && (p.men[f].piece != Pawn || p.epsq != Some(t))
    ensures AddsMove(p, f, t, m) <==> AddsMove(p.(epsq := None), f, t, m)
    ensures AddsMove(p, f, t, m) ==> !m.EnPassant?
  {}

  lemma BlockSourceApart(p: Position, f: Square, t: Square)
    requires Sound(p) && f in p.men && BlockSource(p, f, t)
    ensures p.men[f].piece != Pawn || p.epsq != Some(t)
  {
    if p.epsq == Some(t) { EpSquareApart(p); }
  }

  lemma SameSources(p: Position, f: Square, t: Square)
    ensures BlockSource(p, f, t) <==> BlockSource(p.(epsq := None), f, t)
  {}

  lemma BlocksWithoutEp(p: Position, k: Square, c: Square, m: Move)
    requires Sound(p)
    ensures BlocksChecker(p, k, c, m) <==> BlocksChecker(p.(epsq := None), k, c, m)
    ensures BlocksChecker(p, k, c, m) ==> !m.EnPassant?
  {
    if m.HasSquares() && m.f in p.men {
      SameSources(p, m.f, m.t);
      if BlockSource(p, m.f, m.t) {
        BlockSourceApart(p, m.f, m.t);
        AddsWithoutEp(p, m.f, m.t, m);
      }
    }
  }

  lemma PlainEscapes(p: Position, m: Move)
    requires Sound(p) && !m.EnPassant?
    ensures EscapeMove(p, m) <==> EscapeMove(p.(epsq := None), m)
  {
    var q := p.(epsq := None);
    var k := TheKing(p.men, p.side);
    forall c: Square ensures Checker(p, c) <==> Checker(q, c) {}
    forall c: Square | Checker(p, c)
      ensures CapturesChecker(p, c, m) <==> CapturesChecker(q, c, m)
      ensures BlocksChecker(p, k, c, m) <==> BlocksChecker(q, k, c, m)
    {
      CapturesWithoutEp(p, c, m);
      BlocksWithoutEp(p, k, c, m);
    }
  }

  lemma EpEscapes(p: Position, m: Move)
    requires Sound(p) && m.EnPassant?
    ensures EscapeMove(p, m) <==> exists c: Square :: SoleChecker(p, c) && CapturesCheckerEp(p, c, m)
  {
    forall c: Square | Checker(p, c)
      ensures !CapturesChecker(p, c, m) && !BlocksChecker(p, TheKing(p.men, p.side), c, m)
    {
      CapturesWithoutEp(p, c, m);
      BlocksWithoutEp(p, TheKing(p.men, p.side), c, m);
    }
  }

  lemma PlainLegal(p: Position, m: Move)
    requires !m.EnPassant?
    ensures Pseudo(p, m, false) <==> Pseudo(p.(epsq := None), m, false)
    ensures LegalAfter(p, m) <==> LegalAfter(p.(epsq := None), m)
  {
    assert MenAfter(p, m) == MenAfter(p.(epsq := None), m);
  }

  lemma EpEscapesExactly(p: Position, m: Move)
    requires Sound(p) && m.EnPassant?
    ensures EscapeMove(p, m) <==> Pseudo(p, m, false) && TakesChecker(p)
  {
    EpEscapes(p, m);
    if Pseudo(p, m, false) { assert CapturesCheckerEp(p, EpVictim(p.epsq).value, m); }
  }

  // Whatever the history of the en-passant square, a legal move is an escape if and only if it is
  // not an en-passant capture, or it captures the only checker.
  lemma EscapesExactly(p: Position, m: Move)
    requires Sound(p) && KingAttacked(p.men, p.side)
    ensures EscapeMove(p, m) && LegalAfter(p, m) <==>
            Legal(p, m, false) && (m.EnPassant? ==> TakesChecker(p))
  {
    if m.EnPassant? {
      EpEscapesExactly(p, m);
    } else {
      PlainEscapes(p, m);
      PlainLegal(p, m);
      EscapesAreLegalMoves(p.(epsq := None), m);
    }
  }

  const KING_BEHIND: Placement := map[
    Sq(7, 5) := Man(White, King), Sq(3, 4) := Man(White, Pawn),
    Sq(0, 5) := Man(Black, Rook), Sq(4, 4) := Man(Black, Pawn), Sq(0, 0) := Man(Black, King)]

  // White's king on h6 is in check from a rook on a6; a pawn on d5 can block it by capturing on e6 en
  // passant. No double push leads to this position.
  function EpBlock(moveCount: seq<U32>): Position {
    Position(KING_BEHIND, White, {}, Some(Sq(4, 5)), 1, 0, {}, moveCount)
  }

  lemma EpBlockKings(moveCount: seq<U32>)
    ensures var p := EpBlock(moveCount); SoleKing(p.men, White, Sq(7, 5)) && SoleKing(p.men, Black, Sq(0, 0))
    ensures TheKing(EpBlock(moveCount).men, White) == Sq(7, 5)
  {
    assert SoleKing(KING_BEHIND, White, Sq(7, 5)) && SoleKing(KING_BEHIND, Black, Sq(0, 0));
  }

  lemma EpBlockQuiet()
    ensures PawnsOff(KING_BEHIND) && !KingAttacked(KING_BEHIND, Black)
  {
    forall a: Square ensures !AttackedFrom(KING_BEHIND, a, Sq(0, 0), White) {}
    assert SoleKing(KING_BEHIND, Black, Sq(0, 0));
  }

  lemma EpBlockStands(moveCount: seq<U32>)
    ensures EpStands(EpBlock(moveCount))
  {}

  lemma EpBlockIsSound(moveCount: seq<U32>)
    requires |moveCount| == SQUARES
    ensures Sound(EpBlock(moveCount))
  {
    EpBlockKings(moveCount);
    EpBlockQuiet();
    EpBlockStands(moveCount);
  }

  lemma EpBlockChecks(moveCount: seq<U32>)
    ensures AttackedFrom(KING_BEHIND, Sq(0, 5), Sq(7, 5), Black) && KingAttacked(KING_BEHIND, White)
  {
    assert AttackedFrom(KING_BEHIND, Sq(0, 5), Sq(7, 5), Black);
    assert Attacked(KING_BEHIND, Sq(7, 5), White.Other()) && KingOn(KING_BEHIND, White, Sq(7, 5));
  }

  lemma EpBlockIsLegal(moveCount: seq<U32>)
    requires |moveCount| == SQUARES
    ensures Legal(EpBlock(moveCount), EnPassant(Sq(3, 4), Sq(4, 5)), false)
  {
    var men := MenAfter(EpBlock(moveCount), EnPassant(Sq(3, 4), Sq(4, 5)));
    assert Btw(Sq(0, 5), Sq(4, 5), Sq(7, 5));
    assert men.Keys == {Sq(7, 5), Sq(4, 5), Sq(0, 5), Sq(0, 0)};
  }

  // A legal en-passant capture that generate_escapes does not list.
  lemma EpBlockIsMissed(moveCount: seq<U32>)
    requires |moveCount| == SQUARES
    ensures var p, m := EpBlock(moveCount), EnPassant(Sq(3, 4), Sq(4, 5));
            Sound(p) && KingAttacked(p.men, p.side) && Legal(p, m, false) && !EscapeMove(p, m)
  {
    EpBlockKings(moveCount);
    EpBlockIsSound(moveCount);
    EpBlockChecks(moveCount);
    EpBlockIsLegal(moveCount);
    EscapesExactly(EpBlock(moveCount), EnPassant(Sq(3, 4), Sq(4, 5)));
  }
}
