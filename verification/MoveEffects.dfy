// What a move does to a position, square by square, and when castling is legal: stated without the squares and
// tables that make_move uses.
module MoveEffects {
  import opened Basic
  import opened Geometry
  import opened Moves
  import opened Rules
  import opened Legality

  function ManOn(men: Placement, s: Square): Option<Man> {
    if s in men then Some(men[s]) else None
  }

  // ---- The men ----------------------------------------------------------------------------

  // The man that arrives: the one that left, or the one it is promoted to.
  function Arriving(p: Position, m: Move): Man
    requires m.HasSquares() && m.f in p.men
  {
    if m.IsPromotion() then Man(p.side, m.promo) else p.men[m.f]
  }

  // Castling takes the rook from the corner on the king's way to the square the king has crossed; an en-passant
  // capture takes the pawn beside the square the capturing pawn left, on the file where it arrives.
  function ManAfter(p: Position, m: Move, s: Square): Option<Man>
    requires m.HasSquares() && m.f in p.men
  {
    if s == m.t then Some(Arriving(p, m))
    else if s == m.f then None
    else if m.EnPassant? && s == Sq(m.t.fil, m.f.rnk) then None
    else if m.Castle? && s.rnk == m.f.rnk && s.fil == (if m.t.fil > m.f.fil then 7 else 0) then None
    else if m.Castle? && s.rnk == m.f.rnk && 2 * s.fil == m.f.fil + m.t.fil then Some(Man(p.side, Rook))
    else ManOn(p.men, s)
  }

  lemma CastlingGoesHome(p: Position, m: Move, allpromo: bool)
    requires Invariant(p) && Pseudo(p, m, allpromo) && m.Castle?
    ensures m.f in p.men && p.men[m.f] == Man(p.side, King) && m.t !in p.men
    ensures m.f == (if p.side == White then E1 else E8) && m.t.rnk == m.f.rnk && (m.t.fil == 2 || m.t.fil == 6)
  {
    var r: Right :| MayCastle(p, r) && m.f == KingHome(r) && m.t == KingGoal(r);
    assert HomeHeld(p.men, r);
    assert Btw(KingHome(r), KingGoal(r), RookHome(r));
  }

  lemma CastlingMoves(p: Position, m: Move, allpromo: bool, s: Square)
    requires Invariant(p) && Pseudo(p, m, allpromo) && m.Castle?
    ensures m.f in p.men && ManOn(MenAfter(p, m), s) == ManAfter(p, m, s)
  {
    CastlingGoesHome(p, m, allpromo);
  }

  lemma OthersMove(p: Position, m: Move, allpromo: bool, s: Square)
    requires Invariant(p) && Pseudo(p, m, allpromo) && !m.Castle?
    ensures m.f in p.men && ManOn(MenAfter(p, m), s) == ManAfter(p, m, s)
  {
    if m.EnPassant? {
      assert EpVictim(p.epsq) == Some(Sq(m.t.fil, m.f.rnk));
    }
  }

  lemma MenAreMoved(p: Position, m: Move, allpromo: bool, s: Square)
    requires Invariant(p) && Pseudo(p, m, allpromo)
    ensures m.f in p.men && ManOn(Make(p, m).men, s) == ManAfter(p, m, s)
  {
    if m.Castle? { CastlingMoves(p, m, allpromo, s); } else { OthersMove(p, m, allpromo, s); }
  }

  // ---- The en-passant square --------------------------------------------------------------

  predicate DoubleStep(p: Position, m: Move) {
    m.HasSquares() && m.f in p.men && p.men[m.f].piece == Pawn && Abs(m.t.rnk - m.f.rnk) == 2
  }

  // A pawn that moves two ranks sets the square it has crossed, of either colour, and no other move sets one.
  lemma EpIsSetIff(p: Position, m: Move, allpromo: bool)
    requires |p.moveCount| == SQUARES && Pseudo(p, m, allpromo)
    ensures if DoubleStep(p, m)
            then Make(p, m).epsq == Some(Sq(m.f.fil, if p.side == White then 2 else 5))
            else Make(p, m).epsq == None
  {}

  // ---- Castling rights --------------------------------------------------------------------

  lemma WhoMoves(p: Position, m: Move, allpromo: bool)
    requires Invariant(p) && Pseudo(p, m, allpromo)
    ensures m.f in p.men && m.PType().Some? && p.men[m.f] == Man(p.side, m.PType().value)
    ensures m.t in p.men <==> m.IsCapture()
    ensures m.IsCapture() ==> p.men[m.t] == Man(p.side.Other(), m.cap)
  {
    if m.Castle? { CastlingGoesHome(p, m, allpromo); }
  }

  lemma FlagsAfterAre(p: Position, m: Move, r: Right)
    requires m.HasSquares()
    ensures r in FlagsAfter(p, m) <==>
            && r in p.flags && !(m.PType() == Some(King) && RightSide(r) == p.side)
            && !(m.PType() == Some(Rook) && m.f == RookHome(r)) && !(m.IsCapture() && m.cap == Rook && m.t == RookHome(r))
  {}

  // King and rook stand at home, so it is they who leave, or the rook that is captured.
  lemma HomeIsLeftIff(p: Position, m: Move, r: Right)
    requires m.HasSquares() && r in p.flags && HomeHeld(p.men, r) && HasSoleKing(p.men, p.side)
    requires m.f in p.men && m.PType().Some? && p.men[m.f] == Man(p.side, m.PType().value)
    requires (m.t in p.men <==> m.IsCapture()) && (m.IsCapture() ==> p.men[m.t] == Man(p.side.Other(), m.cap))
    ensures r in FlagsAfter(p, m) <==> m.f != KingHome(r) && m.f != RookHome(r) && m.t != RookHome(r)
  {
    FlagsAfterAre(p, m, r);
    if m.PType() == Some(King) && RightSide(r) == p.side {
      assert KingOn(p.men, p.side, m.f) && KingOn(p.men, p.side, KingHome(r));
    }
  }

  // A right is kept if and only if neither its king nor its rook leaves home, and nothing is captured where the
  // rook stands.
  lemma RightIsKeptIff(p: Position, m: Move, allpromo: bool, r: Right)
    requires Invariant(p) && Pseudo(p, m, allpromo)
    ensures var king := if r == WK || r == WQ then E1 else E8;
            var rook := match r { case WK => H1 case WQ => A1 case BK => H8 case BQ => A8 };
            r in Make(p, m).flags <==> r in p.flags && m.f != king && m.f != rook && m.t != rook
  {
    FlagsAfterAre(p, m, r);
    WhoMoves(p, m, allpromo);
    if r in p.flags {
      assert HomeHeld(p.men, r);
      assert HasSoleKing(p.men, p.side) by { match p.side { case White => case Black => } }
      HomeIsLeftIff(p, m, r);
    }
  }

  // ---- Side, counters and history ---------------------------------------------------------

  lemma CountersFollow(p: Position, m: Move, allpromo: bool)
    requires Invariant(p) && Pseudo(p, m, allpromo)
    ensures Make(p, m).side == p.side.Other() && Make(p, m).moveno == p.moveno + if p.side == Black then 1 else 0
    ensures m.f in p.men
    ensures Make(p, m).movecnt50 == if p.men[m.f].piece == Pawn || m.t in p.men then 0 else p.movecnt50 + 1
    ensures forall c: Color :: c in Make(p, m).castled <==> c in p.castled || (m.Castle? && c == p.side)
  {
    if m.Castle? { CastlingGoesHome(p, m, allpromo); }
  }

  // How often a man has moved goes with him, and no square but the two of the move is touched.
  lemma CountsFollow(p: Position, m: Move, s: Square)
    requires |p.moveCount| == SQUARES && m.HasSquares() && m.f != m.t
    ensures |Make(p, m).moveCount| == SQUARES
    ensures Make(p, m).moveCount[Index(s)]
         == if s == m.t then Inc32(p.moveCount[Index(m.f)]) else if s == m.f then 0 else p.moveCount[Index(s)]
  {
    IndexInverse(s);
    IndexInverse(m.f);
    IndexInverse(m.t);
  }

  // Passing changes the side and the counters, and forgets the en-passant square.
  lemma PassFollows(p: Position)
    requires |p.moveCount| == SQUARES
    ensures Make(p, NullMove).men == p.men && Make(p, NullMove).flags == p.flags && Make(p, NullMove).castled == p.castled
    ensures Make(p, NullMove).side == p.side.Other() && Make(p, NullMove).epsq == None && Make(p, NullMove).moveCount == p.moveCount
    ensures Make(p, NullMove).movecnt50 == p.movecnt50 + 1 && Make(p, NullMove).moveno == p.moveno + if p.side == Black then 1 else 0
  {
    assert MenAfter(p, NullMove) == p.men;
  }

  // ---- Castling ---------------------------------------------------------------------------

  // The right is held, and nothing stands between its king and its rook.
  predicate Prepared(p: Position, r: Right) {
    RightSide(r) == p.side && r in p.flags && Clear(p.men.Keys, KingHome(r), RookHome(r))
  }

  lemma HomeRank(p: Position, r: Right, s: Square)
    requires Invariant(p) && Prepared(p, r) && s.rnk == KingHome(r).rnk
    ensures (if r == WK || r == BK then s.fil == 5 || s.fil == 6 else s.fil == 1 || s.fil == 2 || s.fil == 3) ==> s !in p.men
    ensures s.fil == 4 || s == RookHome(r) ==> s in p.men && p.men[s].color == p.side
  {
    assert HomeHeld(p.men, r);
    assert Btw(KingHome(r), s, RookHome(r)) ==> s !in p.men;
  }

  // A man of the opponent sees the king's goal after castling exactly if he saw it before: along the home rank
  // the king stood in his way, and then the rook does.
  lemma GoalSeen(p: Position, r: Right, a: Square)
    requires Invariant(p) && Prepared(p, r) && a in p.men && p.men[a].color != p.side
    ensures Clear(MenAfter(p, Castle(KingHome(r), KingGoal(r))).Keys, a, KingGoal(r)) <==> Clear(p.men.Keys, a, KingGoal(r))
  {
    var after, t := MenAfter(p, Castle(KingHome(r), KingGoal(r))), KingGoal(r);
    assert HomeHeld(p.men, r);
    if a.rnk == t.rnk {
      HomeRank(p, r, a);
      assert Btw(a, KingHome(r), t) && KingHome(r) in p.men;
      assert Btw(a, RookGoal(r), t) && RookGoal(r) in after;
    } else {
      forall c: Square | Btw(a, c, t) ensures c in after <==> c in p.men {}
    }
  }

  lemma FoesStay(p: Position, r: Right, a: Square)
    requires Invariant(p) && Prepared(p, r)
    ensures var after := MenAfter(p, Castle(KingHome(r), KingGoal(r)));
            && (a in after && after[a].color != p.side <==> a in p.men && p.men[a].color != p.side)
            && (a in after && after[a].color != p.side ==> after[a] == p.men[a])
  {
    assert HomeHeld(p.men, r);
  }

  lemma SameAttack(x: Man, occ: Bitboard, other: Bitboard, a: Square, t: Square)
    requires Clear(occ, a, t) <==> Clear(other, a, t)
    ensures Attacks(x, occ, a, t) <==> Attacks(x, other, a, t)
  {}

  lemma GoalAttacked(p: Position, r: Right, a: Square)
    requires Invariant(p) && Prepared(p, r)
    ensures var m := Castle(KingHome(r), KingGoal(r));
            AttackedFrom(MenAfter(p, m), a, m.t, p.side.Other()) <==> AttackedFrom(p.men, a, m.t, p.side.Other())
  {
    FoesStay(p, r, a);
    if a in p.men && p.men[a].color != p.side {
      GoalSeen(p, r, a);
      SameAttack(p.men[a], MenAfter(p, Castle(KingHome(r), KingGoal(r))).Keys, p.men.Keys, a, KingGoal(r));
    }
  }

  lemma CastleIsSafeIff(p: Position, r: Right)
    requires Invariant(p) && MayCastle(p, r)
    ensures LegalAfter(p, Castle(KingHome(r), KingGoal(r))) <==> !Attacked(p.men, KingGoal(r), p.side.Other())
  {
    var m := Castle(KingHome(r), KingGoal(r));
    assert Pseudo(p, m, true);
    KingMoveKeepsKing(p, m, true);
    forall a: Square
      ensures AttackedFrom(MenAfter(p, m), a, m.t, p.side.Other()) <==> AttackedFrom(p.men, a, m.t, p.side.Other())
    {
      GoalAttacked(p, r, a);
    }
    assert SoleKing(MenAfter(p, m), p.side, m.t);
  }

  // The king's home rank.
  function Home(p: Position, fil: int): Square
    requires 0 <= fil < 8
  {
    Sq(fil, if p.side == White then 0 else 7)
  }

  predicate Free(p: Position, fil: int)
    requires 0 <= fil < 8
  {
    Home(p, fil) !in p.men
  }

  ghost predicate Safe(p: Position, fil: int)
    requires 0 <= fil < 8
  {
    !Attacked(p.men, Home(p, fil), p.side.Other())
  }

  lemma ClearIsFree(p: Position, r: Right)
    requires RightSide(r) == p.side
    ensures Clear(p.men.Keys, KingHome(r), RookHome(r)) <==>
            if r == WK || r == BK then Free(p, 5) && Free(p, 6) else Free(p, 1) && Free(p, 2) && Free(p, 3)
  {
    forall fil | 0 <= fil < 8 && Btw(KingHome(r), Home(p, fil), RookHome(r))
      ensures if r == WK || r == BK then 5 <= fil <= 6 else 1 <= fil <= 3
    {}
    assert r == WK || r == BK ==> Btw(KingHome(r), Home(p, 5), RookHome(r)) && Btw(KingHome(r), Home(p, 6), RookHome(r));
    assert r == WQ || r == BQ ==>
        Btw(KingHome(r), Home(p, 1), RookHome(r)) && Btw(KingHome(r), Home(p, 2), RookHome(r))
        && Btw(KingHome(r), Home(p, 3), RookHome(r));
    forall c: Square | Btw(KingHome(r), c, RookHome(r)) ensures c == Home(p, c.fil) {}
  }

  lemma CheckIsHome(p: Position, r: Right)
    requires Invariant(p) && RightSide(r) == p.side && r in p.flags
    ensures KingAttacked(p.men, p.side) <==> !Safe(p, 4)
  {
    assert HomeHeld(p.men, r);
    assert KingOn(p.men, p.side, Home(p, 4));
    match p.side { case White => case Black => }
  }

  // Castling on the king's side and on the queen's side is legal exactly if the right is held, the squares between
  // king and rook are free, and no square from which, over which or to which the king moves is attacked.
  lemma CastlingIsLegalIff(p: Position, allpromo: bool)
    requires Invariant(p)
    ensures Legal(p, Castle(Home(p, 4), Home(p, 6)), allpromo) <==>
            && (if p.side == White then WK else BK) in p.flags && Free(p, 5) && Free(p, 6)
            && Safe(p, 4) && Safe(p, 5) && Safe(p, 6)
    ensures Legal(p, Castle(Home(p, 4), Home(p, 2)), allpromo) <==>
            && (if p.side == White then WQ else BQ) in p.flags && Free(p, 1) && Free(p, 2) && Free(p, 3)
            && Safe(p, 4) && Safe(p, 3) && Safe(p, 2)
    ensures forall f, t :: Legal(p, Castle(f, t), allpromo) ==> f == Home(p, 4) && (t == Home(p, 6) || t == Home(p, 2))
  {
    CastlesIff(p, if p.side == White then WK else BK, allpromo);
    CastlesIff(p, if p.side == White then WQ else BQ, allpromo);
  }

  lemma CastlesIff(p: Position, r: Right, allpromo: bool)
    requires Invariant(p) && RightSide(r) == p.side
    ensures Legal(p, Castle(KingHome(r), KingGoal(r)), allpromo) <==>
            && r in p.flags && Safe(p, 4)
            && (if r == WK || r == BK then Free(p, 5) && Free(p, 6) && Safe(p, 5) && Safe(p, 6)
                else Free(p, 1) && Free(p, 2) && Free(p, 3) && Safe(p, 3) && Safe(p, 2))
  {
    ClearIsFree(p, r);
    if r in p.flags { CheckIsHome(p, r); }
    if MayCastle(p, r) { CastleIsSafeIff(p, r); }
    assert Pseudo(p, Castle(KingHome(r), KingGoal(r)), allpromo) <==> MayCastle(p, r);
  }
}
