// A move that san writes with more than the standard asks for.
module NotationGaps {
  import opened Basic
  import opened Geometry
  import opened Moves
  import opened Rules
  import opened Notation

  const THREE_QUEENS: Placement := map[
    Sq(0, 0) := Man(White, Queen), Sq(0, 4) := Man(White, Queen), Sq(7, 7) := Man(White, Queen),
    Sq(2, 6) := Man(White, King), Sq(6, 3) := Man(Black, King)]

  // White: king c7, queens a1, a5 and h8; Black: king g4.
  function ThreeQueens(moveCount: seq<U32>): Position {
    Position(THREE_QUEENS, White, {}, None, 1, 0, {}, moveCount)
  }

  lemma ThreeQueensInvariant(moveCount: seq<U32>)
    requires |moveCount| == SQUARES
    ensures Invariant(ThreeQueens(moveCount))
  {
    assert SoleKing(THREE_QUEENS, White, Sq(2, 6)) && SoleKing(THREE_QUEENS, Black, Sq(6, 3));
  }

  // A lone black king on g4 does not attack a white king on c7.
  lemma KingsApart(men: Placement)
    requires forall a: Square :: a in men && men[a].color == Black ==> a == Sq(6, 3) && men[a].piece == King
    requires forall k: Square :: KingOn(men, White, k) ==> k == Sq(2, 6)
    ensures !KingAttacked(men, White)
  {}

  ghost predicate SeesE5(f: Square) {
    f in THREE_QUEENS && THREE_QUEENS[f] == Man(White, Queen) && Attacks(Man(White, Queen), THREE_QUEENS.Keys, f, Sq(4, 4))
  }

  predicate QueenSquare(f: Square) {
    f == Sq(0, 0) || f == Sq(0, 4) || f == Sq(7, 7)
  }

  lemma QueenLine(f: Square)
    requires QueenSquare(f)
    ensures BishopLine(f, Sq(4, 4)) || RookLine(f, Sq(4, 4))
  {}

  lemma NotBetween(f: Square, c: Square)
    requires QueenSquare(f) && c in THREE_QUEENS.Keys
    ensures !Btw(f, c, Sq(4, 4))
  {
    assert THREE_QUEENS.Keys == {Sq(0, 0), Sq(0, 4), Sq(7, 7), Sq(2, 6), Sq(6, 3)};
  }

  lemma WayToE5(f: Square)
    requires QueenSquare(f)
    ensures Clear(THREE_QUEENS.Keys, f, Sq(4, 4))
  {
    forall c: Square | c in THREE_QUEENS.Keys ensures !Btw(f, c, Sq(4, 4)) {
      NotBetween(f, c);
    }
  }

  lemma QueenStands(f: Square)
    requires QueenSquare(f)
    ensures f in THREE_QUEENS && THREE_QUEENS[f] == Man(White, Queen)
  {}

  lemma SeesWhenClear(f: Square)
    requires f in THREE_QUEENS && THREE_QUEENS[f] == Man(White, Queen)
    requires (BishopLine(f, Sq(4, 4)) || RookLine(f, Sq(4, 4))) && Clear(THREE_QUEENS.Keys, f, Sq(4, 4))
    ensures SeesE5(f)
  {}

  lemma QueenSees(f: Square)
    requires QueenSquare(f)
    ensures SeesE5(f)
  {
    QueenStands(f);
    QueenLine(f);
    WayToE5(f);
    SeesWhenClear(f);
  }

  lemma QueenAway(men: Placement, f: Square, t: Square, a: Square)
    requires a in Moved(men, f, t, Man(White, Queen)) && a != t
    ensures a in men && Moved(men, f, t, Man(White, Queen))[a] == men[a]
  {}

  lemma KingsStay(f: Square)
    ensures !KingAttacked(Moved(THREE_QUEENS, f, Sq(4, 4), Man(White, Queen)), White)
  {
    var men := Moved(THREE_QUEENS, f, Sq(4, 4), Man(White, Queen));
    forall a: Square | a in men && a != Sq(4, 4) ensures a in THREE_QUEENS && men[a] == THREE_QUEENS[a] {
      QueenAway(THREE_QUEENS, f, Sq(4, 4), a);
    }
    KingsApart(men);
  }

  ghost predicate QueenMayGo(p: Position, f: Square, t: Square) {
    && p.side == White && Owns(p, f, Queen) && t !in p.men && Attacks(Man(White, Queen), p.men.Keys, f, t)
    && !KingAttacked(Moved(p.men, f, t, Man(White, Queen)), White)
  }

  lemma QueenMoveIsLegal(p: Position, f: Square, t: Square)
    requires QueenMayGo(p, f, t)
    ensures Legal(p, Normal(f, t, Queen), true)
    ensures forall g: Square :: g != f ==> Rival(p, Normal(g, t, Queen), Normal(f, t, Queen))
  {
    assert MenAfter(p, Normal(f, t, Queen)) == Moved(p.men, f, t, Man(White, Queen));
  }

  lemma QueenToE5(moveCount: seq<U32>, f: Square)
    requires SeesE5(f)
    ensures QueenMayGo(ThreeQueens(moveCount), f, Sq(4, 4))
  {
    KingsStay(f);
  }

  lemma QueensGiveRivals(moveCount: seq<U32>)
    ensures var p, m := ThreeQueens(moveCount), Normal(Sq(0, 0), Sq(4, 4), Queen);
            NeedsFile(p, m) && NeedsRank(p, m) && RankTells(p, m)
  {
    var p, m := ThreeQueens(moveCount), Normal(Sq(0, 0), Sq(4, 4), Queen);
    QueenSees(Sq(0, 4));
    QueenSees(Sq(7, 7));
    QueenToE5(moveCount, Sq(0, 4));
    QueenToE5(moveCount, Sq(7, 7));
    QueenMoveIsLegal(p, Sq(0, 4), Sq(4, 4));
    QueenMoveIsLegal(p, Sq(7, 7), Sq(4, 4));
    forall n | Rival(p, m, n) ensures n.f.rnk != m.f.rnk {
      assert Owns(p, n.f, Queen);
    }
  }

  lemma QueenBodies()
    ensures var m := Normal(Sq(0, 0), Sq(4, 4), Queen);
            Body(m, true, true, true) == "Qa1e5" && Body(m, false, true, true) == "Q1e5"
  {}

  lemma QueenTexts(p: Position, m: Move)
    requires |p.moveCount| == SQUARES && m.HasSquares() && m.f in p.men && FlagsFit(m, p.men[m.f].piece, m.t in p.men)
    requires NeedsFile(p, m) && NeedsRank(p, m) && RankTells(p, m)
    ensures San(p, m, 0) == Body(m, true, true, true) + Suffix(p, m) && PgnSan(p, m) == Body(m, false, true, true) + Suffix(p, m)
  {
    PgnHelpIs(p, m);
    MarkIsSuffix(p, m);
    BodyIsSpelled(m, p.men[m.f].piece, m.t in p.men, PgnFile(p, m), PgnRank(p, m));
  }

  lemma QueenWritten(p: Position, m: Move)
    requires m == Normal(Sq(0, 0), Sq(4, 4), Queen) && Invariant(p) && Legal(p, m, true)
    requires NeedsFile(p, m) && NeedsRank(p, m) && RankTells(p, m)
    ensures m.f in p.men && San(p, m, 0) == "Qa1e5" + Suffix(p, m) && PgnSan(p, m) == "Q1e5" + Suffix(p, m)
  {
    MoveFits(p, m);
    QueenTexts(p, m);
    QueenBodies();
  }

  lemma QueenIsLegal(moveCount: seq<U32>)
    ensures Legal(ThreeQueens(moveCount), Normal(Sq(0, 0), Sq(4, 4), Queen), true)
  {
    QueenSees(Sq(0, 0));
    QueenToE5(moveCount, Sq(0, 0));
    QueenMoveIsLegal(ThreeQueens(moveCount), Sq(0, 0), Sq(4, 4));
  }

  // Where the standard writes Q1e5, san writes Qa1e5.
  lemma QueenSaysTooMuch(moveCount: seq<U32>)
    requires |moveCount| == SQUARES
    ensures var p, m := ThreeQueens(moveCount), Normal(Sq(0, 0), Sq(4, 4), Queen);
            && Invariant(p) && Legal(p, m, true) && m.f in p.men
            && San(p, m, 0) == "Qa1e5" + Suffix(p, m) && PgnSan(p, m) == "Q1e5" + Suffix(p, m)
  {
    ThreeQueensInvariant(moveCount);
    QueenIsLegal(moveCount);
    QueensGiveRivals(moveCount);
    QueenWritten(ThreeQueens(moveCount), Normal(Sq(0, 0), Sq(4, 4), Queen));
  }
}
