// The game that the search plays when its positions are chess positions.
module ChessGames {
  import opened Basic
  import opened Moves
  import opened Rules
  import opened Escapes
  import opened GameTree

  // Every position of the game shows a chess position with the board invariant; the moves are those that the
  // generators list there, and a listed move is legal if it leaves its side's king safe.
  ghost predicate PlaysChess(g: Game, view: Pos -> Position) {
    forall p: Pos :: ShowsChess(g, p, view(p))
  }

  ghost predicate ShowsChess(g: Game, p: Pos, q: Position) {
    && Invariant(q) && g.inCheck(p) == KingAttacked(q.men, q.side)
    && (forall m :: m in g.all(p) <==> Pseudo(q, m, false))
    && (forall m :: m in g.moves(p) <==> if g.inCheck(p) then EscapeMove(q, m) else Pseudo(q, m, false))
    && (forall m :: Pseudo(q, m, false) ==> (LegalMove(g, p, m) <==> LegalAfter(q, m)))
  }

  lemma AgreesAt(g: Game, p: Pos, q: Position, m: Move)
    requires ShowsChess(g, p, q) && LegalMove(g, p, m)
    ensures m in g.all(p) <==> m in g.moves(p)
  {
    if g.inCheck(p) {
      EscapesAreLegalMoves(q, m);
      if EscapeMove(q, m) { EscapeIsPseudo(q, m); }
    }
  }

  // So in chess the general generator and the check-escape generator list the same legal moves.
  lemma ChessAgrees(g: Game, view: Pos -> Position)
    requires PlaysChess(g, view)
    ensures GeneratorsAgree(g)
  {
    forall p: Pos, m: Move | LegalMove(g, p, m) ensures m in g.all(p) <==> m in g.moves(p) {
      AgreesAt(g, p, view(p), m);
    }
  }

  // The generators leave the promotions to bishop and rook out.
  function Queened(m: Move): Move {
    match m
    case Promotion(f, t, _) => Promotion(f, t, Queen)
    case PromoCapture(f, t, _, cap) => PromoCapture(f, t, Queen, cap)
    case _ => m
  }

  // A promoted man is no king and attacks no king of its own side.
  lemma QueenedIsLegal(q: Position, m: Move)
    requires Legal(q, m, true)
    ensures Legal(q, if Pseudo(q, m, false) then m else Queened(m), false)
  {
    var n := Queened(m);
    if !Pseudo(q, m, false) && KingAttacked(MenAfter(q, n), q.side) {
      var after, was := MenAfter(q, n), MenAfter(q, m);
      var k: Square :| KingOn(after, q.side, k) && Attacked(after, k, q.side.Other());
      var a: Square :| AttackedFrom(after, a, k, q.side.Other());
      assert after.Keys == was.Keys;
      assert KingOn(was, q.side, k) && AttackedFrom(was, a, k, q.side.Other());
    }
  }

  // The search finds no legal move in a position exactly if the rules of chess allow none: it scores as
  // mate and stalemate what is mate and stalemate.
  lemma NoMoveIffNoneLegal(g: Game, view: Pos -> Position, p: Pos, depth: int, ply: nat)
    requires PlaysChess(g, view) && ply + 1 + Depth(depth) < MAXPLY
    ensures Best(g, p, g.moves(p), depth, ply) == None <==> forall m :: !Legal(view(p), m, true)
  {
    var q := view(p);
    assert ShowsChess(g, p, q);
    if m :| Legal(q, m, true) {
      QueenedIsLegal(q, m);
      var n := if Pseudo(q, m, false) then m else Queened(m);
      AgreesAt(g, p, q, n);
      BestIsUpperBound(g, p, g.moves(p), depth, ply, n);
    }
    if Best(g, p, g.moves(p), depth, ply).Some? {
      var m := BestIsAttained(g, p, g.moves(p), depth, ply);
      AgreesAt(g, p, q, m);
      assert Legal(q, m, true);
    }
  }

  // And such a position is worth a mate at its ply if its king is attacked, and a draw if not.
  lemma MateValue(g: Game, view: Pos -> Position, p: Pos, depth: int, ply: nat)
    requires PlaysChess(g, view) && depth > 0 && ply + depth < MAXPLY && g.draw(p) == None && forall m :: !Legal(view(p), m, true)
    ensures Value(g, p, depth, ply) == if KingAttacked(view(p).men, view(p).side) then -INFTY + ply else DRAW
  {
    NoMoveIffNoneLegal(g, view, p, depth - 1, ply);
    assert ShowsChess(g, p, view(p));
  }
}
