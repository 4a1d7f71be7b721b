// What attacks what, read from the bitboards through the tables (src/chess/board_attack.cc and the
// inline attack functions of src/chess/board.h).
module AttackQueries {
  import opened Basic
  import opened Geometry
  import opened Rules
  import opened Rotated
  import opened Tables
  import opened Mirror

  // ---- Reading the bitboards --------------------------------------------------------------

  function Men(b: Bitboards, c: Color, pc: Piece): Bitboard {
    if Man(c, pc) in b.position then b.position[Man(c, pc)] else {}
  }

  lemma MenAre(b: Bitboards, men: Placement, c: Color, pc: Piece, s: Square)
    requires b == BitboardsOf(men)
    ensures s in Men(b, c, pc) <==> s in men && men[s] == Man(c, pc)
  {}

  // Board::piece_at.
  function PieceAt(b: Bitboards, s: Square): Option<Piece> {
    if s in Men(b, White, Pawn) + Men(b, Black, Pawn) then Some(Pawn)
    else if s in Men(b, White, Knight) + Men(b, Black, Knight) then Some(Knight)
    else if s in Men(b, White, Bishop) + Men(b, Black, Bishop) then Some(Bishop)
    else if s in Men(b, White, Rook) + Men(b, Black, Rook) then Some(Rook)
    else if s in Men(b, White, Queen) + Men(b, Black, Queen) then Some(Queen)
    else if s in Men(b, White, King) + Men(b, Black, King) then Some(King)
    else None
  }

  lemma HeldBy(b: Bitboards, men: Placement, pc: Piece, s: Square)
    requires b == BitboardsOf(men)
    ensures s in Men(b, White, pc) + Men(b, Black, pc) <==> s in men && men[s].piece == pc
  {}

  lemma PieceAtIs(b: Bitboards, men: Placement, s: Square)
    requires b == BitboardsOf(men)
    ensures PieceAt(b, s) == if s in men then Some(men[s].piece) else None
  {
    HeldBy(b, men, Pawn, s);
    HeldBy(b, men, Knight, s);
    HeldBy(b, men, Bishop, s);
    HeldBy(b, men, Rook, s);
    HeldBy(b, men, Queen, s);
    HeldBy(b, men, King, s);
  }

  // ---- Attack functions -------------------------------------------------------------------

  // The squares that a piece other than a pawn attacks from a square.
  ghost function Reached(men: Placement, pc: Piece, from: Square): (bb: Bitboard)
    ensures pc != Pawn ==> forall u: Square :: u in bb <==> Attacks(Man(White, pc), men.Keys, from, u)
  {
    set u | u in AllSquares() && Attacks(Man(White, pc), men.Keys, from, u)
  }

  function RookAttacks(b: Bitboards, t: AttackTables, from: Square): Bitboard
    requires t.Valid()
    reads t.attackBb, t.pawnCaptBb, t.rayBb, t.rotAtk0, t.rotAtkL90, t.rotAtkL45, t.rotAtkR45
  {
    t.Atk(R0, Rotate(R0, b.occupied), from) + t.Atk(L90, b.l90, from)
  }

  function BishopAttacks(b: Bitboards, t: AttackTables, from: Square): Bitboard
    requires t.Valid()
    reads t.attackBb, t.pawnCaptBb, t.rayBb, t.rotAtk0, t.rotAtkL90, t.rotAtkL45, t.rotAtkR45
  {
    t.Atk(L45, b.l45, from) + t.Atk(R45, b.r45, from)
  }

  // knight_attacks, bishop_attacks, rook_attacks, queen_attacks and king_attacks.
  function PieceAttacks(b: Bitboards, t: AttackTables, pc: Piece, from: Square): Bitboard
    requires t.Valid() && pc != Pawn
    reads t.attackBb, t.pawnCaptBb, t.rayBb, t.rotAtk0, t.rotAtkL90, t.rotAtkL45, t.rotAtkR45
  {
    match pc
    case Knight => t.attackBb[1, Index(from)]
    case Bishop => BishopAttacks(b, t, from)
    case Rook => RookAttacks(b, t, from)
    case Queen => BishopAttacks(b, t, from) + RookAttacks(b, t, from)
    case King => t.attackBb[5, Index(from)]
  }

  lemma SlidersReach(b: Bitboards, t: AttackTables, men: Placement, from: Square)
    requires t.Valid() && b == BitboardsOf(men)
    ensures RookAttacks(b, t, from) == RookWalk(men.Keys, from) && BishopAttacks(b, t, from) == BishopWalk(men.Keys, from)
  {
    t.RotatedAttacksAreWalks(men.Keys, from);
  }

  lemma LeapersReach(t: AttackTables, men: Placement, from: Square, u: Square)
    requires t.Valid()
    ensures u in t.attackBb[1, Index(from)] <==> KnightStep(from, u)
    ensures u in t.attackBb[5, Index(from)] <==> KingStep(from, u)
  {
    assert t.AttacksOk(from);
  }

  lemma PieceAttacksAt(b: Bitboards, t: AttackTables, men: Placement, pc: Piece, from: Square, u: Square)
    requires t.Valid() && b == BitboardsOf(men) && pc != Pawn
    ensures u in PieceAttacks(b, t, pc, from) <==> Attacks(Man(White, pc), men.Keys, from, u)
  {
    SlidersReach(b, t, men, from);
    LeapersReach(t, men, from, u);
    RookWalkReaches(men.Keys, from, u);
    BishopWalkReaches(men.Keys, from, u);
  }

  lemma PieceAttacksAre(b: Bitboards, t: AttackTables, men: Placement, pc: Piece, from: Square)
    requires t.Valid() && b == BitboardsOf(men) && pc != Pawn
    ensures PieceAttacks(b, t, pc, from) == Reached(men, pc, from)
  {
    forall u: Square ensures u in PieceAttacks(b, t, pc, from) <==> u in Reached(men, pc, from) {
      PieceAttacksAt(b, t, men, pc, from, u);
    }
  }

  // Board::pawn_captures: captures by a pawn, to an occupied square or the en-passant square.
  function PawnCaptures(b: Bitboards, t: AttackTables, epsq: Option<Square>, from: Square, c: Color): Bitboard
    requires t.Valid()
    reads t.attackBb, t.pawnCaptBb, t.rayBb, t.rotAtk0, t.rotAtkL90, t.rotAtkL45, t.rotAtkR45
  {
    var capt := t.pawnCaptBb[ColorIndex(c), Index(from)];
    capt * b.occupied + (if epsq.Some? && epsq.value in capt then {epsq.value} else {})
  }

  lemma PawnCapturesAre(b: Bitboards, t: AttackTables, men: Placement, epsq: Option<Square>, from: Square, c: Color, u: Square)
    requires t.Valid() && b == BitboardsOf(men)
    ensures u in PawnCaptures(b, t, epsq, from, c) <==> PawnStep(c, from, u) && (u in men || epsq == Some(u))
  {
    assert t.PawnsOk(from);
    match c { case White => case Black => }
  }

  // Board::pawn_noncaptures, for a pawn that has a square ahead.
  function PawnNoncaptures(b: Bitboards, from: Square, c: Color): Bitboard
    requires 0 <= from.rnk + Forward(c) < 8
  {
    var one := Sq(from.fil, from.rnk + Forward(c));
    if one in b.occupied then {}
    else if from.rnk == SecondRank(c) && Sq(from.fil, from.rnk + 2 * Forward(c)) !in b.occupied
    then {one, Sq(from.fil, from.rnk + 2 * Forward(c))}
    else {one}
  }

  lemma PawnNoncapturesAre(b: Bitboards, men: Placement, from: Square, c: Color, u: Square)
    requires b == BitboardsOf(men) && 0 <= from.rnk + Forward(c) < 8
    ensures u in PawnNoncaptures(b, from, c) <==> PawnAdvance(men, c, from, u)
  {}

  // ---- is_attacked and attackers ----------------------------------------------------------

  // A piece attacks a square if and only if it would be attacked back from there by its like; for
  // pawns, by a pawn of the other colour.
  lemma AttacksBack(men: Placement, pc: Piece, c: Color, a: Square, u: Square)
    ensures pc != Pawn ==> (Attacks(Man(c, pc), men.Keys, a, u) <==> Attacks(Man(White, pc), men.Keys, u, a))
    ensures Attacks(Man(c, Pawn), men.Keys, a, u) <==> PawnStep(c.Other(), u, a)
  {}

  function Attackers(b: Bitboards, t: AttackTables, epsq: Option<Square>, to: Square, att: Color): Bitboard
    requires t.Valid()
    reads t.attackBb, t.pawnCaptBb, t.rayBb, t.rotAtk0, t.rotAtkL90, t.rotAtkL45, t.rotAtkR45
  {
    PawnCaptures(b, t, epsq, to, att.Other()) * Men(b, att, Pawn)
    + PieceAttacks(b, t, Knight, to) * Men(b, att, Knight)
    + PieceAttacks(b, t, Bishop, to) * Men(b, att, Bishop)
    + PieceAttacks(b, t, Rook, to) * Men(b, att, Rook)
    + PieceAttacks(b, t, Queen, to) * Men(b, att, Queen)
    + PieceAttacks(b, t, King, to) * Men(b, att, King)
  }

  // Does a man of this kind attack the square?
  lemma OneKindAttacks(b: Bitboards, t: AttackTables, men: Placement, to: Square, att: Color, pc: Piece, a: Square)
    requires t.Valid() && b == BitboardsOf(men) && pc != Pawn
    ensures a in PieceAttacks(b, t, pc, to) * Men(b, att, pc)
       <==> AttackedFrom(men, a, to, att) && men[a].piece == pc
  {
    PieceAttacksAt(b, t, men, pc, to, a);
    MenAre(b, men, att, pc, a);
    AttacksBack(men, pc, att, a, to);
    if a in men && men[a].color == att && men[a].piece == pc { assert men[a] == Man(att, pc); }
  }

  lemma PawnsAttack(b: Bitboards, t: AttackTables, men: Placement, epsq: Option<Square>, to: Square, att: Color, a: Square)
    requires t.Valid() && b == BitboardsOf(men)
    ensures a in PawnCaptures(b, t, epsq, to, att.Other()) * Men(b, att, Pawn)
       <==> AttackedFrom(men, a, to, att) && men[a].piece == Pawn
  {
    PawnCapturesAre(b, t, men, epsq, to, att.Other(), a);
    MenAre(b, men, att, Pawn, a);
    AttacksBack(men, Pawn, att, a, to);
    if a in men && men[a].color == att && men[a].piece == Pawn { assert men[a] == Man(att, Pawn); }
  }

  lemma AttackersAre(b: Bitboards, t: AttackTables, men: Placement, epsq: Option<Square>, to: Square, att: Color, a: Square)
    requires t.Valid() && b == BitboardsOf(men)
    ensures a in Attackers(b, t, epsq, to, att) <==> AttackedFrom(men, a, to, att)
  {
    PawnsAttack(b, t, men, epsq, to, att, a);
    OneKindAttacks(b, t, men, to, att, Knight, a);
    OneKindAttacks(b, t, men, to, att, Bishop, a);
    OneKindAttacks(b, t, men, to, att, Rook, a);
    OneKindAttacks(b, t, men, to, att, Queen, a);
    OneKindAttacks(b, t, men, to, att, King, a);
    if a in men { match men[a].piece { case Pawn => case Knight => case Bishop => case Rook => case Queen => case King => } }
  }

  // The chain of tests of Board::is_attacked.
  function IsAttacked(b: Bitboards, t: AttackTables, epsq: Option<Square>, to: Square, att: Color): bool
    requires t.Valid()
    reads t.attackBb, t.pawnCaptBb, t.rayBb, t.rotAtk0, t.rotAtkL90, t.rotAtkL45, t.rotAtkR45
  {
    || PieceAttacks(b, t, Rook, to) * (Men(b, att, Rook) + Men(b, att, Queen)) != {}
    || PieceAttacks(b, t, Bishop, to) * (Men(b, att, Bishop) + Men(b, att, Queen)) != {}
    || PawnCaptures(b, t, epsq, to, att.Other()) * Men(b, att, Pawn) != {}
    || PieceAttacks(b, t, Knight, to) * Men(b, att, Knight) != {}
    || PieceAttacks(b, t, King, to) * Men(b, att, King) != {}
  }

  lemma AttackerShows(b: Bitboards, t: AttackTables, epsq: Option<Square>, to: Square, att: Color, a: Square)
    requires t.Valid() && a in Attackers(b, t, epsq, to, att)
    ensures IsAttacked(b, t, epsq, to, att)
  {
    var bishops, rooks, queens := PieceAttacks(b, t, Bishop, to), PieceAttacks(b, t, Rook, to), Men(b, att, Queen);
    assert a in (bishops + rooks) * queens ==>
        a in rooks * (Men(b, att, Rook) + queens) || a in bishops * (Men(b, att, Bishop) + queens);
    assert a in rooks * Men(b, att, Rook) ==> a in rooks * (Men(b, att, Rook) + queens);
    assert a in bishops * Men(b, att, Bishop) ==> a in bishops * (Men(b, att, Bishop) + queens);
  }

  lemma AttackerOf(b: Bitboards, t: AttackTables, epsq: Option<Square>, to: Square, att: Color) returns (a: Square)
    requires t.Valid() && IsAttacked(b, t, epsq, to, att)
    ensures a in Attackers(b, t, epsq, to, att)
  {
    if PieceAttacks(b, t, Rook, to) * (Men(b, att, Rook) + Men(b, att, Queen)) != {} {
      a :| a in PieceAttacks(b, t, Rook, to) * (Men(b, att, Rook) + Men(b, att, Queen));
    } else if PieceAttacks(b, t, Bishop, to) * (Men(b, att, Bishop) + Men(b, att, Queen)) != {} {
      a :| a in PieceAttacks(b, t, Bishop, to) * (Men(b, att, Bishop) + Men(b, att, Queen));
    } else if PawnCaptures(b, t, epsq, to, att.Other()) * Men(b, att, Pawn) != {} {
      a :| a in PawnCaptures(b, t, epsq, to, att.Other()) * Men(b, att, Pawn);
    } else if PieceAttacks(b, t, Knight, to) * Men(b, att, Knight) != {} {
      a :| a in PieceAttacks(b, t, Knight, to) * Men(b, att, Knight);
    } else {
      a :| a in PieceAttacks(b, t, King, to) * Men(b, att, King);
    }
  }

  // is_attacked tells exactly whether some man of the side attacks the square.
  lemma IsAttackedIs(b: Bitboards, t: AttackTables, men: Placement, epsq: Option<Square>, to: Square, att: Color)
    requires t.Valid() && b == BitboardsOf(men)
    ensures IsAttacked(b, t, epsq, to, att) <==> Attacked(men, to, att)
  {
    if IsAttacked(b, t, epsq, to, att) {
      var a := AttackerOf(b, t, epsq, to, att);
      AttackersAre(b, t, men, epsq, to, att, a);
    }
    if a: Square :| AttackedFrom(men, a, to, att) {
      AttackersAre(b, t, men, epsq, to, att, a);
      AttackerShows(b, t, epsq, to, att, a);
    }
  }
}
