// The move generators (src/chess/board_generate.cc).
module MoveGen {
  import opened Basic
  import opened Geometry
  import opened Moves
  import opened Rules
  import opened Tables
  import opened Mirror
  import opened AttackQueries
  import opened MoveLists
  import opened BoardState

  // The fields of a board that the generators read.
  datatype Seen = Seen(bits: Bitboards, side: Color, flags: set<Right>, epsq: Option<Square>, king: PerColor<Option<Square>>)

  ghost predicate Sees(v: Seen, p: Position) {
    && v.bits == BitboardsOf(p.men) && v.side == p.side && v.flags == p.flags && v.epsq == p.epsq
    && KingsAt(p.men, v.king)
  }

  function See(b: Board): Seen
    reads b
  {
    Seen(b.bits, b.side, b.flags, b.epsq, b.king)
  }

  lemma BoardSees(b: Board, p: Position)
    requires b.Shows(p)
    ensures Sees(See(b), p)
  {}

  // ---- Moves of pieces --------------------------------------------------------------------

  // The squares of one's men of a kind.
  ghost function Own(p: Position, pc: Piece): Bitboard {
    SquaresOf(p.men, Man(p.side, pc))
  }

  // The squares a piece can capture on, or move to without capturing.
  ghost function Targets(p: Position, pc: Piece, from: Square, caps: bool): Bitboard {
    if caps then Reached(p.men, pc, from) * ColorSquares(p.men, p.side.Other())
    else Reached(p.men, pc, from) - p.men.Keys
  }

  // m goes from one square to one of some target squares.
  predicate GoesTo(p: Position, pc: Piece, from: Square, targets: Bitboard, caps: bool, m: Move) {
    if caps then m.Capture? && m.p == pc && m.f == from && m.t in targets && m.t in p.men && m.cap == p.men[m.t].piece
    else m.Normal? && m.p == pc && m.f == from && m.t in targets
  }

  ghost predicate PieceMove(p: Position, pc: Piece, froms: Bitboard, caps: bool, m: Move) {
    (m.Capture? || m.Normal?) && m.f in froms && GoesTo(p, pc, m.f, Targets(p, pc, m.f, caps), caps, m)
  }

  // The inner loop over the target squares.
  method AddTargets(v: Seen, list: Movelist, pc: Piece, from: Square, to_bb: Bitboard, caps: bool, ghost p: Position)
    requires Sees(v, p) && list.Valid() && Distinct(list.all)
    requires caps ==> to_bb <= p.men.Keys
    requires forall m :: m in list.all ==> !GoesTo(p, pc, from, to_bb, caps, m)
    modifies list
    ensures list.Valid() && Distinct(list.all)
    ensures forall m :: m in list.all <==> m in old(list.all) || GoesTo(p, pc, from, to_bb, caps, m)
  {
    var bb := to_bb;
    while bb != {}
      invariant bb <= to_bb && list.Valid() && Distinct(list.all)
      invariant forall m :: m in list.all <==> m in old(list.all) || GoesTo(p, pc, from, to_bb - bb, caps, m)
      decreases bb
    {
      var to :| to in bb;
      bb := bb - {to};
      PieceAtIs(v.bits, p.men, to);
      var mov := if caps then Capture(from, to, pc, PieceAt(v.bits, to).value) else Normal(from, to, pc);
      assert GoesTo(p, pc, from, to_bb, caps, mov);
      list.Add(mov);
    }
    assert to_bb - bb == to_bb;
  }

  function TargetBits(v: Seen, t: AttackTables, pc: Piece, from: Square, caps: bool): Bitboard
    requires t.Valid() && pc != Pawn
    reads t.attackBb, t.pawnCaptBb, t.rayBb, t.rotAtk0, t.rotAtkL90, t.rotAtkL45, t.rotAtkR45
  {
    if caps then PieceAttacks(v.bits, t, pc, from) * v.bits.positionAll.Get(v.side.Other())
    else PieceAttacks(v.bits, t, pc, from) - v.bits.occupied
  }

  lemma TargetBitsAre(v: Seen, t: AttackTables, pc: Piece, from: Square, caps: bool, p: Position)
    requires t.Valid() && pc != Pawn && Sees(v, p)
    ensures TargetBits(v, t, pc, from, caps) == Targets(p, pc, from, caps)
    ensures caps ==> Targets(p, pc, from, caps) <= p.men.Keys
  {
    PieceAttacksAre(v.bits, t, p.men, pc, from);
    match p.side { case White => case Black => }
  }

  lemma OneMoreSquare(p: Position, pc: Piece, done: Bitboard, from: Square, caps: bool)
    ensures forall m :: PieceMove(p, pc, done + {from}, caps, m)
              <==> PieceMove(p, pc, done, caps, m) || GoesTo(p, pc, from, Targets(p, pc, from, caps), caps, m)
  {}

  // The loop over the squares of one kind of piece.
  method AddPieceMoves(v: Seen, t: AttackTables, list: Movelist, pc: Piece, from_bb: Bitboard, caps: bool, ghost p: Position)
    requires Sees(v, p) && t.Valid() && pc != Pawn && list.Valid() && Distinct(list.all)
    requires forall m :: m in list.all ==> !PieceMove(p, pc, from_bb, caps, m)
    modifies list
    ensures list.Valid() && Distinct(list.all)
    ensures forall m :: m in list.all <==> m in old(list.all) || PieceMove(p, pc, from_bb, caps, m)
  {
    var bb := from_bb;
    while bb != {}
      invariant bb <= from_bb && list.Valid() && Distinct(list.all)
      invariant forall m :: m in list.all <==> m in old(list.all) || PieceMove(p, pc, from_bb - bb, caps, m)
      decreases bb
    {
      var from :| from in bb;
      ghost var done := from_bb - bb;
      bb := bb - {from};
      TargetBitsAre(v, t, pc, from, caps, p);
      AddTargets(v, list, pc, from, TargetBits(v, t, pc, from, caps), caps, p);
      OneMoreSquare(p, pc, done, from, caps);
      assert from_bb - bb == done + {from};
    }
    assert from_bb - bb == from_bb;
  }

  // ---- Promotions -------------------------------------------------------------------------

  ghost function PawnTargets(p: Position, from: Square, caps: bool): (bb: Bitboard)
    ensures forall u: Square :: u in bb <==>
              if caps then PawnStep(p.side, from, u) && u in p.men && p.men[u].color == p.side.Other()
              else PawnAdvance(p.men, p.side, from, u)
  {
    if caps then set u | u in AllSquares() && PawnStep(p.side, from, u) && u in p.men && p.men[u].color == p.side.Other()
    else set u | u in AllSquares() && PawnAdvance(p.men, p.side, from, u)
  }

  predicate PromotesTo(p: Position, from: Square, targets: Bitboard, caps: bool, allpromo: bool, m: Move) {
    if caps then
      && m.PromoCapture? && m.f == from && m.t in targets && m.t in p.men && m.cap == p.men[m.t].piece
      && PromotionPiece(m.promo, allpromo)
    else
      m.Promotion? && m.f == from && m.t in targets && PromotionPiece(m.promo, allpromo)
  }

  ghost predicate PromotionMove(p: Position, froms: Bitboard, allpromo: bool, m: Move) {
    m.IsPromotion() && m.f in froms && PromotesTo(p, m.f, PawnTargets(p, m.f, m.PromoCapture?), m.PromoCapture?, allpromo, m)
  }

  function PromotionTo(from: Square, to: Square, q: Piece, cap: Option<Piece>): Move {
    match cap case None => Promotion(from, to, q) case Some(c) => PromoCapture(from, to, q, c)
  }

  // The two or four promotions of a pawn on one square.
  method AddPromotions(list: Movelist, from: Square, to: Square, cap: Option<Piece>, allpromo: bool)
    requires list.Valid() && Distinct(list.all)
    requires forall q :: PromotionPiece(q, true) ==> PromotionTo(from, to, q, cap) !in list.all
    modifies list
    ensures list.Valid() && Distinct(list.all)
    ensures forall m :: m in list.all <==>
              m in old(list.all) || (m.IsPromotion() && PromotionPiece(m.promo, allpromo) && m == PromotionTo(from, to, m.promo, cap))
  {
    list.Add(PromotionTo(from, to, Queen, cap));
    list.Add(PromotionTo(from, to, Knight, cap));
    if allpromo {
      list.Add(PromotionTo(from, to, Bishop, cap));
      list.Add(PromotionTo(from, to, Rook, cap));
    }
  }

  method AddPromotionTargets(v: Seen, list: Movelist, from: Square, to_bb: Bitboard, caps: bool, allpromo: bool,
                             ghost p: Position)
    requires Sees(v, p) && list.Valid() && Distinct(list.all)
    requires caps ==> to_bb <= p.men.Keys
    requires forall m :: m in list.all ==> !PromotesTo(p, from, to_bb, caps, true, m)
    modifies list
    ensures list.Valid() && Distinct(list.all)
    ensures forall m :: m in list.all <==> m in old(list.all) || PromotesTo(p, from, to_bb, caps, allpromo, m)
  {
    var bb := to_bb;
    while bb != {}
      invariant bb <= to_bb && list.Valid() && Distinct(list.all)
      invariant forall m :: m in list.all <==> m in old(list.all) || PromotesTo(p, from, to_bb - bb, caps, allpromo, m)
      decreases bb
    {
      var to :| to in bb;
      ghost var done := to_bb - bb;
      bb := bb - {to};
      PieceAtIs(v.bits, p.men, to);
      var cap := if caps then PieceAt(v.bits, to) else None;
      forall q | PromotionPiece(q, true) ensures PromotionTo(from, to, q, cap) !in list.all {
        assert PromotesTo(p, from, to_bb, caps, true, PromotionTo(from, to, q, cap));
      }
      AddPromotions(list, from, to, cap, allpromo);
    }
    assert to_bb - bb == to_bb;
  }

  lemma PawnTargetBits(v: Seen, t: AttackTables, from: Square, p: Position)
    requires t.Valid() && Sees(v, p) && 0 <= from.rnk + Forward(p.side) < 8
    ensures PawnNoncaptures(v.bits, from, v.side) == PawnTargets(p, from, false)
    ensures PawnCaptures(v.bits, t, v.epsq, from, v.side) * v.bits.positionAll.Get(v.side.Other()) == PawnTargets(p, from, true)
    ensures PawnTargets(p, from, true) <= p.men.Keys
  {
    forall u: Square
      ensures u in PawnNoncaptures(v.bits, from, v.side) <==> u in PawnTargets(p, from, false)
      ensures u in PawnCaptures(v.bits, t, v.epsq, from, v.side) * v.bits.positionAll.Get(v.side.Other())
         <==> u in PawnTargets(p, from, true)
    {
      PawnNoncapturesAre(v.bits, p.men, from, v.side, u);
      PawnCapturesAre(v.bits, t, p.men, v.epsq, from, v.side, u);
      match p.side { case White => case Black => }
    }
  }

  lemma OneMorePromoter(p: Position, done: Bitboard, from: Square, allpromo: bool)
    ensures forall m :: PromotionMove(p, done + {from}, allpromo, m)
              <==> (|| PromotionMove(p, done, allpromo, m)
                    || PromotesTo(p, from, PawnTargets(p, from, true), true, allpromo, m)
                    || PromotesTo(p, from, PawnTargets(p, from, false), false, allpromo, m))
  {}

  method AddPromotionsFrom(v: Seen, t: AttackTables, list: Movelist, from: Square, allpromo: bool, ghost p: Position)
    requires Sees(v, p) && t.Valid() && list.Valid() && Distinct(list.all) && 0 <= from.rnk + Forward(p.side) < 8
    requires forall m :: m in list.all && m.IsPromotion() ==> m.f != from
    modifies list
    ensures list.Valid() && Distinct(list.all)
    ensures forall m :: m in list.all <==>
              (|| m in old(list.all)
               || PromotesTo(p, from, PawnTargets(p, from, true), true, allpromo, m)
               || PromotesTo(p, from, PawnTargets(p, from, false), false, allpromo, m))
  {
    PawnTargetBits(v, t, from, p);
    AddPromotionTargets(v, list, from, PawnCaptures(v.bits, t, v.epsq, from, v.side) * v.bits.positionAll.Get(v.side.Other()),
                        true, allpromo, p);
    AddPromotionTargets(v, list, from, PawnNoncaptures(v.bits, from, v.side), false, allpromo, p);
  }

  method AddPromotionMoves(v: Seen, t: AttackTables, list: Movelist, from_bb: Bitboard, allpromo: bool, ghost p: Position)
    requires Sees(v, p) && t.Valid() && list.Valid() && Distinct(list.all)
    requires forall s :: s in from_bb ==> 0 <= s.rnk + Forward(p.side) < 8
    requires forall m :: m in list.all ==> !m.IsPromotion()
    modifies list
    ensures list.Valid() && Distinct(list.all)
    ensures forall m :: m in list.all <==> m in old(list.all) || PromotionMove(p, from_bb, allpromo, m)
  {
    var bb := from_bb;
    while bb != {}
      invariant bb <= from_bb && list.Valid() && Distinct(list.all)
      invariant forall m :: m in list.all <==> m in old(list.all) || PromotionMove(p, from_bb - bb, allpromo, m)
      decreases bb
    {
      var from :| from in bb;
      ghost var done := from_bb - bb;
      bb := bb - {from};
      OneMorePromoter(p, done, from, allpromo);
      assert from_bb - bb == done + {from};
      AddPromotionsFrom(v, t, list, from, allpromo, p);
    }
    assert from_bb - bb == from_bb;
  }

  // ---- Other pawn moves -------------------------------------------------------------------

  predicate PawnCapturesTo(p: Position, from: Square, targets: Bitboard, m: Move) {
    || (m.EnPassant? && m.f == from && m.t in targets && p.epsq == Some(m.t))
    || (m.Capture? && m.p == Pawn && m.f == from && m.t in targets && m.t in p.men && m.cap == p.men[m.t].piece)
  }

  // The squares on which a pawn can capture, with the en-passant square.
  ghost function PawnPrey(p: Position, from: Square): (bb: Bitboard)
    ensures forall u: Square :: u in bb <==>
              PawnStep(p.side, from, u) && (p.epsq == Some(u) || u in p.men) && !(u in p.men && p.men[u].color == p.side)
  {
    set u | u in AllSquares() && PawnStep(p.side, from, u) && (p.epsq == Some(u) || u in p.men)
            && !(u in p.men && p.men[u].color == p.side)
  }

  ghost predicate PawnCaptureMove(p: Position, froms: Bitboard, m: Move) {
    (m.EnPassant? || m.Capture?) && m.f in froms && PawnCapturesTo(p, m.f, PawnPrey(p, m.f), m)
  }

  lemma PawnPreyBits(v: Seen, t: AttackTables, from: Square, p: Position)
    requires t.Valid() && Sees(v, p)
    ensures PawnCaptures(v.bits, t, v.epsq, from, v.side) - v.bits.positionAll.Get(v.side) == PawnPrey(p, from)
  {
    forall u: Square
      ensures u in PawnCaptures(v.bits, t, v.epsq, from, v.side) - v.bits.positionAll.Get(v.side) <==> u in PawnPrey(p, from)
    {
      PawnCapturesAre(v.bits, t, p.men, v.epsq, from, v.side, u);
      match p.side { case White => case Black => }
    }
  }

  method AddPawnTargets(v: Seen, list: Movelist, from: Square, to_bb: Bitboard, ghost p: Position)
    requires Sees(v, p) && list.Valid() && Distinct(list.all) && (p.epsq.Some? ==> p.epsq.value !in p.men)
    requires forall u :: u in to_bb ==> p.epsq == Some(u) || u in p.men
    requires forall m :: m in list.all ==> !PawnCapturesTo(p, from, to_bb, m)
    modifies list
    ensures list.Valid() && Distinct(list.all)
    ensures forall m :: m in list.all <==> m in old(list.all) || PawnCapturesTo(p, from, to_bb, m)
  {
    var bb := to_bb;
    while bb != {}
      invariant bb <= to_bb && list.Valid() && Distinct(list.all)
      invariant forall m :: m in list.all <==> m in old(list.all) || PawnCapturesTo(p, from, to_bb - bb, m)
      decreases bb
    {
      var to :| to in bb;
      bb := bb - {to};
      PieceAtIs(v.bits, p.men, to);
      var mov := if Some(to) == v.epsq then EnPassant(from, to) else Capture(from, to, Pawn, PieceAt(v.bits, to).value);
      assert PawnCapturesTo(p, from, to_bb, mov);
      list.Add(mov);
    }
    assert to_bb - bb == to_bb;
  }

  lemma OneMorePawn(p: Position, done: Bitboard, from: Square)
    ensures forall m :: PawnCaptureMove(p, done + {from}, m)
              <==> PawnCaptureMove(p, done, m) || PawnCapturesTo(p, from, PawnPrey(p, from), m)
  {}

  method AddPawnCaptures(v: Seen, t: AttackTables, list: Movelist, from_bb: Bitboard, ghost p: Position)
    requires Sees(v, p) && t.Valid() && list.Valid() && Distinct(list.all) && (p.epsq.Some? ==> p.epsq.value !in p.men)
    requires forall m :: m in list.all ==> !PawnCaptureMove(p, from_bb, m)
    modifies list
    ensures list.Valid() && Distinct(list.all)
    ensures forall m :: m in list.all <==> m in old(list.all) || PawnCaptureMove(p, from_bb, m)
  {
    var bb := from_bb;
    while bb != {}
      invariant bb <= from_bb && list.Valid() && Distinct(list.all)
      invariant forall m :: m in list.all <==> m in old(list.all) || PawnCaptureMove(p, from_bb - bb, m)
      decreases bb
    {
      var from :| from in bb;
      ghost var done := from_bb - bb;
      bb := bb - {from};
      OneMorePawn(p, done, from);
      assert from_bb - bb == done + {from};
      PawnPreyBits(v, t, from, p);
      AddPawnTargets(v, list, from, PawnCaptures(v.bits, t, v.epsq, from, v.side) - v.bits.positionAll.Get(v.side), p);
    }
    assert from_bb - bb == from_bb;
  }

  ghost predicate PawnPushMove(p: Position, froms: Bitboard, m: Move) {
    m.Normal? && m.f in froms && GoesTo(p, Pawn, m.f, PawnTargets(p, m.f, false), false, m)
  }

  lemma OneMorePusher(p: Position, done: Bitboard, from: Square)
    ensures forall m :: PawnPushMove(p, done + {from}, m)
              <==> PawnPushMove(p, done, m) || GoesTo(p, Pawn, from, PawnTargets(p, from, false), false, m)
  {}

  method AddPawnPushes(v: Seen, t: AttackTables, list: Movelist, from_bb: Bitboard, ghost p: Position)
    requires Sees(v, p) && t.Valid() && list.Valid() && Distinct(list.all)
    requires forall s :: s in from_bb ==> 0 <= s.rnk + Forward(p.side) < 8
    requires forall m :: m in list.all ==> !PawnPushMove(p, from_bb, m)
    modifies list
    ensures list.Valid() && Distinct(list.all)
    ensures forall m :: m in list.all <==> m in old(list.all) || PawnPushMove(p, from_bb, m)
  {
    var bb := from_bb;
    while bb != {}
      invariant bb <= from_bb && list.Valid() && Distinct(list.all)
      invariant forall m :: m in list.all <==> m in old(list.all) || PawnPushMove(p, from_bb - bb, m)
      decreases bb
    {
      var from :| from in bb;
      ghost var done := from_bb - bb;
      bb := bb - {from};
      OneMorePusher(p, done, from);
      assert from_bb - bb == done + {from};
      PawnTargetBits(v, t, from, p);
      AddTargets(v, list, Pawn, from, PawnNoncaptures(v.bits, from, v.side), false, p);
    }
    assert from_bb - bb == from_bb;
  }

  // ---- Castling ---------------------------------------------------------------------------

  function RayClear(v: Seen, t: AttackTables, a: Square, b: Square): bool
    requires t.Valid()
    reads t.attackBb, t.pawnCaptBb, t.rayBb, t.rotAtk0, t.rotAtkL90, t.rotAtkL45, t.rotAtkR45
  {
    v.bits.occupied * t.rayBb[Index(a), Index(b)] == {}
  }

  lemma RayClearIs(v: Seen, t: AttackTables, a: Square, b: Square, p: Position)
    requires t.Valid() && Sees(v, p)
    ensures RayClear(v, t, a, b) <==> Clear(p.men.Keys, a, b)
  {
    assert t.RayOk(a, b);
    var ray := t.rayBb[Index(a), Index(b)];
    if !RayClear(v, t, a, b) {
      var c: Square :| c in v.bits.occupied * ray;
      assert Btw(a, c, b);
    } else {
      forall c: Square | Btw(a, c, b) ensures c !in p.men.Keys {
        assert c !in v.bits.occupied * ray;
      }
    }
  }

  // Board::in_check, for a side that has its king.
  function InCheck(v: Seen, t: AttackTables): bool
    requires t.Valid() && v.king.Get(v.side).Some?
    reads t.attackBb, t.pawnCaptBb, t.rayBb, t.rotAtk0, t.rotAtkL90, t.rotAtkL45, t.rotAtkR45
  {
    IsAttacked(v.bits, t, v.epsq, v.king.Get(v.side).value, v.side.Other())
  }

  lemma KingSeen(v: Seen, p: Position)
    requires Sees(v, p) && HasSoleKing(p.men, p.side)
    ensures v.king.Get(v.side) == Some(TheKing(p.men, p.side))
  {}

  lemma InCheckIs(v: Seen, t: AttackTables, p: Position)
    requires t.Valid() && Sees(v, p) && HasSoleKing(p.men, p.side)
    ensures v.king.Get(v.side).Some? && (InCheck(v, t) <==> KingAttacked(p.men, p.side))
  {
    KingSeen(v, p);
    var k := TheKing(p.men, p.side);
    IsAttackedIs(v.bits, t, p.men, v.epsq, k, v.side.Other());
    if KingAttacked(p.men, p.side) {
      var s: Square :| KingOn(p.men, p.side, s) && Attacked(p.men, s, p.side.Other());
      assert s == k;
    } else {
      assert KingOn(p.men, p.side, k);
    }
  }

  // Board::is_legal, for a board on which the side not to move has its king.
  function IsLegal(v: Seen, t: AttackTables): bool
    requires t.Valid() && v.king.Get(v.side.Other()).Some?
    reads t.attackBb, t.pawnCaptBb, t.rayBb, t.rotAtk0, t.rotAtkL90, t.rotAtkL45, t.rotAtkR45
  {
    !IsAttacked(v.bits, t, v.epsq, v.king.Get(v.side.Other()).value, v.side)
  }

  // On the board after a move, is_legal tells whether the side that moved has left its king attacked.
  lemma IsLegalIs(v: Seen, t: AttackTables, p: Position, m: Move)
    requires t.Valid() && |p.moveCount| == SQUARES && Sees(v, Make(p, m)) && HasSoleKing(MenAfter(p, m), p.side)
    ensures v.king.Get(v.side.Other()).Some? && (IsLegal(v, t) <==> LegalAfter(p, m))
  {
    var men := MenAfter(p, m);
    var k := TheKing(men, p.side);
    match p.side { case White => case Black => }
    assert KingOn(men, p.side, k);
    IsAttackedIs(v.bits, t, men, v.epsq, k, v.side);
    if KingAttacked(men, p.side) {
      var s: Square :| KingOn(men, p.side, s) && Attacked(men, s, p.side.Other());
      assert s == k;
    }
  }

  function CastleBy(r: Right): Move {
    Castle(KingHome(r), KingGoal(r))
  }

  // The tests for one castling right, apart from being in check.
  function CastleAllowed(v: Seen, t: AttackTables, r: Right): bool
    requires t.Valid()
    reads t.attackBb, t.pawnCaptBb, t.rayBb, t.rotAtk0, t.rotAtkL90, t.rotAtkL45, t.rotAtkR45
  {
    r in v.flags && RayClear(v, t, KingHome(r), RookHome(r)) && !IsAttacked(v.bits, t, v.epsq, RookGoal(r), v.side.Other())
  }

  lemma CastleAllowedIs(v: Seen, t: AttackTables, r: Right, p: Position)
    requires Sees(v, p) && t.Valid() && RightSide(r) == p.side && !KingAttacked(p.men, p.side)
    ensures CastleAllowed(v, t, r) <==> MayCastle(p, r)
  {
    RayClearIs(v, t, KingHome(r), RookHome(r), p);
    IsAttackedIs(v.bits, t, p.men, v.epsq, RookGoal(r), v.side.Other());
  }

  ghost predicate CastleMove(p: Position, m: Move) {
    m.Castle? && Pseudo(p, m, true)
  }

  // The castling moves are those of the two rights of the side to move.
  lemma CastleMoveIff(p: Position, m: Move)
    ensures CastleMove(p, m) <==>
            (if p.side == White then (m == CastleBy(WK) && MayCastle(p, WK)) || (m == CastleBy(WQ) && MayCastle(p, WQ))
             else (m == CastleBy(BK) && MayCastle(p, BK)) || (m == CastleBy(BQ) && MayCastle(p, BQ)))
  {}

  method AddIf(list: Movelist, ok: bool, m: Move)
    requires list.Valid() && Distinct(list.all) && m !in list.all
    modifies list
    ensures list.Valid() && Distinct(list.all)
    ensures forall x :: x in list.all <==> x in old(list.all) || (ok && x == m)
  {
    if ok {
      list.Add(m);
    }
  }

  lemma NoCastleInCheck(p: Position, m: Move)
    requires KingAttacked(p.men, p.side)
    ensures !CastleMove(p, m)
  {}

  method GenerateCastling(v: Seen, t: AttackTables, list: Movelist, ghost p: Position)
    requires Sees(v, p) && t.Valid() && HasSoleKing(p.men, p.side) && list.Valid() && Distinct(list.all)
    requires forall m :: m in list.all ==> !m.Castle?
    modifies list
    ensures list.Valid() && Distinct(list.all)
    ensures forall m :: m in list.all <==> m in old(list.all) || CastleMove(p, m)
  {
    InCheckIs(v, t, p);
    ghost var was := list.all;
    if InCheck(v, t) {
      forall m ensures !CastleMove(p, m) { NoCastleInCheck(p, m); }
      return;
    }
    AddCastling(v, t, list, p);
  }

  method AddCastling(v: Seen, t: AttackTables, list: Movelist, ghost p: Position)
    requires Sees(v, p) && t.Valid() && !KingAttacked(p.men, p.side) && list.Valid() && Distinct(list.all)
    requires forall m :: m in list.all ==> !m.Castle?
    modifies list
    ensures list.Valid() && Distinct(list.all)
    ensures forall m :: m in list.all <==> m in old(list.all) || CastleMove(p, m)
  {
    var r := if v.side == White then WK else BK;
    var s := if v.side == White then WQ else BQ;
    CastleMovesSeen(v, t, p, r, s);
    var k, q := CastleAllowed(v, t, r), CastleAllowed(v, t, s);
    AddIf(list, k, CastleBy(r));
    AddIf(list, q, CastleBy(s));
  }

  lemma CastleMovesSeen(v: Seen, t: AttackTables, p: Position, r: Right, s: Right)
    requires Sees(v, p) && t.Valid() && !KingAttacked(p.men, p.side)
    requires r == (if p.side == White then WK else BK) && s == (if p.side == White then WQ else BQ)
    ensures forall m :: CastleMove(p, m) <==>
              (CastleAllowed(v, t, r) && m == CastleBy(r)) || (CastleAllowed(v, t, s) && m == CastleBy(s))
    ensures CastleBy(r) != CastleBy(s)
  {
    forall m
      ensures CastleMove(p, m) <==>
              (CastleAllowed(v, t, r) && m == CastleBy(r)) || (CastleAllowed(v, t, s) && m == CastleBy(s))
    {
      CastleMoveSeen(v, t, p, m);
    }
  }

  lemma CastleMoveSeen(v: Seen, t: AttackTables, p: Position, m: Move)
    requires Sees(v, p) && t.Valid() && !KingAttacked(p.men, p.side)
    ensures CastleMove(p, m) <==>
            (if p.side == White then (CastleAllowed(v, t, WK) && m == CastleBy(WK)) || (CastleAllowed(v, t, WQ) && m == CastleBy(WQ))
             else (CastleAllowed(v, t, BK) && m == CastleBy(BK)) || (CastleAllowed(v, t, BQ) && m == CastleBy(BQ)))
  {
    CastleMoveIff(p, m);
    if p.side == White {
      CastleAllowedIs(v, t, WK, p);
      CastleAllowedIs(v, t, WQ, p);
    } else {
      CastleAllowedIs(v, t, BK, p);
      CastleAllowedIs(v, t, BQ, p);
    }
  }

  // ---- All pieces -------------------------------------------------------------------------

  ghost predicate OfficerMove(p: Position, pc: Piece, caps: bool, m: Move) {
    PieceMove(p, pc, Own(p, pc), caps, m)
  }

  method AddOfficers(v: Seen, t: AttackTables, list: Movelist, pc: Piece, caps: bool, ghost p: Position)
    requires Sees(v, p) && t.Valid() && pc != Pawn && list.Valid() && Distinct(list.all)
    requires forall m :: m in list.all ==> !OfficerMove(p, pc, caps, m)
    modifies list
    ensures list.Valid() && Distinct(list.all)
    ensures forall m :: m in list.all <==> m in old(list.all) || OfficerMove(p, pc, caps, m)
  {
    OwnBits(v, p, pc);
    AddPieceMoves(v, t, list, pc, Men(v.bits, v.side, pc), caps, p);
  }

  lemma OwnBits(v: Seen, p: Position, pc: Piece)
    requires Sees(v, p)
    ensures Men(v.bits, v.side, pc) == Own(p, pc)
  {}

  // The king is found by its field, not by its bitboard.
  method AddKing(v: Seen, t: AttackTables, list: Movelist, caps: bool, ghost p: Position)
    requires Sees(v, p) && t.Valid() && HasSoleKing(p.men, p.side) && list.Valid() && Distinct(list.all)
    requires forall m :: m in list.all ==> !OfficerMove(p, King, caps, m)
    modifies list
    ensures list.Valid() && Distinct(list.all)
    ensures forall m :: m in list.all <==> m in old(list.all) || OfficerMove(p, King, caps, m)
  {
    KingSeen(v, p);
    var k := v.king.Get(v.side).value;
    OnlyKing(p, k, caps);
    TargetBitsAre(v, t, King, k, caps, p);
    AddTargets(v, list, King, k, TargetBits(v, t, King, k, caps), caps, p);
  }

  lemma OnlyKing(p: Position, k: Square, caps: bool)
    requires SoleKing(p.men, p.side, k)
    ensures forall m :: OfficerMove(p, King, caps, m) <==> GoesTo(p, King, k, Targets(p, King, k, caps), caps, m)
  {
    forall s: Square ensures s in Own(p, King) <==> s == k {
      assert s in Own(p, King) <==> KingOn(p.men, p.side, s);
    }
  }

  // Knights, bishops, rooks, queens and the king.
  method AddAllOfficers(v: Seen, t: AttackTables, list: Movelist, caps: bool, ghost p: Position)
    requires Sees(v, p) && t.Valid() && HasSoleKing(p.men, p.side) && list.Valid() && Distinct(list.all)
    requires forall m :: m in list.all ==> !AnyOfficerMove(p, caps, m)
    modifies list
    ensures list.Valid() && Distinct(list.all)
    ensures forall m :: m in list.all <==> m in old(list.all) || AnyOfficerMove(p, caps, m)
  {
    ghost var was := list.all;
    OfficersApart(p, caps);
    AddOfficers(v, t, list, Knight, caps, p);
    AddOfficers(v, t, list, Bishop, caps, p);
    AddOfficers(v, t, list, Rook, caps, p);
    AddOfficers(v, t, list, Queen, caps, p);
    AddKing(v, t, list, caps, p);
  }

  ghost predicate AnyOfficerMove(p: Position, caps: bool, m: Move) {
    (m.Capture? || m.Normal?) && m.p != Pawn && OfficerMove(p, m.p, caps, m)
  }

  lemma OfficersApart(p: Position, caps: bool)
    ensures forall pc, m :: OfficerMove(p, pc, caps, m) ==> (m.Capture? || m.Normal?) && m.p == pc
    ensures forall m :: AnyOfficerMove(p, caps, m) <==>
              (|| OfficerMove(p, Knight, caps, m) || OfficerMove(p, Bishop, caps, m) || OfficerMove(p, Rook, caps, m)
               || OfficerMove(p, Queen, caps, m) || OfficerMove(p, King, caps, m))
  {}

  // ---- The generators ---------------------------------------------------------------------

  function RankBits(r: int): Bitboard {
    set s | s in AllSquares() && s.rnk == r
  }

  // Moves that change the material on the board.
  predicate Noisy(m: Move) {
    m.Capture? || m.EnPassant? || m.IsPromotion()
  }

  ghost predicate NoisyMove(p: Position, allpromo: bool, m: Move) {
    Noisy(m) && Pseudo(p, m, allpromo)
  }

  ghost predicate StillMove(p: Position, m: Move) {
    !Noisy(m) && Pseudo(p, m, true)
  }

  lemma PawnsHaveRoom(p: Position, s: Square)
    requires PawnsOff(p.men) && s in Own(p, Pawn)
    ensures 0 <= s.rnk + Forward(p.side) < 8
  {}

  lemma NoisyParts(p: Position, allpromo: bool, m: Move)
    requires Orderly(p)
    ensures NoisyMove(p, allpromo, m) <==>
            (|| PromotionMove(p, Own(p, Pawn) * RankBits(SeventhRank(p.side)), allpromo, m)
             || PawnCaptureMove(p, Own(p, Pawn) - RankBits(SeventhRank(p.side)), m)
             || AnyOfficerMove(p, true, m))
    ensures PromotionMove(p, Own(p, Pawn) * RankBits(SeventhRank(p.side)), allpromo, m) ==> m.IsPromotion()
    ensures PawnCaptureMove(p, Own(p, Pawn) - RankBits(SeventhRank(p.side)), m) ==> m.EnPassant? || (m.Capture? && m.p == Pawn)
    ensures AnyOfficerMove(p, true, m) ==> m.Capture? && m.p != Pawn
  {}

  lemma StillParts(p: Position, m: Move)
    ensures StillMove(p, m) <==>
            (|| CastleMove(p, m)
             || PawnPushMove(p, Own(p, Pawn) - RankBits(SeventhRank(p.side)), m)
             || AnyOfficerMove(p, false, m))
    ensures PawnPushMove(p, Own(p, Pawn) - RankBits(SeventhRank(p.side)), m) ==> m.Normal? && m.p == Pawn
    ensures AnyOfficerMove(p, false, m) ==> m.Normal? && m.p != Pawn
  {}

  // generate_captures adds, each once, exactly the pseudo-legal captures and promotions.
  method GenerateCaptures(v: Seen, t: AttackTables, list: Movelist, allpromo: bool, ghost p: Position)
    requires Sees(v, p) && t.Valid() && Orderly(p) && list.Valid() && Distinct(list.all)
    requires forall m :: m in list.all ==> !Noisy(m)
    modifies list
    ensures list.Valid() && Distinct(list.all)
    ensures forall m :: m in list.all <==> m in old(list.all) || NoisyMove(p, allpromo, m)
  {
    OwnBits(v, p, Pawn);
    var pawns, seventh := Men(v.bits, v.side, Pawn), RankBits(SeventhRank(v.side));
    forall s | s in Own(p, Pawn) ensures 0 <= s.rnk + Forward(p.side) < 8 { PawnsHaveRoom(p, s); }
    forall m
      ensures NoisyMove(p, allpromo, m) <==> (|| PromotionMove(p, pawns * seventh, allpromo, m)
                                              || PawnCaptureMove(p, pawns - seventh, m) || AnyOfficerMove(p, true, m))
      ensures PromotionMove(p, pawns * seventh, allpromo, m) ==> m.IsPromotion()
      ensures PawnCaptureMove(p, pawns - seventh, m) ==> m.EnPassant? || (m.Capture? && m.p == Pawn)
      ensures AnyOfficerMove(p, true, m) ==> m.Capture? && m.p != Pawn
    {
      NoisyParts(p, allpromo, m);
    }
    AddPromotionMoves(v, t, list, pawns * seventh, allpromo, p);
    AddPawnCaptures(v, t, list, pawns - seventh, p);
    AddAllOfficers(v, t, list, true, p);
  }

  // generate_noncaptures adds, each once, exactly the other pseudo-legal moves.
  method GenerateNoncaptures(v: Seen, t: AttackTables, list: Movelist, ghost p: Position)
    requires Sees(v, p) && t.Valid() && Orderly(p) && list.Valid() && Distinct(list.all)
    requires forall m :: m in list.all ==> Noisy(m)
    modifies list
    ensures list.Valid() && Distinct(list.all)
    ensures forall m :: m in list.all <==> m in old(list.all) || StillMove(p, m)
  {
    OwnBits(v, p, Pawn);
    var pawns, seventh := Men(v.bits, v.side, Pawn), RankBits(SeventhRank(v.side));
    forall s | s in Own(p, Pawn) ensures 0 <= s.rnk + Forward(p.side) < 8 { PawnsHaveRoom(p, s); }
    forall m
      ensures StillMove(p, m) <==> (|| CastleMove(p, m) || PawnPushMove(p, pawns - seventh, m) || AnyOfficerMove(p, false, m))
      ensures PawnPushMove(p, pawns - seventh, m) ==> m.Normal? && m.p == Pawn
      ensures AnyOfficerMove(p, false, m) ==> m.Normal? && m.p != Pawn
    {
      StillParts(p, m);
    }
    GenerateCastling(v, t, list, p);
    AddPawnPushes(v, t, list, pawns - seventh, p);
    AddAllOfficers(v, t, list, false, p);
  }

  lemma PseudoParts(p: Position, allpromo: bool, m: Move)
    ensures Pseudo(p, m, allpromo) <==> NoisyMove(p, allpromo, m) || StillMove(p, m)
  {}

  // generate_moves lists every pseudo-legal move exactly once.
  method GenerateMoves(v: Seen, t: AttackTables, list: Movelist, allpromo: bool, ghost p: Position)
    requires Sees(v, p) && t.Valid() && Orderly(p) && list.Valid() && list.all == []
    modifies list
    ensures list.Valid() && Distinct(list.all) && (|list.all| <= MOVELIST_MAXSIZE ==> list.moves == list.all)
    ensures forall m :: m in list.all <==> Pseudo(p, m, allpromo)
  {
    GenerateCaptures(v, t, list, allpromo, p);
    GenerateNoncaptures(v, t, list, p);
    forall m ensures Pseudo(p, m, allpromo) <==> NoisyMove(p, allpromo, m) || StillMove(p, m) {
      PseudoParts(p, allpromo, m);
    }
  }
}
