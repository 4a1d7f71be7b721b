// Positions, moves and legality, stated on the placement of men alone.
module Rules {
  import opened Basic
  import opened Geometry
  import opened Moves

  type Placement = map<Square, Man>

  datatype Right = WK | WQ | BK | BQ

  datatype Position = Position(
    men: Placement,
    side: Color,
    flags: set<Right>,
    epsq: Option<Square>,
    moveno: int,
    movecnt50: int,
    castled: set<Color>,
    moveCount: seq<U32>)

  const SQUARES: nat := 64

  // ---- Castling rights --------------------------------------------------------------------

  function RightSide(r: Right): Color {
    if r == WK || r == WQ then White else Black
  }

  function KingHome(r: Right): Square {
    if RightSide(r) == White then E1 else E8
  }

  function RookHome(r: Right): Square {
    match r
    case WK => H1
    case WQ => A1
    case BK => H8
    case BQ => A8
  }

  function KingGoal(r: Right): Square {
    match r
    case WK => G1
    case WQ => C1
    case BK => G8
    case BQ => C8
  }

  // The square the king passes, where the rook ends.
  function RookGoal(r: Right): Square {
    match r
    case WK => F1
    case WQ => D1
    case BK => F8
    case BQ => D8
  }

  function RightsOf(c: Color): set<Right> {
    if c == White then {WK, WQ} else {BK, BQ}
  }

  // The castling right a castling move uses.
  function RightOfGoal(t: Square): Option<Right> {
    if t == G1 then Some(WK) else if t == C1 then Some(WQ) else if t == G8 then Some(BK) else if t == C8 then Some(BQ) else None
  }

  // ---- Attack and check -------------------------------------------------------------------

  ghost predicate AttackedFrom(men: Placement, a: Square, t: Square, att: Color) {
    a in men && men[a].color == att && Attacks(men[a], men.Keys, a, t)
  }

  ghost predicate Attacked(men: Placement, t: Square, att: Color) {
    exists a: Square :: AttackedFrom(men, a, t, att)
  }

  predicate KingOn(men: Placement, c: Color, k: Square) {
    k in men && men[k] == Man(c, King)
  }

  ghost predicate SoleKing(men: Placement, c: Color, k: Square) {
    KingOn(men, c, k) && forall s: Square :: KingOn(men, c, s) ==> s == k
  }

  ghost predicate HasSoleKing(men: Placement, c: Color) {
    exists k: Square :: SoleKing(men, c, k)
  }

  ghost function TheKing(men: Placement, c: Color): (k: Square)
    requires HasSoleKing(men, c)
    ensures SoleKing(men, c, k)
  {
    var k: Square :| SoleKing(men, c, k);
    k
  }

  ghost predicate KingAttacked(men: Placement, c: Color) {
    exists k: Square :: KingOn(men, c, k) && Attacked(men, k, c.Other())
  }

  // ---- Pseudo-legal moves -----------------------------------------------------------------

  function SeventhRank(c: Color): int {
    if c == White then 6 else 1
  }

  function SecondRank(c: Color): int {
    if c == White then 1 else 6
  }

  predicate Owns(p: Position, s: Square, pc: Piece) {
    s in p.men && p.men[s] == Man(p.side, pc)
  }

  predicate Foe(p: Position, s: Square, pc: Piece) {
    s in p.men && p.men[s] == Man(p.side.Other(), pc)
  }

  // Article 3.7a and 3.7b: one square straight ahead, or two from the second rank.
  predicate PawnAdvance(men: Placement, c: Color, f: Square, t: Square) {
    && t.fil == f.fil && t !in men
    && (|| t.rnk == f.rnk + Forward(c)
        || (f.rnk == SecondRank(c) && t.rnk == f.rnk + 2 * Forward(c) && Sq(f.fil, f.rnk + Forward(c)) !in men))
  }

  predicate PromotionPiece(pc: Piece, allpromo: bool) {
    pc == Queen || pc == Knight || (allpromo && (pc == Bishop || pc == Rook))
  }

  // Article 3.8: the right is held, nothing stands between, the king neither is in check nor
  // passes an attacked square.
  ghost predicate MayCastle(p: Position, r: Right) {
    && RightSide(r) == p.side && r in p.flags
    && Clear(p.men.Keys, KingHome(r), RookHome(r))
    && !KingAttacked(p.men, p.side)
    && !Attacked(p.men, RookGoal(r), p.side.Other())
  }

  ghost predicate Pseudo(p: Position, m: Move, allpromo: bool) {
    match m
    case NoMove => false
    case NullMove => false
    case Normal(f, t, pc) =>
      && Owns(p, f, pc) && t !in p.men
      && if pc == Pawn then f.rnk != SeventhRank(p.side) && PawnAdvance(p.men, p.side, f, t)
                       else Attacks(Man(p.side, pc), p.men.Keys, f, t)
    case Capture(f, t, pc, cap) =>
      && Owns(p, f, pc) && Foe(p, t, cap)
      && (pc == Pawn ==> f.rnk != SeventhRank(p.side))
      && Attacks(Man(p.side, pc), p.men.Keys, f, t)
    case EnPassant(f, t) =>
      Owns(p, f, Pawn) && p.epsq == Some(t) && PawnStep(p.side, f, t)
    case Promotion(f, t, q) =>
      && Owns(p, f, Pawn) && f.rnk == SeventhRank(p.side) && PawnAdvance(p.men, p.side, f, t)
      && PromotionPiece(q, allpromo)
    case PromoCapture(f, t, q, cap) =>
      && Owns(p, f, Pawn) && f.rnk == SeventhRank(p.side) && Foe(p, t, cap) && PawnStep(p.side, f, t)
      && PromotionPiece(q, allpromo)
    case Castle(f, t) =>
      exists r: Right :: MayCastle(p, r) && f == KingHome(r) && t == KingGoal(r)
  }

  // ---- Making a move ----------------------------------------------------------------------

  function Moved(men: Placement, f: Square, t: Square, x: Man): Placement {
    (men - {f})[t := x]
  }

  function EpVictim(epsq: Option<Square>): Option<Square> {
    match epsq
    case None => None
    case Some(e) =>
      if e.rnk == 2 then Some(Sq(e.fil, 3)) else if e.rnk == 5 then Some(Sq(e.fil, 4)) else None
  }

  // The squares a move empties.
  function Gone(p: Position, m: Move): Bitboard {
    match m
    case NoMove => {}
    case NullMove => {}
    case Normal(f, t, _) => {f}
    case Capture(f, t, _, _) => {f}
    case Promotion(f, t, _) => {f}
    case PromoCapture(f, t, _, _) => {f}
    case EnPassant(f, t) => if EpVictim(p.epsq).Some? then {f, EpVictim(p.epsq).value} else {f}
    case Castle(f, t) => match RightOfGoal(t) case None => {f} case Some(r) => {f, RookHome(r)}
  }

  // The men a move puts down.
  function Put(p: Position, m: Move): Placement {
    match m
    case NoMove => map[]
    case NullMove => map[]
    case Normal(f, t, pc) => map[t := Man(p.side, pc)]
    case Capture(f, t, pc, _) => map[t := Man(p.side, pc)]
    case Promotion(f, t, q) => map[t := Man(p.side, q)]
    case PromoCapture(f, t, q, _) => map[t := Man(p.side, q)]
    case EnPassant(f, t) => map[t := Man(p.side, Pawn)]
    case Castle(f, t) =>
      match RightOfGoal(t)
      case None => map[t := Man(p.side, King)]
      case Some(r) => map[t := Man(p.side, King), RookGoal(r) := Man(p.side, Rook)]
  }

  // The placement after a move.
  function MenAfter(p: Position, m: Move): Placement {
    (p.men - Gone(p, m)) + Put(p, m)
  }

  // The rights lost when a rook leaves, or is captured on, a square.
  function RookRight(s: Square): set<Right> {
    if s == A1 then {WQ} else if s == H1 then {WK} else if s == A8 then {BQ} else if s == H8 then {BK} else {}
  }

  function FlagsAfter(p: Position, m: Move): set<Right> {
    p.flags
      - (if m.PType() == Some(King) then RightsOf(p.side) else {})
      - (if m.PType() == Some(Rook) then RookRight(m.f) else {})
      - (if m.IsCapture() && m.cap == Rook then RookRight(m.t) else {})
  }

  function EpAfter(m: Move): Option<Square> {
    if m.PType() != Some(Pawn) || !m.HasSquares() then None
    else if Index(m.t) - Index(m.f) == 16 then Some(SquareOf(Index(m.t) - 8))
    else if Index(m.t) - Index(m.f) == -16 then Some(SquareOf(Index(m.t) + 8))
    else None
  }

  function CountAfter(cnt: seq<U32>, m: Move): seq<U32>
    requires |cnt| == SQUARES
  {
    if m.HasSquares() then cnt[Index(m.t) := Inc32(cnt[Index(m.f)])][Index(m.f) := 0] else cnt
  }

  function Make(p: Position, m: Move): Position
    requires |p.moveCount| == SQUARES
  {
    Position(
      MenAfter(p, m),
      p.side.Other(),
      FlagsAfter(p, m),
      EpAfter(m),
      if p.side == Black then p.moveno + 1 else p.moveno,
      if m.PType() == Some(Pawn) || m.IsCapture() then 0 else p.movecnt50 + 1,
      if m.Castle? then p.castled + {p.side} else p.castled,
      CountAfter(p.moveCount, m))
  }

  // is_legal after the move: the side that moved has not left its king to be captured.
  ghost predicate LegalAfter(p: Position, m: Move) {
    !KingAttacked(MenAfter(p, m), p.side)
  }

  ghost predicate Legal(p: Position, m: Move, allpromo: bool) {
    Pseudo(p, m, allpromo) && LegalAfter(p, m)
  }

  // ---- The board invariant ----------------------------------------------------------------

  predicate HomeHeld(men: Placement, r: Right) {
    KingOn(men, RightSide(r), KingHome(r)) && RookHome(r) in men && men[RookHome(r)] == Man(RightSide(r), Rook)
  }

  ghost predicate PawnsOff(men: Placement) {
    forall s: Square :: s in men && men[s].piece == Pawn ==> 0 < s.rnk < 7
  }

  // The placement before the double push that set the en-passant square.
  function Retracted(men: Placement, e: Square, c: Color): Placement
    requires 0 < e.rnk < 7
  {
    Moved(men, Sq(e.fil, e.rnk - Forward(c)), Sq(e.fil, e.rnk + Forward(c)), Man(c.Other(), Pawn))
  }

  // The en-passant square is empty on the right rank, and the pawn that can be captured stands just
  // behind it.
  ghost predicate EpStands(p: Position) {
    match p.epsq
    case None => true
    case Some(e) =>
      && e.rnk == (if p.side == White then 5 else 2) && e !in p.men
      && Foe(p, Sq(e.fil, e.rnk - Forward(p.side)), Pawn)
  }

  // And before that pawn's double push the side now to move was not in check.
  ghost predicate EpOk(p: Position) {
    && EpStands(p)
    && match p.epsq
       case None => true
       case Some(e) =>
         && Sq(e.fil, e.rnk + Forward(p.side)) !in p.men
         && !KingAttacked(Retracted(p.men, e, p.side), p.side)
  }

  ghost predicate Invariant(p: Position) {
    && |p.moveCount| == SQUARES
    && HasSoleKing(p.men, White) && HasSoleKing(p.men, Black)
    && PawnsOff(p.men)
    && (forall r :: r in p.flags ==> HomeHeld(p.men, r))
    && (forall r :: r in p.flags ==> RightSide(r) !in p.castled)
    && EpOk(p)
    && !KingAttacked(p.men, p.side.Other())
  }

  // The invariant without what it says about the position before the double push: parse_fen, for
  // one, does not ask how the en-passant square came about.
  ghost predicate Sound(p: Position) {
    Invariant(p.(epsq := None)) && EpStands(p)
  }

  // What the move generators need: the side to move has one king, no pawn stands on the first or last
  // rank, and the en-passant square is empty and on neither of them.
  ghost predicate Orderly(p: Position) {
    && HasSoleKing(p.men, p.side) && PawnsOff(p.men)
    && (p.epsq.Some? ==> p.epsq.value !in p.men && 0 < p.epsq.value.rnk < 7)
  }

  lemma SoundIsOrderly(p: Position)
    requires Sound(p)
    ensures Orderly(p)
  {
    match p.side { case White => case Black => }
  }

  lemma InvariantIsSound(p: Position)
    requires Invariant(p)
    ensures Sound(p)
  {}
}
