// Moves (src/chess/move.h).
module Moves {
  import opened Basic

  datatype Move =
    | NoMove
    | Normal(f: Square, t: Square, p: Piece)
    | Capture(f: Square, t: Square, p: Piece, cap: Piece)
    | EnPassant(f: Square, t: Square)
    | Promotion(f: Square, t: Square, promo: Piece)
    | PromoCapture(f: Square, t: Square, promo: Piece, cap: Piece)
    | Castle(f: Square, t: Square)
    | NullMove
  {
    predicate HasSquares() {
      !NoMove? && !NullMove?
    }

    predicate IsCapture() {
      Capture? || PromoCapture?
    }

    predicate IsPromotion() {
      Promotion? || PromoCapture?
    }

    // The piece that moves; a promoting piece is a pawn.
    function PType(): Option<Piece> {
      match this
      case NoMove => Some(Pawn)
      case Normal(_, _, p) => Some(p)
      case Capture(_, _, p, _) => Some(p)
      case EnPassant(_, _) => Some(Pawn)
      case Promotion(_, _, _) => Some(Pawn)
      case PromoCapture(_, _, _, _) => Some(Pawn)
      case Castle(_, _) => Some(King)
      case NullMove => None
    }
  }

  // ---- The packed 32-bit form -------------------------------------------------------------

  const MOVE_NONE: nat := 0x000
  const MOVE_NORMAL: nat := 0x001
  const MOVE_CAPTURE: nat := 0x002
  const MOVE_PROMOTION: nat := 0x004
  const MOVE_ENPASSANT: nat := 0x008
  const MOVE_CASTLE: nat := 0x010
  const MOVE_NULL: nat := 0x020

  function PieceCode(p: Piece): nat {
    match p
    case Pawn => 0
    case Knight => 1
    case Bishop => 2
    case Rook => 3
    case Queen => 4
    case King => 5
  }

  const NO_PIECE_CODE: nat := 7
  const NO_SQUARE_CODE: nat := 63

  datatype Fields = Fields(f: nat, t: nat, p: nat, cap: nat, flags: nat)

  // The five bit fields of a move: from, to, piece or promotion piece, captured piece, flags.
  function FieldsOf(m: Move): (d: Fields)
    ensures d.f < 64 && d.t < 64 && d.p < 8 && d.cap < 8 && d.flags < 64
  {
    match m
    case NoMove => Fields(0, 0, 0, 0, MOVE_NONE)
    case Normal(f, t, p) => Fields(Index(f), Index(t), PieceCode(p), NO_PIECE_CODE, MOVE_NORMAL)
    case Capture(f, t, p, c) => Fields(Index(f), Index(t), PieceCode(p), PieceCode(c), MOVE_CAPTURE)
    case EnPassant(f, t) => Fields(Index(f), Index(t), PieceCode(Pawn), PieceCode(Pawn), MOVE_ENPASSANT)
    case Promotion(f, t, q) => Fields(Index(f), Index(t), PieceCode(q), NO_PIECE_CODE, MOVE_PROMOTION + MOVE_NORMAL)
    case PromoCapture(f, t, q, c) => Fields(Index(f), Index(t), PieceCode(q), PieceCode(c), MOVE_PROMOTION + MOVE_CAPTURE)
    case Castle(f, t) => Fields(Index(f), Index(t), PieceCode(King), NO_PIECE_CODE, MOVE_CASTLE)
    case NullMove => Fields(NO_SQUARE_CODE, NO_SQUARE_CODE, NO_PIECE_CODE, NO_PIECE_CODE, MOVE_NULL)
  }

  // The packed word, with field widths 6, 6, 3, 3 and 14.
  function Pack(m: Move): nat {
    var d := FieldsOf(m);
    d.f + 64 * d.t + 4096 * d.p + 32768 * d.cap + 262144 * d.flags
  }

  lemma Split8(q: nat, r: nat)
    requires r < 8
    ensures (8 * q + r) / 8 == q && (8 * q + r) % 8 == r
  {}

  lemma Split64(q: nat, r: nat)
    requires r < 64
    ensures (64 * q + r) / 64 == q && (64 * q + r) % 64 == r
  {}

  // The quotients by which the shifts are modelled.
  lemma Shifted(f: nat, t: nat, p: nat, cap: nat, flags: nat)
    requires f < 64 && t < 64 && p < 8 && cap < 8
    ensures var w := f + 64 * t + 4096 * p + 32768 * cap + 262144 * flags;
            && w / 64 == t + 64 * p + 512 * cap + 4096 * flags
            && w / 4096 == p + 8 * cap + 64 * flags
            && w / 32768 == cap + 8 * flags
            && w / 262144 == flags
  {
    Split64(t + 64 * p + 512 * cap + 4096 * flags, f);
  }

  // Shifting and masking the word gives back its fields.
  lemma FieldsOfPack(m: Move)
    ensures var w := Pack(m); var d := FieldsOf(m);
            && w % 64 == d.f && w / 64 % 64 == d.t && w / 4096 % 8 == d.p && w / 32768 % 8 == d.cap
            && w / 262144 == d.flags && w < 0x1_0000_0000
  {
    var d := FieldsOf(m);
    Shifted(d.f, d.t, d.p, d.cap, d.flags);
    Split64(d.t + 64 * d.p + 512 * d.cap + 4096 * d.flags, d.f);
    Split64(d.p + 8 * d.cap + 64 * d.flags, d.t);
    Split8(d.cap + 8 * d.flags, d.p);
    Split8(d.flags, d.cap);
  }

  // Comparing packed words compares moves.
  lemma PackInjective(m: Move, n: Move)
    requires Pack(m) == Pack(n)
    ensures m == n
  {
    FieldsOfPack(m);
    FieldsOfPack(n);
    assert FieldsOf(m) == FieldsOf(n);
    if m.HasSquares() && n.HasSquares() {
      IndexInverse(m.f);
      IndexInverse(n.f);
      IndexInverse(m.t);
      IndexInverse(n.t);
    }
  }
}
