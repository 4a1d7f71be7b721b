// Squares, colours, pieces and bitboards (src/chess/basic.h, src/chess/bitboard.h).
module Basic {
  datatype Option<+T> = None | Some(value: T)

  // A square is its file and rank; Index is the number 0..63 the program uses.
  // NO_SQUARE is Option.None.
  datatype Coord = Sq(fil: int, rnk: int)

  type Square = c: Coord | OnBoard(c.fil, c.rnk) witness Sq(0, 0)

  predicate OnBoard(f: int, r: int) {
    0 <= f < 8 && 0 <= r < 8
  }

  function Index(s: Square): (i: int)
    ensures 0 <= i < 64
  {
    8 * s.rnk + s.fil
  }

  function SquareOf(i: int): Square
    requires 0 <= i < 64
  {
    Sq(i % 8, i / 8)
  }

  lemma IndexInverse(s: Square)
    ensures SquareOf(Index(s)) == s
  {}

  // A 64-bit word is modelled as the set of its one bits, each named by its square.
  type Bitboard = set<Square>

  function AllSquares(): (all: Bitboard)
    ensures forall s: Square :: s in all
  {
    var all := set f, r | 0 <= f < 8 && 0 <= r < 8 :: Sq(f, r);
    assert forall s: Square :: s == Sq(s.fil, s.rnk);
    all
  }

  datatype Color = White | Black {
    function Other(): Color {
      if this == White then Black else White
    }
  }

  // unsigned int, which wraps around.
  type U32 = n: int | 0 <= n < 0x1_0000_0000

  function Inc32(n: U32): U32 {
    if n == 0xffff_ffff then 0 else n + 1
  }

  function Dec32(n: U32): U32 {
    if n == 0 then 0xffff_ffff else n - 1
  }

  // A two-element array indexed by colour.
  datatype PerColor<T> = PerColor(white: T, black: T) {
    function Get(c: Color): T {
      if c == White then white else black
    }

    function Set(c: Color, v: T): PerColor<T> {
      if c == White then this.(white := v) else this.(black := v)
    }
  }

  datatype Piece = Pawn | Knight | Bishop | Rook | Queen | King

  datatype Man = Man(color: Color, piece: Piece)

  const PIECES: set<Piece> := {Pawn, Knight, Bishop, Rook, Queen, King}

  lemma ManListed(x: Man)
    ensures x == Man(x.color, x.piece) && x.color in {White, Black} && x.piece in PIECES
  {
    match x.color { case White => case Black => }
    match x.piece { case Pawn => case Knight => case Bishop => case Rook => case Queen => case King => }
  }

  function AllMen(): (all: set<Man>)
    ensures forall x: Man :: x in all
  {
    var all := set c, p | c in {White, Black} && p in PIECES :: Man(c, p);
    assert forall x: Man :: x in all by {
      forall x: Man ensures x in all { ManListed(x); }
    }
    all
  }

  const A1: Square := Sq(0, 0)
  const C1: Square := Sq(2, 0)
  const D1: Square := Sq(3, 0)
  const E1: Square := Sq(4, 0)
  const F1: Square := Sq(5, 0)
  const G1: Square := Sq(6, 0)
  const H1: Square := Sq(7, 0)
  const A8: Square := Sq(0, 7)
  const C8: Square := Sq(2, 7)
  const D8: Square := Sq(3, 7)
  const E8: Square := Sq(4, 7)
  const F8: Square := Sq(5, 7)
  const G8: Square := Sq(6, 7)
  const H8: Square := Sq(7, 7)

  function MatValue(p: Piece): int {
    match p
    case Pawn => 100
    case Knight => 300
    case Bishop => 325
    case Rook => 500
    case Queen => 900
    case King => 0
  }

  // The direction in which the pawns of a colour advance, in ranks.
  function Forward(c: Color): int {
    if c == White then 1 else -1
  }
}
