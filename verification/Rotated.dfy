// Rotated bitboards: the index tables of src/chess/bitboard_rotated.cc and what they mean.
module Rotated {
  import opened Basic
  import opened Geometry

  // Rotation 0 keeps ranks together, L90 files, L45 and R45 the two kinds of diagonal.
  datatype Rotation = R0 | L90 | L45 | R45

  // A 64-bit word in which squares are not numbered as usual: the set of its one bits.
  datatype Word = Word(bits: set<int>)
  {
    function With(b: int): Word { Word(bits + {b}) }

    function Without(b: int): Word { Word(bits - {b}) }
  }

  // ---- The constant tables ----------------------------------------------------------------

  function Row(c: int, a0: int, a1: int, a2: int, a3: int, a4: int, a5: int, a6: int, a7: int): int {
    match c
    case 0 => a0
    case 1 => a1
    case 2 => a2
    case 3 => a3
    case 4 => a4
    case 5 => a5
    case 6 => a6
    case _ => a7
  }

  function MapL90Table(s: Square): int {
    match s.rnk
    case 0 => Row(s.fil, 56, 48, 40, 32, 24, 16,  8,  0)
    case 1 => Row(s.fil, 57, 49, 41, 33, 25, 17,  9,  1)
    case 2 => Row(s.fil, 58, 50, 42, 34, 26, 18, 10,  2)
    case 3 => Row(s.fil, 59, 51, 43, 35, 27, 19, 11,  3)
    case 4 => Row(s.fil, 60, 52, 44, 36, 28, 20, 12,  4)
    case 5 => Row(s.fil, 61, 53, 45, 37, 29, 21, 13,  5)
    case 6 => Row(s.fil, 62, 54, 46, 38, 30, 22, 14,  6)
    case _ => Row(s.fil, 63, 55, 47, 39, 31, 23, 15,  7)
  }

  function InvMapL90Table(i: int): int {
    var c := i % 8;
    match i / 8
    case 0 => Row(c, 7, 15, 23, 31, 39, 47, 55, 63)
    case 1 => Row(c, 6, 14, 22, 30, 38, 46, 54, 62)
    case 2 => Row(c, 5, 13, 21, 29, 37, 45, 53, 61)
    case 3 => Row(c, 4, 12, 20, 28, 36, 44, 52, 60)
    case 4 => Row(c, 3, 11, 19, 27, 35, 43, 51, 59)
    case 5 => Row(c, 2, 10, 18, 26, 34, 42, 50, 58)
    case 6 => Row(c, 1,  9, 17, 25, 33, 41, 49, 57)
    case _ => Row(c, 0,  8, 16, 24, 32, 40, 48, 56)
  }

  function ShiftL90Table(s: Square): int {
    match s.rnk
    case 0 => Row(s.fil, 56, 48, 40, 32, 24, 16,  8,  0)
    case 1 => Row(s.fil, 56, 48, 40, 32, 24, 16,  8,  0)
    case 2 => Row(s.fil, 56, 48, 40, 32, 24, 16,  8,  0)
    case 3 => Row(s.fil, 56, 48, 40, 32, 24, 16,  8,  0)
    case 4 => Row(s.fil, 56, 48, 40, 32, 24, 16,  8,  0)
    case 5 => Row(s.fil, 56, 48, 40, 32, 24, 16,  8,  0)
    case 6 => Row(s.fil, 56, 48, 40, 32, 24, 16,  8,  0)
    case _ => Row(s.fil, 56, 48, 40, 32, 24, 16,  8,  0)
  }

  function MapL45Table(s: Square): int {
    match s.rnk
    case 0 => Row(s.fil, 28, 21, 15, 10,  6,  3,  1,  0)
    case 1 => Row(s.fil, 36, 29, 22, 16, 11,  7,  4,  2)
    case 2 => Row(s.fil, 43, 37, 30, 23, 17, 12,  8,  5)
    case 3 => Row(s.fil, 49, 44, 38, 31, 24, 18, 13,  9)
    case 4 => Row(s.fil, 54, 50, 45, 39, 32, 25, 19, 14)
    case 5 => Row(s.fil, 58, 55, 51, 46, 40, 33, 26, 20)
    case 6 => Row(s.fil, 61, 59, 56, 52, 47, 41, 34, 27)
    case _ => Row(s.fil, 63, 62, 60, 57, 53, 48, 42, 35)
  }

  function InvMapL45Table(i: int): int {
    var c := i % 8;
    match i / 8
    case 0 => Row(c, 7,  6, 15,  5, 14, 23,  4, 13)
    case 1 => Row(c, 22, 31,  3, 12, 21, 30, 39,  2)
    case 2 => Row(c, 11, 20, 29, 38, 47,  1, 10, 19)
    case 3 => Row(c, 28, 37, 46, 55,  0,  9, 18, 27)
    case 4 => Row(c, 36, 45, 54, 63,  8, 17, 26, 35)
    case 5 => Row(c, 44, 53, 62, 16, 25, 34, 43, 52)
    case 6 => Row(c, 61, 24, 33, 42, 51, 60, 32, 41)
    case _ => Row(c, 50, 59, 40, 49, 58, 48, 57, 56)
  }

  function ShiftL45Table(s: Square): int {
    match s.rnk
    case 0 => Row(s.fil, 28, 21, 15, 10,  6,  3,  1,  0)
    case 1 => Row(s.fil, 36, 28, 21, 15, 10,  6,  3,  1)
    case 2 => Row(s.fil, 43, 36, 28, 21, 15, 10,  6,  3)
    case 3 => Row(s.fil, 49, 43, 36, 28, 21, 15, 10,  6)
    case 4 => Row(s.fil, 54, 49, 43, 36, 28, 21, 15, 10)
    case 5 => Row(s.fil, 58, 54, 49, 43, 36, 28, 21, 15)
    case 6 => Row(s.fil, 61, 58, 54, 49, 43, 36, 28, 21)
    case _ => Row(s.fil, 63, 61, 58, 54, 49, 43, 36, 28)
  }

  function DiaglenL45Table(s: Square): int {
    match s.rnk
    case 0 => Row(s.fil, 8, 7, 6, 5, 4, 3, 2, 1)
    case 1 => Row(s.fil, 7, 8, 7, 6, 5, 4, 3, 2)
    case 2 => Row(s.fil, 6, 7, 8, 7, 6, 5, 4, 3)
    case 3 => Row(s.fil, 5, 6, 7, 8, 7, 6, 5, 4)
    case 4 => Row(s.fil, 4, 5, 6, 7, 8, 7, 6, 5)
    case 5 => Row(s.fil, 3, 4, 5, 6, 7, 8, 7, 6)
    case 6 => Row(s.fil, 2, 3, 4, 5, 6, 7, 8, 7)
    case _ => Row(s.fil, 1, 2, 3, 4, 5, 6, 7, 8)
  }

  function DiagmaskL45Table(s: Square): int {
    match s.rnk
    case 0 => Row(s.fil, 0xff, 0x7f, 0x3f, 0x1f, 0x0f, 0x07, 0x03, 0x01)
    case 1 => Row(s.fil, 0x7f, 0xff, 0x7f, 0x3f, 0x1f, 0x0f, 0x07, 0x03)
    case 2 => Row(s.fil, 0x3f, 0x7f, 0xff, 0x7f, 0x3f, 0x1f, 0x0f, 0x07)
    case 3 => Row(s.fil, 0x1f, 0x3f, 0x7f, 0xff, 0x7f, 0x3f, 0x1f, 0x0f)
    case 4 => Row(s.fil, 0x0f, 0x1f, 0x3f, 0x7f, 0xff, 0x7f, 0x3f, 0x1f)
    case 5 => Row(s.fil, 0x07, 0x0f, 0x1f, 0x3f, 0x7f, 0xff, 0x7f, 0x3f)
    case 6 => Row(s.fil, 0x03, 0x07, 0x0f, 0x1f, 0x3f, 0x7f, 0xff, 0x7f)
    case _ => Row(s.fil, 0x01, 0x03, 0x07, 0x0f, 0x1f, 0x3f, 0x7f, 0xff)
  }

  function MapR45Table(s: Square): int {
    match s.rnk
    case 0 => Row(s.fil, 0,  2,  5,  9, 14, 20, 27, 35)
    case 1 => Row(s.fil, 1,  4,  8, 13, 19, 26, 34, 42)
    case 2 => Row(s.fil, 3,  7, 12, 18, 25, 33, 41, 48)
    case 3 => Row(s.fil, 6, 11, 17, 24, 32, 40, 47, 53)
    case 4 => Row(s.fil, 10, 16, 23, 31, 39, 46, 52, 57)
    case 5 => Row(s.fil, 15, 22, 30, 38, 45, 51, 56, 60)
    case 6 => Row(s.fil, 21, 29, 37, 44, 50, 55, 59, 62)
    case _ => Row(s.fil, 28, 36, 43, 49, 54, 58, 61, 63)
  }

  function InvMapR45Table(i: int): int {
    var c := i % 8;
    match i / 8
    case 0 => Row(c, 0,  8,  1, 16,  9,  2, 24, 17)
    case 1 => Row(c, 10,  3, 32, 25, 18, 11,  4, 40)
    case 2 => Row(c, 33, 26, 19, 12,  5, 48, 41, 34)
    case 3 => Row(c, 27, 20, 13,  6, 56, 49, 42, 35)
    case 4 => Row(c, 28, 21, 14,  7, 57, 50, 43, 36)
    case 5 => Row(c, 29, 22, 15, 58, 51, 44, 37, 30)
    case 6 => Row(c, 23, 59, 52, 45, 38, 31, 60, 53)
    case _ => Row(c, 46, 39, 61, 54, 47, 62, 55, 63)
  }

  function ShiftR45Table(s: Square): int {
    match s.rnk
    case 0 => Row(s.fil, 0,  1,  3,  6, 10, 15, 21, 28)
    case 1 => Row(s.fil, 1,  3,  6, 10, 15, 21, 28, 36)
    case 2 => Row(s.fil, 3,  6, 10, 15, 21, 28, 36, 43)
    case 3 => Row(s.fil, 6, 10, 15, 21, 28, 36, 43, 49)
    case 4 => Row(s.fil, 10, 15, 21, 28, 36, 43, 49, 54)
    case 5 => Row(s.fil, 15, 21, 28, 36, 43, 49, 54, 58)
    case 6 => Row(s.fil, 21, 28, 36, 43, 49, 54, 58, 61)
    case _ => Row(s.fil, 28, 36, 43, 49, 54, 58, 61, 63)
  }

  function DiaglenR45Table(s: Square): int {
    match s.rnk
    case 0 => Row(s.fil, 1, 2, 3, 4, 5, 6, 7, 8)
    case 1 => Row(s.fil, 2, 3, 4, 5, 6, 7, 8, 7)
    case 2 => Row(s.fil, 3, 4, 5, 6, 7, 8, 7, 6)
    case 3 => Row(s.fil, 4, 5, 6, 7, 8, 7, 6, 5)
    case 4 => Row(s.fil, 5, 6, 7, 8, 7, 6, 5, 4)
    case 5 => Row(s.fil, 6, 7, 8, 7, 6, 5, 4, 3)
    case 6 => Row(s.fil, 7, 8, 7, 6, 5, 4, 3, 2)
    case _ => Row(s.fil, 8, 7, 6, 5, 4, 3, 2, 1)
  }

  function DiagmaskR45Table(s: Square): int {
    match s.rnk
    case 0 => Row(s.fil, 0x01, 0x03, 0x07, 0x0f, 0x1f, 0x3f, 0x7f, 0xff)
    case 1 => Row(s.fil, 0x03, 0x07, 0x0f, 0x1f, 0x3f, 0x7f, 0xff, 0x7f)
    case 2 => Row(s.fil, 0x07, 0x0f, 0x1f, 0x3f, 0x7f, 0xff, 0x7f, 0x3f)
    case 3 => Row(s.fil, 0x0f, 0x1f, 0x3f, 0x7f, 0xff, 0x7f, 0x3f, 0x1f)
    case 4 => Row(s.fil, 0x1f, 0x3f, 0x7f, 0xff, 0x7f, 0x3f, 0x1f, 0x0f)
    case 5 => Row(s.fil, 0x3f, 0x7f, 0xff, 0x7f, 0x3f, 0x1f, 0x0f, 0x07)
    case 6 => Row(s.fil, 0x7f, 0xff, 0x7f, 0x3f, 0x1f, 0x0f, 0x07, 0x03)
    case _ => Row(s.fil, 0xff, 0x7f, 0x3f, 0x1f, 0x0f, 0x07, 0x03, 0x01)
  }

  // The bit of the rotated word that stands for a square.
  function MapBit(rot: Rotation, s: Square): int {
    match rot
    case R0 => Index(s)
    case L90 => 8 * ((7 - Index(s)) % 8) + Index(s) / 8
    case L45 => MapL45Table(s)
    case R45 => MapR45Table(s)
  }

  // The number of the square that a bit of the rotated word stands for.
  function InvMapBit(rot: Rotation, b: int): int
    requires 0 <= b < 64
  {
    match rot
    case R0 => b
    case L90 => 8 * (b % 8) + 7 - b / 8
    case L45 => InvMapL45Table(b)
    case R45 => InvMapR45Table(b)
  }

  // The bit of the rotated word where the line through a square starts.
  function Shift(rot: Rotation, s: Square): int {
    match rot
    case R0 => 8 * s.rnk
    case L90 => 8 * ((7 - Index(s)) % 8)
    case L45 => ShiftL45Table(s)
    case R45 => ShiftR45Table(s)
  }

  function LineLen(rot: Rotation, s: Square): int {
    match rot
    case R0 => 8
    case L90 => 8
    case L45 => DiaglenL45Table(s)
    case R45 => DiaglenR45Table(s)
  }

  function LineMask(rot: Rotation, s: Square): int {
    match rot
    case R0 => 0xff
    case L90 => 0xff
    case L45 => DiagmaskL45Table(s)
    case R45 => DiagmaskR45Table(s)
  }

  // ---- What the tables mean ---------------------------------------------------------------

  predicate SameLine(rot: Rotation, a: Square, b: Square) {
    match rot
    case R0 => a.rnk == b.rnk
    case L90 => a.fil == b.fil
    case L45 => a.fil - a.rnk == b.fil - b.rnk
    case R45 => a.fil + a.rnk == b.fil + b.rnk
  }

  // The position of a square along its line.
  function Along(rot: Rotation, s: Square): int {
    match rot
    case R0 => s.fil
    case L90 => s.rnk
    case L45 => if s.fil <= s.rnk then s.fil else s.rnk
    case R45 => if s.fil <= 7 - s.rnk then s.fil else 7 - s.rnk
  }

  // The first bit of the i-th diagonal when diagonals of length 1, 2, ..., 8, ..., 2, 1 are laid end to end.
  function DiagStart(i: int): int {
    if i <= 7 then Row(i, 0, 1, 3, 6, 10, 15, 21, 28) else Row(i - 8, 36, 43, 49, 54, 58, 61, 63, 64)
  }

  lemma ShiftL45(s: Square)
    ensures Shift(L45, s) == DiagStart(7 - s.fil + s.rnk)
    ensures LineLen(L45, s) == 8 - Abs(s.fil - s.rnk)
  {}

  lemma ShiftR45(s: Square)
    ensures Shift(R45, s) == DiagStart(s.fil + s.rnk)
    ensures LineLen(R45, s) == 8 - Abs(7 - s.fil - s.rnk)
  {}

  lemma MapL45(s: Square)
    ensures MapBit(L45, s) == Shift(L45, s) + Along(L45, s)
    ensures 0 <= MapBit(L45, s) < 64
  {}

  lemma MapR45(s: Square)
    ensures MapBit(R45, s) == Shift(R45, s) + Along(R45, s)
    ensures 0 <= MapBit(R45, s) < 64
  {}

  lemma InvL45(s: Square)
    ensures 0 <= MapBit(L45, s) < 64 && InvMapBit(L45, MapBit(L45, s)) == Index(s)
  {}

  lemma InvR45(s: Square)
    ensures 0 <= MapBit(R45, s) < 64 && InvMapBit(R45, MapBit(R45, s)) == Index(s)
  {}

  lemma Eighths(n: int, q: int, r: int)
    requires n == 8 * q + r && 0 <= r < 8
    ensures n / 8 == q && n % 8 == r
  {}

  lemma FactsL90(s: Square)
    ensures Shift(L90, s) == 8 * (7 - s.fil) && MapBit(L90, s) == Shift(L90, s) + s.rnk
    ensures InvMapBit(L90, MapBit(L90, s)) == Index(s)
  {
    Eighths(Index(s), s.rnk, s.fil);
    Eighths(7 - Index(s), -s.rnk, 7 - s.fil);
    Eighths(MapBit(L90, s), 7 - s.fil, s.rnk);
  }

  lemma MapTableL90(s: Square)
    ensures MapL90Table(s) == 8 * (7 - s.fil) + s.rnk
  {}

  lemma ShiftTableL90(s: Square)
    ensures ShiftL90Table(s) == 8 * (7 - s.fil)
  {}

  // The expressions that replaced the L90 tables agree with the tables kept beside them.
  lemma MapsL90(s: Square)
    ensures MapBit(L90, s) == MapL90Table(s)
  {
    FactsL90(s);
    MapTableL90(s);
  }

  lemma ShiftsL90(s: Square)
    ensures Shift(L90, s) == ShiftL90Table(s)
  {
    FactsL90(s);
    ShiftTableL90(s);
  }

  lemma InvTableL90(s: Square)
    ensures InvMapBit(L90, Index(s)) == InvMapL90Table(Index(s))
  {}

  // A square sits on its line at Along, and the map to rotated bits is inverted by its table.
  lemma BitOfSquare(rot: Rotation, s: Square)
    ensures 0 <= Along(rot, s) < LineLen(rot, s) <= 8
    ensures 0 <= MapBit(rot, s) < 64
    ensures MapBit(rot, s) == Shift(rot, s) + Along(rot, s)
    ensures InvMapBit(rot, MapBit(rot, s)) == Index(s)
  {
    match rot
    case R0 =>
    case L90 => FactsL90(s);
    case L45 => ShiftL45(s); MapL45(s); InvL45(s);
    case R45 => ShiftR45(s); MapR45(s); InvR45(s);
  }

  lemma LineIsShared(rot: Rotation, a: Square, b: Square)
    requires SameLine(rot, a, b)
    ensures Shift(rot, a) == Shift(rot, b) && LineLen(rot, a) == LineLen(rot, b)
    ensures Along(rot, a) == Along(rot, b) ==> a == b
  {
    match rot
    case R0 =>
    case L90 =>
      FactsL90(a);
      FactsL90(b);
    case L45 => ShiftL45(a); ShiftL45(b);
    case R45 => ShiftR45(a); ShiftR45(b);
  }

  // Every place on a line is a square of the board.
  function OnLine(rot: Rotation, s: Square, j: int): (c: Square)
    requires 0 <= j < LineLen(rot, s)
    ensures SameLine(rot, s, c) && Along(rot, c) == j
  {
    match rot
    case R0 => Sq(j, s.rnk)
    case L90 => Sq(s.fil, j)
    case L45 => ShiftL45(s); if s.fil <= s.rnk then Sq(j, j + s.rnk - s.fil) else Sq(j + s.fil - s.rnk, j)
    case R45 => ShiftR45(s); if s.fil + s.rnk <= 7 then Sq(j, s.fil + s.rnk - j) else Sq(s.fil + s.rnk - 7 + j, 7 - j)
  }

  lemma InsideLine(rot: Rotation, a: Square, c: Square, b: Square)
    requires SameLine(rot, a, b)
    ensures Btw(a, c, b) <==> SameLine(rot, a, c) && Inside(Along(rot, a), Along(rot, c), Along(rot, b))
  {}

  // ---- Line patterns ----------------------------------------------------------------------

  predicate Bit(n: nat, j: nat) {
    if j == 0 then n % 2 == 1 else Bit(n / 2, j - 1)
  }

  // The eight low bits of a number, as squares of the first rank.
  function Pattern(n: nat): Bitboard {
    set j | 0 <= j < 8 && Bit(n, j) :: Sq(j, 0)
  }

  // The number whose low bits are the squares of p on the first rank, from file j on.
  function Byte(p: Bitboard, j: nat := 0): (n: nat)
    requires j <= 8
    decreases 8 - j
  {
    if j == 8 then 0 else (if Sq(j, 0) in p then 1 else 0) + 2 * Byte(p, j + 1)
  }

  lemma ByteBound(p: Bitboard)
    ensures Byte(p) < 256
  {
    assert Byte(p, 6) < 4;
    assert Byte(p, 4) < 16;
    assert Byte(p, 2) < 64;
  }

  lemma {:induction false} BitOfByte(p: Bitboard, k: nat, j: nat)
    requires k + j < 8
    ensures Bit(Byte(p, k), j) <==> Sq(k + j, 0) in p
    decreases j
  {
    if j > 0 {
      BitOfByte(p, k + 1, j - 1);
    }
  }

  predicate FirstRank(p: Bitboard) {
    forall s | s in p :: s.rnk == 0
  }

  lemma PatternOfByte(p: Bitboard)
    requires FirstRank(p)
    ensures Pattern(Byte(p)) == p
  {
    forall j | 0 <= j < 8 ensures Bit(Byte(p), j) <==> Sq(j, 0) in p {
      BitOfByte(p, 0, j);
    }
    forall s: Square ensures s in Pattern(Byte(p)) <==> s in p {
      if s.rnk == 0 { assert s == Sq(s.fil, 0); }
    }
  }

  // ---- Attacks along one line -------------------------------------------------------------

  // Is a place strictly between f and t taken in the line pattern?
  predicate Blocked(p: Bitboard, f: int, t: int) {
    exists s | s in p :: s.rnk == 0 && Inside(f, s.fil, t)
  }

  // What a table entry holds: the places of the line that a slider reaches over a line pattern.
  predicate LineReaches(rot: Rotation, from: Square, p: Bitboard, to: Square) {
    SameLine(rot, from, to) && to != from && !Blocked(p, Along(rot, from), Along(rot, to))
  }

  // The rotated word of an occupancy.
  function Rotate(rot: Rotation, occ: Bitboard): Word {
    Word(set s | s in occ :: MapBit(rot, s))
  }

  // (bits >> shift) & mask, as a pattern on the first rank.
  function Extract(rot: Rotation, w: Word, s: Square): (p: Bitboard)
    ensures FirstRank(p)
  {
    set j | 0 <= j < 8 && Bit(LineMask(rot, s), j) && Shift(rot, s) + j in w.bits :: Sq(j, 0)
  }

  function Ones(k: nat): nat {
    if k == 0 then 0 else 1 + 2 * Ones(k - 1)
  }

  lemma {:induction false} BitOfOnes(k: nat, j: nat)
    ensures Bit(Ones(k), j) <==> j < k
    decreases j
  {
    if k == 0 {
      if j > 0 { BitOfOnes(0, j - 1); }
    } else if j > 0 {
      BitOfOnes(k - 1, j - 1);
    }
  }

  lemma MaskIsOnes(rot: Rotation, s: Square)
    ensures 1 <= LineLen(rot, s) <= 8 && LineMask(rot, s) == Ones(LineLen(rot, s))
  {
    assert Ones(1) == 1 && Ones(2) == 3 && Ones(3) == 7 && Ones(4) == 15;
    assert Ones(5) == 31 && Ones(6) == 63 && Ones(7) == 127 && Ones(8) == 255;
  }

  lemma MaskBits(rot: Rotation, s: Square, j: nat)
    requires j < 8
    ensures LineMask(rot, s) >= 0 && (Bit(LineMask(rot, s), j) <==> j < LineLen(rot, s))
  {
    MaskIsOnes(rot, s);
    BitOfOnes(LineLen(rot, s), j);
  }

  lemma MapBitInjective(rot: Rotation, a: Square, b: Square)
    requires MapBit(rot, a) == MapBit(rot, b)
    ensures a == b
  {
    BitOfSquare(rot, a);
    BitOfSquare(rot, b);
  }

  // The pattern extracted from the rotated word is the occupancy of the line.
  lemma ExtractIsLine(rot: Rotation, occ: Bitboard, s: Square, c: Square)
    requires SameLine(rot, s, c)
    ensures Sq(Along(rot, c), 0) in Extract(rot, Rotate(rot, occ), s) <==> c in occ
  {
    BitOfSquare(rot, c);
    LineIsShared(rot, s, c);
    MaskBits(rot, s, Along(rot, c));
    if MapBit(rot, c) in Rotate(rot, occ).bits {
      var d :| d in occ && MapBit(rot, d) == MapBit(rot, c);
      MapBitInjective(rot, c, d);
    }
  }

  // For every occupancy, the table entry selected by the rotated word holds exactly the squares
  // of the line that are reached before or at the first blocker.
  lemma LineReachesIsClear(rot: Rotation, occ: Bitboard, from: Square, to: Square)
    ensures LineReaches(rot, from, Extract(rot, Rotate(rot, occ), from), to)
       <==> SameLine(rot, from, to) && to != from && Clear(occ, from, to)
  {
    if SameLine(rot, from, to) && to != from {
      var p := Extract(rot, Rotate(rot, occ), from);
      BitOfSquare(rot, from);
      BitOfSquare(rot, to);
      LineIsShared(rot, from, to);
      if Blocked(p, Along(rot, from), Along(rot, to)) {
        var s :| s in p && s.rnk == 0 && Inside(Along(rot, from), s.fil, Along(rot, to));
        var c := OnLine(rot, from, s.fil);
        ExtractIsLine(rot, occ, from, c);
        InsideLine(rot, from, c, to);
      }
      forall c: Square | Btw(from, c, to) && c in occ ensures Blocked(p, Along(rot, from), Along(rot, to)) {
        InsideLine(rot, from, c, to);
        ExtractIsLine(rot, occ, from, c);
        BitOfSquare(rot, c);
        assert Sq(Along(rot, c), 0) in p;
      }
    }
  }
}
