// Lines on the board, and what a piece attacks: stated once by walking the board square by
// square, once by the squares between two squares, and proved the same.
module Geometry {
  import opened Basic

  // ---- Lines and the squares between ------------------------------------------------------

  predicate RookLine(a: Square, b: Square) {
    a != b && (a.fil == b.fil || a.rnk == b.rnk)
  }

  predicate BishopLine(a: Square, b: Square) {
    a != b && (a.fil - a.rnk == b.fil - b.rnk || a.fil + a.rnk == b.fil + b.rnk)
  }

  predicate Inside(x: int, y: int, z: int) {
    x < y < z || z < y < x
  }

  // c lies strictly between a and b on a rank, file or diagonal.
  predicate Btw(a: Square, c: Square, b: Square) {
    || (a.rnk == c.rnk == b.rnk && Inside(a.fil, c.fil, b.fil))
    || (a.fil == c.fil == b.fil && Inside(a.rnk, c.rnk, b.rnk))
    || (a.fil - a.rnk == c.fil - c.rnk == b.fil - b.rnk && Inside(a.fil, c.fil, b.fil))
    || (a.fil + a.rnk == c.fil + c.rnk == b.fil + b.rnk && Inside(a.fil, c.fil, b.fil))
  }

  predicate Clear(occ: Bitboard, a: Square, b: Square) {
    forall c: Square :: Btw(a, c, b) ==> c !in occ
  }

  function Abs(x: int): nat {
    if x < 0 then -x else x
  }

  predicate KnightStep(a: Square, b: Square) {
    var df, dr := Abs(a.fil - b.fil), Abs(a.rnk - b.rnk);
    (df == 1 && dr == 2) || (df == 2 && dr == 1)
  }

  predicate KingStep(a: Square, b: Square) {
    a != b && Abs(a.fil - b.fil) <= 1 && Abs(a.rnk - b.rnk) <= 1
  }

  // b is a square that a pawn of colour c on a captures on.
  predicate PawnStep(c: Color, a: Square, b: Square) {
    Abs(a.fil - b.fil) == 1 && b.rnk == a.rnk + Forward(c)
  }

  // Article 3 of the FIDE Laws: the squares a man on a attacks over the given occupancy.
  predicate Attacks(m: Man, occ: Bitboard, a: Square, b: Square) {
    match m.piece
    case Pawn => PawnStep(m.color, a, b)
    case Knight => KnightStep(a, b)
    case Bishop => BishopLine(a, b) && Clear(occ, a, b)
    case Rook => RookLine(a, b) && Clear(occ, a, b)
    case Queen => (BishopLine(a, b) || RookLine(a, b)) && Clear(occ, a, b)
    case King => KingStep(a, b)
  }

  // ---- The walk ---------------------------------------------------------------------------

  datatype Dir = Dir(df: int, dr: int)

  predicate IsDir(d: Dir) {
    -1 <= d.df <= 1 && -1 <= d.dr <= 1 && (d.df != 0 || d.dr != 0)
  }

  // How many squares there are ahead of s in direction d.
  function Room(s: Square, d: Dir): nat
    requires IsDir(d)
  {
    var f := if d.df == 1 then 7 - s.fil else if d.df == -1 then s.fil else 8;
    var r := if d.dr == 1 then 7 - s.rnk else if d.dr == -1 then s.rnk else 8;
    if f <= r then f else r
  }

  // The squares reached from s in direction d, up to and including the first blocker.
  function Walk(occ: Bitboard, s: Square, d: Dir): Bitboard
    requires IsDir(d)
    decreases Room(s, d)
  {
    if !OnBoard(s.fil + d.df, s.rnk + d.dr) then {}
    else
      var n := Sq(s.fil + d.df, s.rnk + d.dr);
      if n in occ then {n} else {n} + Walk(occ, n, d)
  }

  predicate Onward(x: int, step: int, y: int) {
    if step == 0 then x == y else if step == 1 then x < y else y < x
  }

  // b lies ahead of a in direction d.
  predicate Ahead(a: Square, d: Dir, b: Square) {
    && Onward(a.fil, d.df, b.fil)
    && Onward(a.rnk, d.dr, b.rnk)
    && (d.df != 0 && d.dr != 0 ==>
          if d.df == d.dr then a.fil - a.rnk == b.fil - b.rnk else a.fil + a.rnk == b.fil + b.rnk)
  }

  lemma AheadStep(s: Square, d: Dir, t: Square)
    requires IsDir(d)
    ensures if OnBoard(s.fil + d.df, s.rnk + d.dr)
            then var n := Sq(s.fil + d.df, s.rnk + d.dr); Ahead(s, d, t) <==> t == n || Ahead(n, d, t)
            else !Ahead(s, d, t)
  {}

  lemma NextClear(occ: Bitboard, s: Square, d: Dir, t: Square)
    requires IsDir(d) && OnBoard(s.fil + d.df, s.rnk + d.dr)
    ensures var n := Sq(s.fil + d.df, s.rnk + d.dr);
            && Clear(occ, s, n)
            && (Ahead(n, d, t) ==> (Clear(occ, s, t) <==> n !in occ && Clear(occ, n, t)))
  {}

  lemma LessRoom(s: Square, d: Dir)
    requires IsDir(d) && OnBoard(s.fil + d.df, s.rnk + d.dr)
    ensures Room(Sq(s.fil + d.df, s.rnk + d.dr), d) < Room(s, d)
  {}

  // One walk reaches exactly the squares ahead with nothing in between.
  lemma {:induction false} WalkReaches(occ: Bitboard, s: Square, d: Dir, t: Square)
    requires IsDir(d)
    ensures t in Walk(occ, s, d) <==> Ahead(s, d, t) && Clear(occ, s, t)
    decreases Room(s, d)
  {
    AheadStep(s, d, t);
    if OnBoard(s.fil + d.df, s.rnk + d.dr) {
      LessRoom(s, d);
      WalkReaches(occ, Sq(s.fil + d.df, s.rnk + d.dr), d, t);
      NextClear(occ, s, d, t);
    }
  }

  function RookWalk(occ: Bitboard, s: Square): Bitboard {
    Walk(occ, s, Dir(1, 0)) + Walk(occ, s, Dir(-1, 0)) + Walk(occ, s, Dir(0, 1)) + Walk(occ, s, Dir(0, -1))
  }

  function BishopWalk(occ: Bitboard, s: Square): Bitboard {
    Walk(occ, s, Dir(1, 1)) + Walk(occ, s, Dir(-1, 1)) + Walk(occ, s, Dir(1, -1)) + Walk(occ, s, Dir(-1, -1))
  }

  lemma RookWalkReaches(occ: Bitboard, s: Square, t: Square)
    ensures t in RookWalk(occ, s) <==> RookLine(s, t) && Clear(occ, s, t)
  {
    WalkReaches(occ, s, Dir(1, 0), t);
    WalkReaches(occ, s, Dir(-1, 0), t);
    WalkReaches(occ, s, Dir(0, 1), t);
    WalkReaches(occ, s, Dir(0, -1), t);
  }

  lemma BishopWalkReaches(occ: Bitboard, s: Square, t: Square)
    ensures t in BishopWalk(occ, s) <==> BishopLine(s, t) && Clear(occ, s, t)
  {
    WalkReaches(occ, s, Dir(1, 1), t);
    WalkReaches(occ, s, Dir(-1, 1), t);
    WalkReaches(occ, s, Dir(1, -1), t);
    WalkReaches(occ, s, Dir(-1, -1), t);
  }
}
