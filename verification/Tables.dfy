// The precomputed attack tables, filled by the loops of src/chess/bitboard.cc and
// src/chess/bitboard_rotated.cc.
module Tables {
  import opened Basic
  import opened Geometry
  import opened Rotated

  // ---- The 0x88 board ---------------------------------------------------------------------

  // t & 0x88, for every t that the initialisation loops form (MaskTest).
  predicate Off(t: int) {
    !(0 <= t < 128 && t % 16 < 8)
  }

  // Bits 7 and 3 of t in two's complement.
  lemma MaskTest(t: int)
    requires -128 <= t < 256
    ensures Off(t) <==> t / 128 % 2 == 1 || t / 8 % 2 == 1
  {}

  function Number88(s: Square): int {
    16 * s.rnk + s.fil
  }

  // map0x88[t], for t on the board.
  function Square88(t: int): Square
    requires 0 <= t < 128 && t % 16 < 8
  {
    Sq(t % 16, t / 16)
  }

  lemma OffBoard88(t: int)
    ensures !Off(t) ==> Number88(Square88(t)) == t
  {}

  lemma Number88Inverse(s: Square)
    ensures 0 <= Number88(s) < 128 && Number88(s) % 16 < 8 && Square88(Number88(s)) == s
    ensures !Off(Number88(s))
  {}

  // The 0x88 step of a direction.
  function Dir88(d: Dir): int {
    16 * d.dr + d.df
  }

  // A step stays on the board exactly when the 0x88 test says so, and then reaches the next square.
  lemma Step88(s: Square, d: Dir)
    requires IsDir(d)
    ensures var t := Number88(s) + Dir88(d);
            && (!Off(t) <==> OnBoard(s.fil + d.df, s.rnk + d.dr))
            && (!Off(t) ==> var n := Sq(s.fil + d.df, s.rnk + d.dr); Square88(t) == n && Number88(n) == t)
  {}

  const KNIGHT_DIRS: seq<int> := [-31, -33, 31, 33, -18, 18, -14, 14]
  const KING_DIRS: seq<int> := [-1, 1, -16, 16, -15, 15, -17, 17]

  lemma KnightOffsets(a: Square, b: Square)
    ensures KnightStep(a, b) <==> Number88(b) - Number88(a) in KNIGHT_DIRS
  {}

  lemma KingOffsets(a: Square, b: Square)
    ensures KingStep(a, b) <==> Number88(b) - Number88(a) in KING_DIRS
  {}

  // The squares one step away from f, for a list of 0x88 steps.
  method Leaps(f: Square, dirs: seq<int>) returns (bb: Bitboard)
    requires forall d | d in dirs :: -64 <= d <= 64
    ensures forall b: Square :: b in bb <==> Number88(b) - Number88(f) in dirs
  {
    bb := {};
    for i := 0 to |dirs|
      invariant forall b: Square :: b in bb <==> Number88(b) - Number88(f) in dirs[..i]
    {
      var t := Number88(f) + dirs[i];
      assert dirs[i] in dirs;
      OffBoard88(t);
      ghost var before := bb;
      if !Off(t) {
        bb := bb + {Square88(t)};
      }
      assert dirs[..i + 1] == dirs[..i] + [dirs[i]];
      forall b: Square ensures b in bb <==> b in before || Number88(b) - Number88(f) == dirs[i] {
        Number88Inverse(b);
      }
    }
  }

  lemma WalkOn(bb: Bitboard, c: Square, d: Dir)
    requires IsDir(d)
    ensures if OnBoard(c.fil + d.df, c.rnk + d.dr)
            then var n := Sq(c.fil + d.df, c.rnk + d.dr);
                 bb + Walk({}, c, d) == bb + {n} + Walk({}, n, d) && Room(n, d) < Room(c, d)
            else bb + Walk({}, c, d) == bb
  {}

  // One ray of an empty board, added to base.
  method Slide(f: Square, d: Dir, base: Bitboard) returns (bb: Bitboard)
    requires IsDir(d)
    ensures bb == base + Walk({}, f, d)
  {
    bb := base;
    var t := Number88(f) + Dir88(d);
    ghost var c: Square := f;
    while !Off(t)
      invariant t == Number88(c) + Dir88(d)
      invariant bb + Walk({}, c, d) == base + Walk({}, f, d)
      decreases Room(c, d)
    {
      Step88(c, d);
      WalkOn(bb, c, d);
      bb := bb + {Square88(t)};
      c := Square88(t);
      t := t + Dir88(d);
    }
    Step88(c, d);
    WalkOn(bb, c, d);
  }

  // bb holds the squares between from and to that come before cur on the way to to.
  ghost predicate UpTo(bb: Bitboard, from: Square, cur: Square, to: Square) {
    forall c: Square :: Btw(from, c, to) <==> c in bb || (cur != to && (c == cur || Btw(cur, c, to)))
  }

  lemma FirstStep(from: Square, d: Dir, to: Square)
    requires IsDir(d) && Ahead(from, d, to)
    ensures OnBoard(from.fil + d.df, from.rnk + d.dr)
    ensures var n := Sq(from.fil + d.df, from.rnk + d.dr); (n == to || Ahead(n, d, to)) && UpTo({}, from, n, to)
  {}

  lemma NextStep(bb: Bitboard, from: Square, cur: Square, d: Dir, to: Square)
    requires IsDir(d) && Ahead(cur, d, to) && UpTo(bb, from, cur, to)
    ensures OnBoard(cur.fil + d.df, cur.rnk + d.dr)
    ensures var n := Sq(cur.fil + d.df, cur.rnk + d.dr);
            (n == to || Ahead(n, d, to)) && UpTo(bb + {cur}, from, n, to) && Room(n, d) < Room(cur, d)
  {
    FirstStep(cur, d, to);
  }

  // The walk that fills one entry of ray_bb.
  method Between(from: Square, to: Square, d: Dir) returns (bb: Bitboard)
    requires IsDir(d) && Ahead(from, d, to)
    ensures UpTo(bb, from, to, to)
  {
    bb := {};
    FirstStep(from, d, to);
    Step88(from, d);
    var s := Number88(from) + Dir88(d);
    ghost var cur: Square := Square88(s);
    Number88Inverse(to);
    while s != Number88(to)
      invariant s == Number88(cur)
      invariant cur == to || Ahead(cur, d, to)
      invariant UpTo(bb, from, cur, to)
      decreases Room(cur, d)
    {
      Number88Inverse(cur);
      NextStep(bb, from, cur, d, to);
      Step88(cur, d);
      bb := bb + {Square88(s)};
      s := s + Dir88(d);
      cur := Sq(cur.fil + d.df, cur.rnk + d.dr);
    }
    Number88Inverse(cur);
  }

  lemma InPair(d: int, x: int, y: int)
    ensures d in [x, y] <==> d == x || d == y
  {}

  lemma OneAside(df: int, dr: int, e: int)
    requires -7 <= df <= 7
    ensures df + 16 * dr == 16 * e - 1 || df + 16 * dr == 16 * e + 1 <==> dr == e && (df == -1 || df == 1)
  {}

  lemma PawnOffsets(c: Color, a: Square, b: Square)
    ensures PawnStep(c, a, b) <==> Number88(b) - Number88(a) in (if c == White then [15, 17] else [-15, -17])
  {
    var d := Number88(b) - Number88(a);
    InPair(d, 15, 17);
    InPair(d, -15, -17);
    OneAside(b.fil - a.fil, b.rnk - a.rnk, Forward(c));
  }

  // ---- What the tables must hold ----------------------------------------------------------

  function ColorIndex(c: Color): int {
    if c == White then 0 else 1
  }

  // What a piece other than a pawn attacks on an empty board.
  predicate Reaches(p: Piece, a: Square, b: Square) {
    match p
    case Pawn => false
    case Knight => KnightStep(a, b)
    case Bishop => BishopLine(a, b)
    case Rook => RookLine(a, b)
    case Queen => BishopLine(a, b) || RookLine(a, b)
    case King => KingStep(a, b)
  }

  ghost function AttackSet(p: Piece, a: Square): (bb: Bitboard)
    ensures forall b: Square :: b in bb <==> Reaches(p, a, b)
  {
    set b | b in AllSquares() && Reaches(p, a, b)
  }

  ghost function PawnSet(c: Color, a: Square): (bb: Bitboard)
    ensures forall b: Square :: b in bb <==> PawnStep(c, a, b)
  {
    set b | b in AllSquares() && PawnStep(c, a, b)
  }

  ghost function RaySet(a: Square, b: Square): (bb: Bitboard)
    ensures forall c: Square :: c in bb <==> Btw(a, c, b)
  {
    set c | c in AllSquares() && Btw(a, c, b)
  }

  ghost function LineSet(rot: Rotation, a: Square, n: nat): (bb: Bitboard)
    ensures forall b: Square :: b in bb <==> LineReaches(rot, a, Pattern(n), b)
  {
    set b | b in AllSquares() && LineReaches(rot, a, Pattern(n), b)
  }

  // The direction that init_ray_bb picks for a pair of squares, if any.
  function RayDir(a: Square, b: Square, bishop: Bitboard): Option<Dir> {
    if a.rnk == b.rnk && a.fil < b.fil then Some(Dir(1, 0))
    else if a.rnk == b.rnk && a.fil > b.fil then Some(Dir(-1, 0))
    else if a.rnk < b.rnk && a.fil == b.fil then Some(Dir(0, 1))
    else if a.rnk > b.rnk && a.fil == b.fil then Some(Dir(0, -1))
    else if a.rnk < b.rnk && a.fil < b.fil && b in bishop then Some(Dir(1, 1))
    else if a.rnk < b.rnk && a.fil > b.fil && b in bishop then Some(Dir(-1, 1))
    else if a.rnk > b.rnk && a.fil < b.fil && b in bishop then Some(Dir(1, -1))
    else if a.rnk > b.rnk && a.fil > b.fil && b in bishop then Some(Dir(-1, -1))
    else None
  }

  lemma RayDirIsAhead(a: Square, b: Square, bishop: Bitboard)
    requires bishop == AttackSet(Bishop, a)
    ensures match RayDir(a, b, bishop)
            case Some(d) => IsDir(d) && Ahead(a, d, b)
            case None => forall c: Square :: !Btw(a, c, b)
  {}

  lemma SlidesAreAttacks(a: Square)
    ensures BishopWalk({}, a) == AttackSet(Bishop, a) && RookWalk({}, a) == AttackSet(Rook, a)
  {
    forall b: Square ensures b in BishopWalk({}, a) <==> BishopLine(a, b) { BishopWalkReaches({}, a, b); }
    forall b: Square ensures b in RookWalk({}, a) <==> RookLine(a, b) { RookWalkReaches({}, a, b); }
  }

  // The bishop, rook, knight and king entries of one starting square, as init_attack_bb fills them.
  method BishopFrom(a: Square) returns (bb: Bitboard)
    ensures bb == AttackSet(Bishop, a)
  {
    bb := Slide(a, Dir(1, -1), {});
    bb := Slide(a, Dir(-1, 1), bb);
    bb := Slide(a, Dir(-1, -1), bb);
    bb := Slide(a, Dir(1, 1), bb);
    assert bb == BishopWalk({}, a);
    SlidesAreAttacks(a);
  }

  method RookFrom(a: Square) returns (bb: Bitboard)
    ensures bb == AttackSet(Rook, a)
  {
    bb := Slide(a, Dir(-1, 0), {});
    bb := Slide(a, Dir(1, 0), bb);
    bb := Slide(a, Dir(0, -1), bb);
    bb := Slide(a, Dir(0, 1), bb);
    assert bb == RookWalk({}, a);
    SlidesAreAttacks(a);
  }

  method KnightFrom(a: Square) returns (bb: Bitboard)
    ensures bb == AttackSet(Knight, a)
  {
    bb := Leaps(a, KNIGHT_DIRS);
    forall b: Square ensures b in bb <==> KnightStep(a, b) { KnightOffsets(a, b); }
  }

  method KingFrom(a: Square) returns (bb: Bitboard)
    ensures bb == AttackSet(King, a)
  {
    bb := Leaps(a, KING_DIRS);
    forall b: Square ensures b in bb <==> KingStep(a, b) { KingOffsets(a, b); }
  }

  method PawnCapturesFrom(a: Square) returns (white: Bitboard, black: Bitboard)
    ensures white == PawnSet(White, a) && black == PawnSet(Black, a)
  {
    white := Leaps(a, [15, 17]);
    black := Leaps(a, [-15, -17]);
    forall b: Square ensures b in white <==> PawnStep(White, a, b) { PawnOffsets(White, a, b); }
    forall b: Square ensures b in black <==> PawnStep(Black, a, b) { PawnOffsets(Black, a, b); }
  }

  method RayFrom(a: Square, b: Square, bishop: Bitboard) returns (bb: Bitboard)
    requires bishop == AttackSet(Bishop, a)
    ensures bb == RaySet(a, b)
  {
    bb := {};
    RayDirIsAhead(a, b, bishop);
    match RayDir(a, b, bishop) {
      case None =>
      case Some(d) => bb := Between(a, b, d);
    }
  }

  lemma PlaceOnLine(rot: Rotation, a: Square, t: int)
    requires 0 <= t < LineLen(rot, a)
    ensures 0 <= Shift(rot, a) + t < 64
    ensures InvMapBit(rot, Shift(rot, a) + t) == Index(OnLine(rot, a, t))
  {
    var c := OnLine(rot, a, t);
    LineIsShared(rot, a, c);
    BitOfSquare(rot, c);
  }

  lemma BlockedIsRay(p: Bitboard, f: int, t: int)
    requires 0 <= f < 8 && 0 <= t < 8
    ensures Blocked(p, f, t) <==> p * RaySet(Sq(f, 0), Sq(t, 0)) != {}
  {
    if Blocked(p, f, t) {
      var s :| s in p && s.rnk == 0 && Inside(f, s.fil, t);
      assert s in p * RaySet(Sq(f, 0), Sq(t, 0));
    }
    if p * RaySet(Sq(f, 0), Sq(t, 0)) != {} {
      var s :| s in p * RaySet(Sq(f, 0), Sq(t, 0));
    }
  }

  class AttackTables {
    const attackBb: array2<Bitboard>
    const pawnCaptBb: array2<Bitboard>
    const rayBb: array2<Bitboard>
    const rotAtk0: array2<Bitboard>
    const rotAtkL90: array2<Bitboard>
    const rotAtkL45: array2<Bitboard>
    const rotAtkR45: array2<Bitboard>

    ghost predicate Shaped() {
      && attackBb.Length0 == 6 && attackBb.Length1 == 64
      && pawnCaptBb.Length0 == 2 && pawnCaptBb.Length1 == 64
      && rayBb.Length0 == 64 && rayBb.Length1 == 64
      && rotAtk0.Length0 == 64 && rotAtk0.Length1 == 256
      && rotAtkL90.Length0 == 64 && rotAtkL90.Length1 == 256
      && rotAtkL45.Length0 == 64 && rotAtkL45.Length1 == 256
      && rotAtkR45.Length0 == 64 && rotAtkR45.Length1 == 256
      && (forall r: Rotation, q: Rotation :: r != q ==> RotAtk(r) != RotAtk(q))
    }

    function RotAtk(rot: Rotation): array2<Bitboard> {
      match rot
      case R0 => rotAtk0
      case L90 => rotAtkL90
      case L45 => rotAtkL45
      case R45 => rotAtkR45
    }

    ghost predicate AttacksOk(a: Square)
      requires Shaped()
      reads attackBb
    {
      && attackBb[1, Index(a)] == AttackSet(Knight, a)
      && attackBb[2, Index(a)] == AttackSet(Bishop, a)
      && attackBb[3, Index(a)] == AttackSet(Rook, a)
      && attackBb[4, Index(a)] == AttackSet(Queen, a)
      && attackBb[5, Index(a)] == AttackSet(King, a)
    }

    ghost predicate PawnsOk(a: Square)
      requires Shaped()
      reads pawnCaptBb
    {
      pawnCaptBb[0, Index(a)] == PawnSet(White, a) && pawnCaptBb[1, Index(a)] == PawnSet(Black, a)
    }

    ghost predicate RayOk(a: Square, b: Square)
      requires Shaped()
      reads rayBb
    {
      rayBb[Index(a), Index(b)] == RaySet(a, b)
    }

    ghost predicate LineOk(rot: Rotation, a: Square, n: nat)
      requires Shaped() && n < 256
      reads RotAtk(rot)
    {
      RotAtk(rot)[Index(a), n] == LineSet(rot, a, n)
    }

    ghost predicate Valid()
      reads attackBb, pawnCaptBb, rayBb, rotAtk0, rotAtkL90, rotAtkL45, rotAtkR45
    {
      && Shaped()
      && (forall a: Square :: AttacksOk(a) && PawnsOk(a))
      && (forall a: Square, b: Square :: RayOk(a, b))
      && (forall rot: Rotation, a: Square, n: nat | n < 256 :: LineOk(rot, a, n))
    }

    constructor ()
      ensures Valid()
      ensures fresh(attackBb) && fresh(pawnCaptBb) && fresh(rayBb)
      ensures fresh(rotAtk0) && fresh(rotAtkL90) && fresh(rotAtkL45) && fresh(rotAtkR45)
    {
      attackBb := new Bitboard[6, 64];
      pawnCaptBb := new Bitboard[2, 64];
      rayBb := new Bitboard[64, 64];
      rotAtk0 := new Bitboard[64, 256];
      rotAtkL90 := new Bitboard[64, 256];
      rotAtkL45 := new Bitboard[64, 256];
      rotAtkR45 := new Bitboard[64, 256];
      new;
      InitAttackBb();
      InitPawnCaptBb();
      InitRayBb();
      InitRotAtk();
    }

    method InitAttackBb()
      requires Shaped()
      modifies attackBb
      ensures forall a: Square :: AttacksOk(a)
    {
      for f := 0 to 128
        invariant forall a: Square :: Number88(a) < f ==> AttacksOk(a)
      {
        OffBoard88(f);
        if !Off(f) {
          InitAttacksFrom(Square88(f));
        }
        forall a: Square | Number88(a) == f ensures AttacksOk(a) { Number88Inverse(a); }
      }
      forall a: Square ensures AttacksOk(a) { Number88Inverse(a); }
    }

    method InitAttacksFrom(a: Square)
      requires Shaped()
      modifies attackBb
      ensures AttacksOk(a)
      ensures forall b: Square :: b != a && old(AttacksOk(b)) ==> AttacksOk(b)
    {
      var knight := KnightFrom(a);
      var bishop := BishopFrom(a);
      var rook := RookFrom(a);
      var king := KingFrom(a);
      var i := Index(a);
      attackBb[1, i] := knight;
      attackBb[2, i] := bishop;
      attackBb[3, i] := rook;
      attackBb[4, i] := bishop + rook;
      attackBb[5, i] := king;
      assert bishop + rook == AttackSet(Queen, a);
      forall b: Square | b != a ensures Index(b) != i { IndexInverse(a); IndexInverse(b); }
    }

    method InitPawnCaptBb()
      requires Shaped()
      modifies pawnCaptBb
      ensures forall a: Square :: PawnsOk(a)
    {
      for f := 0 to 128
        invariant forall a: Square :: Number88(a) < f ==> PawnsOk(a)
      {
        OffBoard88(f);
        if !Off(f) {
          var from := Square88(f);
          var white, black := PawnCapturesFrom(from);
          pawnCaptBb[0, Index(from)] := white;
          pawnCaptBb[1, Index(from)] := black;
          forall b: Square | b != from ensures Index(b) != Index(from) { IndexInverse(from); IndexInverse(b); }
        }
        forall a: Square | Number88(a) == f ensures PawnsOk(a) { Number88Inverse(a); }
      }
      forall a: Square ensures PawnsOk(a) { Number88Inverse(a); }
    }

    method InitRayBb()
      requires Shaped() && forall a: Square :: AttacksOk(a)
      modifies rayBb
      ensures forall a: Square, b: Square :: RayOk(a, b)
    {
      for f := 0 to 128
        invariant forall a: Square, b: Square :: Number88(a) < f ==> RayOk(a, b)
      {
        OffBoard88(f);
        if !Off(f) {
          InitRaysFrom(Square88(f));
        }
        forall a: Square, b: Square | Number88(a) == f ensures RayOk(a, b) { Number88Inverse(a); }
      }
      forall a: Square, b: Square ensures RayOk(a, b) { Number88Inverse(a); }
    }

    method InitRaysFrom(a: Square)
      requires Shaped() && AttacksOk(a)
      modifies rayBb
      ensures forall b: Square :: RayOk(a, b)
      ensures forall c: Square, b: Square :: c != a && old(RayOk(c, b)) ==> RayOk(c, b)
    {
      for t := 0 to 128
        invariant forall b: Square :: Number88(b) < t ==> RayOk(a, b)
        invariant forall c: Square, b: Square :: c != a && old(RayOk(c, b)) ==> RayOk(c, b)
      {
        OffBoard88(t);
        if !Off(t) {
          var to := Square88(t);
          var bb := RayFrom(a, to, attackBb[2, Index(a)]);
          rayBb[Index(a), Index(to)] := bb;
          forall c: Square | c != a ensures Index(c) != Index(a) { IndexInverse(c); IndexInverse(a); }
          forall b: Square | b != to ensures Index(b) != Index(to) { IndexInverse(b); IndexInverse(to); }
        }
        forall b: Square | Number88(b) == t ensures RayOk(a, b) { Number88Inverse(b); }
      }
      forall b: Square ensures RayOk(a, b) { Number88Inverse(b); }
    }

    // The inner loop of init_rot_atk: one line from one square over one line pattern.
    method LineFrom(rot: Rotation, from: Square, occ: nat) returns (tmp: Bitboard)
      requires Shaped() && forall a: Square, b: Square :: RayOk(a, b)
      ensures tmp == LineSet(rot, from, occ)
    {
      tmp := {};
      BitOfSquare(rot, from);
      var f := MapBit(rot, from) - Shift(rot, from);
      for t := 0 to LineLen(rot, from)
        invariant forall b: Square :: b in tmp <==> LineReaches(rot, from, Pattern(occ), b) && Along(rot, b) < t
      {
        PlaceOnLine(rot, from, t);
        var to := SquareOf(InvMapBit(rot, Shift(rot, from) + t));
        IndexInverse(OnLine(rot, from, t));
        BlockedIsRay(Pattern(occ), f, t);
        assert RayOk(Sq(f, 0), Sq(t, 0));
        if !(Pattern(occ) * rayBb[Index(Sq(f, 0)), Index(Sq(t, 0))] != {} || f == t) {
          tmp := tmp + {to};
        }
        forall b: Square | SameLine(rot, from, b) && Along(rot, b) == t ensures b == to { LineIsShared(rot, b, to); }
      }
      forall b: Square | SameLine(rot, from, b) ensures Along(rot, b) < LineLen(rot, from) {
        LineIsShared(rot, from, b);
        BitOfSquare(rot, b);
      }
    }

    method InitLine(rot: Rotation, from: Square, occ: nat)
      requires Shaped() && occ < 256 && forall a: Square, b: Square :: RayOk(a, b)
      requires RotAtk(rot) != rayBb
      modifies RotAtk(rot)
      ensures LineOk(rot, from, occ)
      ensures forall a: Square, n: nat | n < 256 && old(LineOk(rot, a, n)) :: LineOk(rot, a, n)
    {
      var tmp := LineFrom(rot, from, occ);
      RotAtk(rot)[Index(from), occ] := tmp;
      forall a: Square | Index(a) == Index(from) ensures a == from { IndexInverse(a); IndexInverse(from); }
    }

    method InitRotAtk()
      requires Shaped() && forall a: Square, b: Square :: RayOk(a, b)
      requires forall rot: Rotation :: RotAtk(rot) != rayBb
      modifies rotAtk0, rotAtkL90, rotAtkL45, rotAtkR45
      ensures forall rot: Rotation, a: Square, n: nat | n < 256 :: LineOk(rot, a, n)
    {
      for occ := 0 to 256
        invariant forall rot: Rotation, a: Square, n: nat | n < occ :: LineOk(rot, a, n)
      {
        for from := 0 to 64
          invariant forall rot: Rotation, a: Square, n: nat | n < occ :: LineOk(rot, a, n)
          invariant forall rot: Rotation, a: Square | Index(a) < from :: LineOk(rot, a, occ)
        {
          InitLine(R0, SquareOf(from), occ);
          InitLine(L90, SquareOf(from), occ);
          InitLine(L45, SquareOf(from), occ);
          InitLine(R45, SquareOf(from), occ);
          forall a: Square | Index(a) == from ensures a == SquareOf(from) { IndexInverse(a); }
        }
      }
    }

    // atk0, atkl90, atkl45 and atkr45: the entry picked by the bits of the line through from.
    function Atk(rot: Rotation, w: Word, from: Square): Bitboard
      requires Valid()
      reads attackBb, pawnCaptBb, rayBb, rotAtk0, rotAtkL90, rotAtkL45, rotAtkR45
    {
      ByteBound(Extract(rot, w, from));
      RotAtk(rot)[Index(from), Byte(Extract(rot, w, from))]
    }

    // When the rotated word is the rotation of the occupancy, its entry is the line up to the blockers.
    lemma AtkIsClearLine(rot: Rotation, occ: Bitboard, from: Square, to: Square)
      requires Valid()
      ensures to in Atk(rot, Rotate(rot, occ), from) <==> SameLine(rot, from, to) && to != from && Clear(occ, from, to)
    {
      var p := Extract(rot, Rotate(rot, occ), from);
      ByteBound(p);
      PatternOfByte(p);
      assert LineOk(rot, from, Byte(p));
      LineReachesIsClear(rot, occ, from, to);
    }

    // The table-driven slider attacks are the squares found by walking each direction up to and
    // including the first blocker, for every occupancy and every square.
    lemma RotatedAttacksAreWalks(occ: Bitboard, from: Square)
      requires Valid()
      ensures Atk(R0, Rotate(R0, occ), from) + Atk(L90, Rotate(L90, occ), from) == RookWalk(occ, from)
      ensures Atk(L45, Rotate(L45, occ), from) + Atk(R45, Rotate(R45, occ), from) == BishopWalk(occ, from)
    {
      forall to: Square
        ensures to in Atk(R0, Rotate(R0, occ), from) + Atk(L90, Rotate(L90, occ), from) <==> to in RookWalk(occ, from)
        ensures to in Atk(L45, Rotate(L45, occ), from) + Atk(R45, Rotate(R45, occ), from) <==> to in BishopWalk(occ, from)
      {
        AtkIsClearLine(R0, occ, from, to);
        AtkIsClearLine(L90, occ, from, to);
        AtkIsClearLine(L45, occ, from, to);
        AtkIsClearLine(R45, occ, from, to);
        RookWalkReaches(occ, from, to);
        BishopWalkReaches(occ, from, to);
      }
    }
  }
}
