// The redundant forms in which a board keeps its placement, and how each follows one change.
module Mirror {
  import opened Basic
  import opened Rules
  import opened Rotated

  // ---- Hash keys --------------------------------------------------------------------------

  // A 64-bit key is modelled as the set of its one bits.
  type Place = b: int | 0 <= b < 64

  datatype Key = Key(bits: set<Place>)

  const ZERO: Key := Key({})

  function Xor(a: Key, b: Key): Key {
    Key((a.bits - b.bits) + (b.bits - a.bits))
  }

  // Zobrist keys are arbitrary constants.
  datatype Zobrist = Zobrist(man: (Man, Square) -> Key, side: Key, ep: Square -> Key, right: Right -> Key)

  lemma XorSwap(x: Key, a: Key, b: Key)
    ensures Xor(Xor(x, a), b) == Xor(Xor(x, b), a)
  {}

  lemma XorZero(x: Key)
    ensures Xor(x, ZERO) == x
  {}

  lemma XorTwice(x: Key, a: Key)
    ensures Xor(Xor(x, a), a) == x
  {}

  // ---- Recomputation from the placement ---------------------------------------------------

  // The key a square contributes to the hash key, or to the pawn hash key.
  function Cell(z: Zobrist, men: Placement, s: Square, pawns: bool): Key {
    if s in men && (pawns ==> men[s].piece == Pawn) then z.man(men[s], s) else ZERO
  }

  // The exclusive or of the contributions of some squares, taken in any order.
  ghost function HashOn(z: Zobrist, men: Placement, pawns: bool, left: Bitboard): Key {
    if left == {} then ZERO
    else
      var s :| s in left;
      Xor(HashOn(z, men, pawns, left - {s}), Cell(z, men, s, pawns))
  }

  ghost function MenHash(z: Zobrist, men: Placement): Key {
    HashOn(z, men, false, men.Keys)
  }

  ghost function PawnHash(z: Zobrist, men: Placement): Key {
    HashOn(z, men, true, men.Keys)
  }

  function Worth(men: Placement, s: Square, c: Color): int {
    if s in men && men[s].color == c then MatValue(men[s].piece) else 0
  }

  // The sum of the values of a side's men on some squares, taken in any order.
  ghost function WorthOn(men: Placement, c: Color, left: Bitboard): int {
    if left == {} then 0
    else
      var s :| s in left;
      Worth(men, s, c) + WorthOn(men, c, left - {s})
  }

  ghost function Material(men: Placement, c: Color): int {
    WorthOn(men, c, men.Keys)
  }

  function SideHash(z: Zobrist, side: Color): Key {
    if side == White then ZERO else z.side
  }

  function EpHash(z: Zobrist, epsq: Option<Square>): Key {
    match epsq case None => ZERO case Some(e) => z.ep(e)
  }

  function RightHash(z: Zobrist, flags: set<Right>, r: Right): Key {
    if r in flags then z.right(r) else ZERO
  }

  function FlagsHash(z: Zobrist, flags: set<Right>): Key {
    Xor(Xor(Xor(RightHash(z, flags, WK), RightHash(z, flags, WQ)), RightHash(z, flags, BK)), RightHash(z, flags, BQ))
  }

  // The hash key of a position, from scratch.
  ghost function HashOf(z: Zobrist, men: Placement, side: Color, epsq: Option<Square>, flags: set<Right>): Key {
    Xor(Xor(Xor(MenHash(z, men), SideHash(z, side)), EpHash(z, epsq)), FlagsHash(z, flags))
  }

  ghost function PawnHashOf(z: Zobrist, men: Placement, side: Color): Key {
    Xor(PawnHash(z, men), SideHash(z, side))
  }

  function SquaresOf(men: Placement, x: Man): Bitboard {
    set s | s in men && men[s] == x
  }

  function ColorSquares(men: Placement, c: Color): Bitboard {
    set s | s in men && men[s].color == c
  }

  function PositionOf(men: Placement): map<Man, Bitboard> {
    map x | x in AllMen() :: SquaresOf(men, x)
  }

  function ColorsOf(men: Placement): PerColor<Bitboard> {
    PerColor(ColorSquares(men, White), ColorSquares(men, Black))
  }

  ghost function MaterialOf(men: Placement): PerColor<int> {
    PerColor(Material(men, White), Material(men, Black))
  }

  // The king field of a side names exactly the square where that side's king stands. It follows
  // that there is at most one king a side.
  ghost predicate KingsAt(men: Placement, king: PerColor<Option<Square>>) {
    forall c: Color, s: Square :: KingOn(men, c, s) <==> king.Get(c) == Some(s)
  }

  // ---- One square changes -----------------------------------------------------------------

  lemma {:induction false} HashTakesAny(z: Zobrist, men: Placement, pawns: bool, left: Bitboard, s: Square)
    requires s in left
    ensures HashOn(z, men, pawns, left) == Xor(HashOn(z, men, pawns, left - {s}), Cell(z, men, s, pawns))
    decreases left
  {
    var t: Square :| t in left && HashOn(z, men, pawns, left) == Xor(HashOn(z, men, pawns, left - {t}), Cell(z, men, t, pawns));
    if s != t {
      HashTakesAny(z, men, pawns, left - {t}, s);
      HashTakesAny(z, men, pawns, left - {s}, t);
      assert left - {t} - {s} == left - {s} - {t};
      XorSwap(HashOn(z, men, pawns, left - {s} - {t}), Cell(z, men, s, pawns), Cell(z, men, t, pawns));
    }
  }

  lemma {:induction false} HashUnchanged(z: Zobrist, men: Placement, after: Placement, pawns: bool, left: Bitboard)
    requires forall s :: s in left ==> Cell(z, men, s, pawns) == Cell(z, after, s, pawns)
    ensures HashOn(z, men, pawns, left) == HashOn(z, after, pawns, left)
    decreases left
  {
    if left != {} {
      var t: Square :| t in left;
      HashTakesAny(z, men, pawns, left, t);
      HashTakesAny(z, after, pawns, left, t);
      HashUnchanged(z, men, after, pawns, left - {t});
    }
  }

  lemma HashAfterPut(z: Zobrist, men: Placement, s: Square, x: Man)
    requires s !in men
    ensures MenHash(z, men[s := x]) == Xor(MenHash(z, men), z.man(x, s))
    ensures PawnHash(z, men[s := x]) == (if x.piece == Pawn then Xor(PawnHash(z, men), z.man(x, s)) else PawnHash(z, men))
  {
    var after := men[s := x];
    assert after.Keys - {s} == men.Keys;
    HashTakesAny(z, after, false, after.Keys, s);
    HashTakesAny(z, after, true, after.Keys, s);
    HashUnchanged(z, men, after, false, men.Keys);
    HashUnchanged(z, men, after, true, men.Keys);
    XorZero(PawnHash(z, men));
  }

  lemma HashAfterLift(z: Zobrist, men: Placement, s: Square)
    requires s in men
    ensures MenHash(z, men - {s}) == Xor(MenHash(z, men), z.man(men[s], s))
    ensures PawnHash(z, men - {s}) == (if men[s].piece == Pawn then Xor(PawnHash(z, men), z.man(men[s], s)) else PawnHash(z, men))
  {
    var rest := men - {s};
    HashAfterPut(z, rest, s, men[s]);
    assert rest[s := men[s]] == men;
    XorTwice(MenHash(z, rest), z.man(men[s], s));
    XorTwice(PawnHash(z, rest), z.man(men[s], s));
  }

  lemma {:induction false} WorthTakesAny(men: Placement, c: Color, left: Bitboard, s: Square)
    requires s in left
    ensures WorthOn(men, c, left) == Worth(men, s, c) + WorthOn(men, c, left - {s})
    decreases left
  {
    var t: Square :| t in left && WorthOn(men, c, left) == Worth(men, t, c) + WorthOn(men, c, left - {t});
    if s != t {
      WorthTakesAny(men, c, left - {t}, s);
      WorthTakesAny(men, c, left - {s}, t);
      assert left - {t} - {s} == left - {s} - {t};
    }
  }

  lemma {:induction false} WorthUnchanged(men: Placement, after: Placement, c: Color, left: Bitboard)
    requires forall s :: s in left ==> Worth(men, s, c) == Worth(after, s, c)
    ensures WorthOn(men, c, left) == WorthOn(after, c, left)
    decreases left
  {
    if left != {} {
      var t: Square :| t in left;
      WorthTakesAny(men, c, left, t);
      WorthTakesAny(after, c, left, t);
      WorthUnchanged(men, after, c, left - {t});
    }
  }

  lemma MaterialAfterPut(men: Placement, s: Square, x: Man, c: Color)
    requires s !in men
    ensures Material(men[s := x], c) == Material(men, c) + (if x.color == c then MatValue(x.piece) else 0)
  {
    var after := men[s := x];
    WorthTakesAny(after, c, after.Keys, s);
    assert after.Keys - {s} == men.Keys;
    WorthUnchanged(men, after, c, men.Keys);
  }

  lemma MaterialAfterLift(men: Placement, s: Square, c: Color)
    requires s in men
    ensures Material(men - {s}, c) == Material(men, c) - (if men[s].color == c then MatValue(men[s].piece) else 0)
  {
    MaterialAfterPut(men - {s}, s, men[s], c);
    assert (men - {s})[s := men[s]] == men;
  }

  lemma RotateAfterLift(rot: Rotation, occ: Bitboard, s: Square)
    requires s in occ
    ensures Rotate(rot, occ - {s}) == Rotate(rot, occ).Without(MapBit(rot, s))
  {
    forall b | b in Rotate(rot, occ - {s}).bits ensures b != MapBit(rot, s) {
      var a :| a in occ - {s} && MapBit(rot, a) == b;
      if b == MapBit(rot, s) { MapBitInjective(rot, a, s); }
    }
  }

  // ---- The redundant fields after one change ----------------------------------------------

  lemma SetsPut(men: Placement, s: Square, x: Man)
    requires s !in men
    ensures x in PositionOf(men) && PositionOf(men[s := x]) == PositionOf(men)[x := PositionOf(men)[x] + {s}]
    ensures ColorsOf(men[s := x]) == ColorsOf(men).Set(x.color, ColorsOf(men).Get(x.color) + {s})
    ensures men[s := x].Keys == men.Keys + {s}
  {
    assert forall y: Man :: SquaresOf(men[s := x], y) == if y == x then SquaresOf(men, y) + {s} else SquaresOf(men, y);
    assert forall c: Color ::
      ColorSquares(men[s := x], c) == if c == x.color then ColorSquares(men, c) + {s} else ColorSquares(men, c);
  }

  lemma SetsLift(men: Placement, s: Square)
    requires s in men
    ensures var x := men[s];
            && x in PositionOf(men) && PositionOf(men - {s}) == PositionOf(men)[x := PositionOf(men)[x] - {s}]
            && ColorsOf(men - {s}) == ColorsOf(men).Set(x.color, ColorsOf(men).Get(x.color) - {s})
    ensures (men - {s}).Keys == men.Keys - {s}
  {
    var x := men[s];
    assert forall y: Man :: SquaresOf(men - {s}, y) == if y == x then SquaresOf(men, y) - {s} else SquaresOf(men, y);
    assert forall c: Color ::
      ColorSquares(men - {s}, c) == if c == x.color then ColorSquares(men, c) - {s} else ColorSquares(men, c);
  }

  function KingsWith(king: PerColor<Option<Square>>, s: Square, x: Man): PerColor<Option<Square>> {
    if x.piece == King then king.Set(x.color, Some(s)) else king
  }

  function KingsWithout(king: PerColor<Option<Square>>, x: Man): PerColor<Option<Square>> {
    if x.piece == King then king.Set(x.color, None) else king
  }

  lemma KingsPut(men: Placement, king: PerColor<Option<Square>>, s: Square, x: Man)
    requires KingsAt(men, king) && s !in men && (x.piece == King ==> king.Get(x.color) == None)
    ensures KingsAt(men[s := x], KingsWith(king, s, x))
  {
    forall c: Color, t: Square ensures KingOn(men[s := x], c, t) <==> KingsWith(king, s, x).Get(c) == Some(t) {
      assert KingOn(men, c, t) <==> king.Get(c) == Some(t);
      match c { case White => case Black => }
      match x.color { case White => case Black => }
    }
  }

  lemma KingsLift(men: Placement, king: PerColor<Option<Square>>, s: Square)
    requires KingsAt(men, king) && s in men
    ensures KingsAt(men - {s}, KingsWithout(king, men[s]))
    ensures men[s].piece == King ==> KingsWithout(king, men[s]).Get(men[s].color) == None
  {
    var x := men[s];
    assert KingOn(men, x.color, s) <==> king.Get(x.color) == Some(s);
    forall c: Color, t: Square ensures KingOn(men - {s}, c, t) <==> KingsWithout(king, x).Get(c) == Some(t) {
      assert KingOn(men, c, t) <==> king.Get(c) == Some(t);
      match c { case White => case Black => }
      match x.color { case White => case Black => }
    }
  }

  lemma KingsMoved(king: PerColor<Option<Square>>, s: Square, x: Man)
    ensures KingsWith(KingsWithout(king, x), s, x) == KingsWith(king, s, x)
  {}

  lemma NoKingNoField(men: Placement, king: PerColor<Option<Square>>, c: Color)
    requires KingsAt(men, king) && (forall s: Square :: !KingOn(men, c, s))
    ensures king.Get(c) == None
  {}

  // The king fields are determined by the placement.
  lemma KingsAtUnique(men: Placement, k: PerColor<Option<Square>>, l: PerColor<Option<Square>>)
    requires KingsAt(men, k) && KingsAt(men, l)
    ensures k == l
  {
    forall c: Color ensures k.Get(c) == l.Get(c) {
      if k.Get(c).Some? { assert KingOn(men, c, k.Get(c).value); }
      if l.Get(c).Some? { assert KingOn(men, c, l.Get(c).value); }
    }
    assert k == PerColor(k.Get(White), k.Get(Black)) && l == PerColor(l.Get(White), l.Get(Black));
  }

  // ---- Material ---------------------------------------------------------------------------

  function MaterialWith(material: PerColor<int>, x: Man): PerColor<int> {
    material.Set(x.color, material.Get(x.color) + MatValue(x.piece))
  }

  function MaterialWithout(material: PerColor<int>, x: Man): PerColor<int> {
    material.Set(x.color, material.Get(x.color) - MatValue(x.piece))
  }

  lemma MaterialMoved(material: PerColor<int>, x: Man)
    ensures MaterialWith(MaterialWithout(material, x), x) == material
  {}

  lemma SetColor(a: PerColor<int>, b: PerColor<int>, c: Color, v: int)
    requires b.Get(c) == v && b.Get(c.Other()) == a.Get(c.Other())
    ensures b == a.Set(c, v)
  {}

  lemma MaterialPut(men: Placement, s: Square, x: Man)
    requires s !in men
    ensures MaterialOf(men[s := x]) == MaterialWith(MaterialOf(men), x)
  {
    MaterialGet(men, x.color);
    MaterialGet(men[s := x], x.color);
    MaterialAfterPut(men, s, x, x.color);
    MaterialAfterPut(men, s, x, x.color.Other());
    SetColor(MaterialOf(men), MaterialOf(men[s := x]), x.color, Material(men[s := x], x.color));
  }

  lemma MaterialGet(men: Placement, c: Color)
    ensures MaterialOf(men).Get(c) == Material(men, c) && MaterialOf(men).Get(c.Other()) == Material(men, c.Other())
  {}

  lemma MaterialLift(men: Placement, s: Square)
    requires s in men
    ensures MaterialOf(men - {s}) == MaterialWithout(MaterialOf(men), men[s])
  {
    var c := men[s].color;
    MaterialGet(men, c);
    MaterialGet(men - {s}, c);
    MaterialAfterLift(men, s, c);
    MaterialAfterLift(men, s, c.Other());
    SetColor(MaterialOf(men), MaterialOf(men - {s}), c, Material(men - {s}, c));
  }

  // ---- The keys ---------------------------------------------------------------------------

  lemma XorInto(m: Key, a: Key, s: Key, e: Key, f: Key)
    ensures Xor(Xor(Xor(Xor(m, a), s), e), f) == Xor(Xor(Xor(Xor(m, s), e), f), a)
  {}

  lemma KeyPut(z: Zobrist, men: Placement, side: Color, epsq: Option<Square>, flags: set<Right>, s: Square, x: Man)
    requires s !in men
    ensures HashOf(z, men[s := x], side, epsq, flags) == Xor(HashOf(z, men, side, epsq, flags), z.man(x, s))
    ensures PawnHashOf(z, men[s := x], side)
         == if x.piece == Pawn then Xor(PawnHashOf(z, men, side), z.man(x, s)) else PawnHashOf(z, men, side)
  {
    HashAfterPut(z, men, s, x);
    XorInto(MenHash(z, men), z.man(x, s), SideHash(z, side), EpHash(z, epsq), FlagsHash(z, flags));
    XorSwap(PawnHash(z, men), z.man(x, s), SideHash(z, side));
  }

  lemma KeyLift(z: Zobrist, men: Placement, side: Color, epsq: Option<Square>, flags: set<Right>, s: Square)
    requires s in men
    ensures var x := men[s];
            && HashOf(z, men - {s}, side, epsq, flags) == Xor(HashOf(z, men, side, epsq, flags), z.man(x, s))
            && PawnHashOf(z, men - {s}, side)
            == if x.piece == Pawn then Xor(PawnHashOf(z, men, side), z.man(x, s)) else PawnHashOf(z, men, side)
  {
    HashAfterLift(z, men, s);
    XorInto(MenHash(z, men), z.man(men[s], s), SideHash(z, side), EpHash(z, epsq), FlagsHash(z, flags));
    XorSwap(PawnHash(z, men), z.man(men[s], s), SideHash(z, side));
  }

  lemma RotationsLift(occ: Bitboard, s: Square)
    requires s in occ
    ensures Rotate(L90, occ - {s}) == Rotate(L90, occ).Without(MapBit(L90, s))
    ensures Rotate(L45, occ - {s}) == Rotate(L45, occ).Without(MapBit(L45, s))
    ensures Rotate(R45, occ - {s}) == Rotate(R45, occ).Without(MapBit(R45, s))
  {
    RotateAfterLift(L90, occ, s);
    RotateAfterLift(L45, occ, s);
    RotateAfterLift(R45, occ, s);
  }

  lemma RotationsPut(occ: Bitboard, s: Square)
    ensures Rotate(L90, occ + {s}) == Rotate(L90, occ).With(MapBit(L90, s))
    ensures Rotate(L45, occ + {s}) == Rotate(L45, occ).With(MapBit(L45, s))
    ensures Rotate(R45, occ + {s}) == Rotate(R45, occ).With(MapBit(R45, s))
  {}

  // ---- The groups of fields ---------------------------------------------------------------

  // The bitboards of a board: one for each kind of man, one for each side, and the occupied squares
  // in four orders.
  datatype Bitboards = Bitboards(
    position: map<Man, Bitboard>, positionAll: PerColor<Bitboard>,
    occupied: Bitboard, l90: Word, l45: Word, r45: Word)

  datatype Keys = Keys(hash: Key, pawn: Key)

  ghost function BitboardsOf(men: Placement): Bitboards {
    Bitboards(PositionOf(men), ColorsOf(men), men.Keys, Rotate(L90, men.Keys), Rotate(L45, men.Keys), Rotate(R45, men.Keys))
  }

  ghost function KeysOf(z: Zobrist, men: Placement, side: Color, epsq: Option<Square>, flags: set<Right>): Keys {
    Keys(HashOf(z, men, side, epsq, flags), PawnHashOf(z, men, side))
  }

  // ---- One man put down or lifted ---------------------------------------------------------

  function BitsWith(b: Bitboards, s: Square, x: Man): Bitboards
    requires x in b.position
  {
    Bitboards(b.position[x := b.position[x] + {s}], b.positionAll.Set(x.color, b.positionAll.Get(x.color) + {s}),
      b.occupied + {s}, b.l90.With(MapBit(L90, s)), b.l45.With(MapBit(L45, s)), b.r45.With(MapBit(R45, s)))
  }

  function BitsWithout(b: Bitboards, s: Square, x: Man): Bitboards
    requires x in b.position
  {
    Bitboards(b.position[x := b.position[x] - {s}], b.positionAll.Set(x.color, b.positionAll.Get(x.color) - {s}),
      b.occupied - {s}, b.l90.Without(MapBit(L90, s)), b.l45.Without(MapBit(L45, s)), b.r45.Without(MapBit(R45, s)))
  }

  lemma BitsPut(men: Placement, s: Square, x: Man)
    requires s !in men
    ensures x in BitboardsOf(men).position && BitboardsOf(men[s := x]) == BitsWith(BitboardsOf(men), s, x)
  {
    SetsPut(men, s, x);
    RotationsPut(men.Keys, s);
  }

  lemma BitsLift(men: Placement, s: Square)
    requires s in men
    ensures men[s] in BitboardsOf(men).position && BitboardsOf(men - {s}) == BitsWithout(BitboardsOf(men), s, men[s])
  {
    SetsLift(men, s);
    RotationsLift(men.Keys, s);
  }

  // Placing and removing a man change the keys alike.
  function KeysWith(z: Zobrist, k: Keys, sq: Square, x: Man): Keys {
    Keys(Xor(k.hash, z.man(x, sq)), if x.piece == Pawn then Xor(k.pawn, z.man(x, sq)) else k.pawn)
  }

  lemma KeysPut(z: Zobrist, men: Placement, side: Color, epsq: Option<Square>, flags: set<Right>, s: Square, x: Man)
    requires s !in men
    ensures KeysOf(z, men[s := x], side, epsq, flags) == KeysWith(z, KeysOf(z, men, side, epsq, flags), s, x)
  {
    KeyPut(z, men, side, epsq, flags, s, x);
  }

  lemma KeysLift(z: Zobrist, men: Placement, side: Color, epsq: Option<Square>, flags: set<Right>, s: Square)
    requires s in men
    ensures KeysOf(z, men - {s}, side, epsq, flags) == KeysWith(z, KeysOf(z, men, side, epsq, flags), s, men[s])
  {
    KeyLift(z, men, side, epsq, flags, s);
  }

  // ---- One man moved ----------------------------------------------------------------------

  lemma KingsMove(men: Placement, king: PerColor<Option<Square>>, f: Square, t: Square)
    requires KingsAt(men, king) && f in men && t !in men
    ensures KingsAt(Moved(men, f, t, men[f]), KingsWith(king, t, men[f]))
  {
    var x := men[f];
    KingsLift(men, king, f);
    KingsPut(men - {f}, KingsWithout(king, x), t, x);
    KingsMoved(king, t, x);
  }

  lemma MaterialMove(men: Placement, f: Square, t: Square)
    requires f in men && t !in men
    ensures MaterialOf(Moved(men, f, t, men[f])) == MaterialOf(men)
  {
    MaterialLift(men, f);
    MaterialPut(men - {f}, t, men[f]);
    MaterialMoved(MaterialOf(men), men[f]);
  }

  lemma KeysMove(z: Zobrist, men: Placement, side: Color, epsq: Option<Square>, flags: set<Right>, f: Square, t: Square)
    requires f in men && t !in men
    ensures KeysOf(z, Moved(men, f, t, men[f]), side, epsq, flags)
         == KeysWith(z, KeysWith(z, KeysOf(z, men, side, epsq, flags), f, men[f]), t, men[f])
  {
    KeysLift(z, men, side, epsq, flags, f);
    KeysPut(z, men - {f}, side, epsq, flags, t, men[f]);
  }

  // ---- The plain fields -------------------------------------------------------------------

  lemma EpKeys(z: Zobrist, men: Placement, side: Color, epsq: Option<Square>, e: Option<Square>, flags: set<Right>)
    ensures HashOf(z, men, side, e, flags) == Xor(Xor(HashOf(z, men, side, epsq, flags), EpHash(z, epsq)), EpHash(z, e))
  {}

  lemma SideKeys(z: Zobrist, men: Placement, side: Color, epsq: Option<Square>, flags: set<Right>)
    ensures HashOf(z, men, side.Other(), epsq, flags) == Xor(HashOf(z, men, side, epsq, flags), z.side)
    ensures PawnHashOf(z, men, side.Other()) == Xor(PawnHashOf(z, men, side), z.side)
  {}

  lemma FlagKeys(z: Zobrist, men: Placement, side: Color, epsq: Option<Square>, flags: set<Right>, r: Right)
    ensures r !in flags ==>
              HashOf(z, men, side, epsq, flags + {r}) == Xor(HashOf(z, men, side, epsq, flags), z.right(r))
    ensures r in flags ==>
              HashOf(z, men, side, epsq, flags - {r}) == Xor(HashOf(z, men, side, epsq, flags), z.right(r))
  {}

  lemma XorSameIff(x: Key, a: Key, b: Key)
    ensures Xor(x, a) == Xor(x, b) <==> a == b
  {
    XorTwice(a, x);
    XorTwice(b, x);
    assert Xor(Xor(a, x), x) == Xor(x, Xor(x, a)) && Xor(Xor(b, x), x) == Xor(x, Xor(x, b));
  }

  // Positions that differ only in the en-passant square, in one right, in the side or in one man have different
  // keys, unless the constants of what they differ in coincide.
  lemma KeysTellApart(z: Zobrist, men: Placement, side: Color, flags: set<Right>, s: Square, t: Square)
    ensures HashOf(z, men, side, Some(s), flags) == HashOf(z, men, side, None, flags) <==> z.ep(s) == ZERO
    ensures HashOf(z, men, side, Some(s), flags) == HashOf(z, men, side, Some(t), flags) <==> z.ep(s) == z.ep(t)
    ensures HashOf(z, men, side.Other(), None, flags) == HashOf(z, men, side, None, flags) <==> z.side == ZERO
  {
    var without := Xor(Xor(MenHash(z, men), SideHash(z, side)), FlagsHash(z, flags));
    forall e: Option<Square>
      ensures HashOf(z, men, side, e, flags) == Xor(without, match e case None => ZERO case Some(k) => z.ep(k))
    {
      XorSwap(Xor(MenHash(z, men), SideHash(z, side)), EpHash(z, e), FlagsHash(z, flags));
    }
    XorSameIff(without, z.ep(s), ZERO);
    XorSameIff(without, z.ep(s), z.ep(t));
    var h := HashOf(z, men, side, None, flags);
    SideKeys(z, men, side, None, flags);
    XorSameIff(h, z.side, ZERO);
    XorZero(h);
  }

  lemma RightsTellApart(z: Zobrist, men: Placement, side: Color, epsq: Option<Square>, flags: set<Right>, r: Right)
    requires r !in flags
    ensures HashOf(z, men, side, epsq, flags + {r}) == HashOf(z, men, side, epsq, flags) <==> z.right(r) == ZERO
  {
    FlagKeys(z, men, side, epsq, flags, r);
    XorSameIff(HashOf(z, men, side, epsq, flags), z.right(r), ZERO);
    XorZero(HashOf(z, men, side, epsq, flags));
  }

  lemma MenTellApart(z: Zobrist, men: Placement, side: Color, epsq: Option<Square>, flags: set<Right>, s: Square, x: Man, y: Man)
    requires s !in men
    ensures HashOf(z, men[s := x], side, epsq, flags) == HashOf(z, men[s := y], side, epsq, flags) <==> z.man(x, s) == z.man(y, s)
  {
    KeyPut(z, men, side, epsq, flags, s, x);
    KeyPut(z, men, side, epsq, flags, s, y);
    XorSameIff(HashOf(z, men, side, epsq, flags), z.man(x, s), z.man(y, s));
  }

  // ---- The empty board --------------------------------------------------------------------

  function NoBits(): Bitboards {
    Bitboards(map x | x in AllMen() :: {}, PerColor({}, {}), {}, Word({}), Word({}), Word({}))
  }

  lemma ClearedKeys(z: Zobrist)
    ensures KeysOf(z, map[], White, None, {}) == Keys(ZERO, ZERO)
    ensures BitboardsOf(map[]) == NoBits()
    ensures MaterialOf(map[]) == PerColor(0, 0) && KingsAt(map[], PerColor(None, None))
  {
    XorZero(ZERO);
    assert forall x: Man :: SquaresOf(map[], x) == {};
    assert PositionOf(map[]) == NoBits().position;
    assert Rotate(L90, {}) == Word({}) && Rotate(L45, {}) == Word({}) && Rotate(R45, {}) == Word({});
    assert ColorSquares(map[], White) == {} && ColorSquares(map[], Black) == {};
    var none: Placement := map[];
    assert none.Keys == {};
  }
}
