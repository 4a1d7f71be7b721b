// The chess board, kept in about ten redundant forms (src/chess/board.cc, src/chess/board.h).
module BoardState {
  import opened Basic
  import opened Moves
  import opened Rules
  import opened Mirror

  // The empty board of Board::clear.
  function Cleared(moveCount: seq<U32>): Position {
    Position(map[], White, {}, None, 1, 0, {}, moveCount)
  }

  // What make_move needs of a position: the men it moves and captures stand where it says.
  predicate Movable(p: Position, m: Move) {
    match m
    case NoMove => false
    case NullMove => true
    case Normal(f, t, pc) => Owns(p, f, pc) && t !in p.men
    case Capture(f, t, pc, cap) => Owns(p, f, pc) && Foe(p, t, cap)
    case EnPassant(f, t) =>
      Owns(p, f, Pawn) && t !in p.men && EpVictim(p.epsq).Some? && Foe(p, EpVictim(p.epsq).value, Pawn)
    case Promotion(f, t, q) => Owns(p, f, Pawn) && t !in p.men && q != King
    case PromoCapture(f, t, q, cap) => Owns(p, f, Pawn) && Foe(p, t, cap) && q != King
    case Castle(f, t) =>
      match RightOfGoal(t)
      case None => false
      case Some(r) =>
        && RightSide(r) == p.side && f == KingHome(r) && HomeHeld(p.men, r)
        && t !in p.men && RookGoal(r) !in p.men
  }

  lemma PseudoIsMovable(p: Position, m: Move, allpromo: bool)
    requires Invariant(p) && Pseudo(p, m, allpromo)
    ensures Movable(p, m)
  {}

  datatype BoardHistory = BoardHistory(move: Move, flags: set<Right>, epsq: Option<Square>, movecnt50: int, moveCountTo: U32)

  function HistoryOf(p: Position, m: Move): BoardHistory
    requires |p.moveCount| == SQUARES
  {
    BoardHistory(m, p.flags, p.epsq, p.movecnt50, if m.HasSquares() then p.moveCount[Index(m.t)] else 0)
  }

  // ---- Operations of the board ------------------------------------------------------------

  datatype Operation =
    | Place(s: Square, x: Man)
    | Remove(s: Square, x: Man)
    | Shift(f: Square, t: Square, x: Man)
    | Grant(r: Right)
    | Revoke(r: Right)
    | Ep(e: Option<Square>)
    | NoEp
    | Turn(c: Color)
    | Play(m: Move)

  ghost predicate Allowed(p: Position, op: Operation) {
    match op
    case Place(s, x) => s !in p.men && (x.piece == King ==> forall t: Square :: !KingOn(p.men, x.color, t))
    case Remove(s, x) => s in p.men && p.men[s] == x
    case Shift(f, t, x) => f in p.men && p.men[f] == x && t !in p.men
    case Play(m) => Movable(p, m)
    case _ => true
  }

  function Performed(p: Position, op: Operation): Position
    requires |p.moveCount| == SQUARES
  {
    match op
    case Place(s, x) => p.(men := p.men[s := x])
    case Remove(s, x) => p.(men := p.men - {s})
    case Shift(f, t, x) => p.(men := Moved(p.men, f, t, x))
    case Grant(r) => p.(flags := p.flags + {r})
    case Revoke(r) => p.(flags := p.flags - {r})
    case Ep(e) => p.(epsq := e)
    case NoEp => p.(epsq := None)
    case Turn(c) => p.(side := c)
    case Play(m) => Make(p, m)
  }

  ghost predicate AllAllowed(p: Position, ops: seq<Operation>)
    requires |p.moveCount| == SQUARES
    decreases |ops|
  {
    ops == [] || (Allowed(p, ops[0]) && AllAllowed(Performed(p, ops[0]), ops[1..]))
  }

  ghost function PerformedAll(p: Position, ops: seq<Operation>): (q: Position)
    requires |p.moveCount| == SQUARES
    ensures |q.moveCount| == SQUARES
    decreases |ops|
  {
    if ops == [] then p else PerformedAll(Performed(p, ops[0]), ops[1..])
  }

  // ---- The placement after each kind of move ----------------------------------------------

  lemma MenAfterNormal(p: Position, f: Square, t: Square, pc: Piece)
    requires Movable(p, Normal(f, t, pc))
    ensures Moved(p.men, f, t, Man(p.side, pc)) == MenAfter(p, Normal(f, t, pc))
  {}

  lemma MenAfterPromotion(p: Position, f: Square, t: Square, q: Piece)
    requires Movable(p, Promotion(f, t, q))
    ensures (p.men - {f})[t := Man(p.side, q)] == MenAfter(p, Promotion(f, t, q))
  {}

  lemma MenAfterCapture(p: Position, f: Square, t: Square, pc: Piece, cap: Piece)
    requires Movable(p, Capture(f, t, pc, cap))
    ensures Moved(p.men - {t}, f, t, Man(p.side, pc)) == MenAfter(p, Capture(f, t, pc, cap))
  {}

  lemma MenAfterPromoCapture(p: Position, f: Square, t: Square, q: Piece, cap: Piece)
    requires Movable(p, PromoCapture(f, t, q, cap))
    ensures (p.men - {f} - {t})[t := Man(p.side, q)] == MenAfter(p, PromoCapture(f, t, q, cap))
  {}

  lemma MenAfterCastle(p: Position, f: Square, t: Square, r: Right)
    requires Movable(p, Castle(f, t)) && RightOfGoal(t) == Some(r)
    ensures Moved(Moved(p.men, f, t, Man(p.side, King)), RookHome(r), RookGoal(r), Man(p.side, Rook))
         == MenAfter(p, Castle(f, t))
  {}

  lemma MenAfterEnPassant(p: Position, f: Square, t: Square)
    requires Movable(p, EnPassant(f, t))
    ensures Moved(p.men, f, t, Man(p.side, Pawn)) - {EpVictim(p.epsq).value} == MenAfter(p, EnPassant(f, t))
  {}

  // ---- The placement before each kind of move ---------------------------------------------

  lemma MenBeforeNormal(p: Position, f: Square, t: Square, pc: Piece)
    requires Movable(p, Normal(f, t, pc))
    ensures Moved(MenAfter(p, Normal(f, t, pc)), t, f, Man(p.side, pc)) == p.men
  {}

  lemma MenBeforePromotion(p: Position, f: Square, t: Square, q: Piece)
    requires Movable(p, Promotion(f, t, q))
    ensures (MenAfter(p, Promotion(f, t, q)) - {t})[f := Man(p.side, Pawn)] == p.men
  {}

  lemma MenBeforeCapture(p: Position, f: Square, t: Square, pc: Piece, cap: Piece)
    requires Movable(p, Capture(f, t, pc, cap))
    ensures Moved(MenAfter(p, Capture(f, t, pc, cap)), t, f, Man(p.side, pc))[t := Man(p.side.Other(), cap)] == p.men
  {}

  lemma MenBeforePromoCapture(p: Position, f: Square, t: Square, q: Piece, cap: Piece)
    requires Movable(p, PromoCapture(f, t, q, cap))
    ensures (MenAfter(p, PromoCapture(f, t, q, cap)) - {t})[t := Man(p.side.Other(), cap)][f := Man(p.side, Pawn)] == p.men
  {}

  lemma MenBeforeCastle(p: Position, f: Square, t: Square, r: Right)
    requires Movable(p, Castle(f, t)) && RightOfGoal(t) == Some(r)
    ensures Moved(Moved(MenAfter(p, Castle(f, t)), t, f, Man(p.side, King)), RookGoal(r), RookHome(r), Man(p.side, Rook))
         == p.men
  {}

  lemma MenBeforeEnPassant(p: Position, f: Square, t: Square)
    requires Movable(p, EnPassant(f, t))
    ensures Moved(MenAfter(p, EnPassant(f, t)), t, f, Man(p.side, Pawn))[EpVictim(p.epsq).value := Man(p.side.Other(), Pawn)]
         == p.men
  {}

  // While a captured king is off the board, its side's king field is empty.
  lemma CapturedKingGone(p: Position, m: Move, men: Placement, king: PerColor<Option<Square>>)
    requires Movable(p, m) && m.IsCapture() && (exists k :: KingsAt(p.men, k)) && KingsAt(men, king)
    requires forall s :: s in men && men[s].color == p.side.Other() ==> s != m.t && s in p.men && men[s] == p.men[s]
    ensures m.cap == King ==> king.Get(p.side.Other()) == None
  {
    var c := p.side.Other();
    var k :| KingsAt(p.men, k);
    if m.cap == King && king.Get(c).Some? {
      assert KingOn(men, c, king.Get(c).value);
      assert KingOn(p.men, c, m.t) && KingOn(p.men, c, king.Get(c).value);
      assert false;
    }
  }

  lemma CountBefore(p: Position, m: Move)
    requires Movable(p, m) && m.HasSquares() && |p.moveCount| == SQUARES
    ensures var cnt := CountAfter(p.moveCount, m);
            cnt[Index(m.f) := Dec32(cnt[Index(m.t)])][Index(m.t) := p.moveCount[Index(m.t)]] == p.moveCount
  {}

  // ---- A move in steps --------------------------------------------------------------------

  function MenMoved(p: Position, m: Move): Position {
    p.(men := MenAfter(p, m), castled := if m.Castle? then p.castled + {p.side} else p.castled)
  }

  function RightsMoved(p: Position, m: Move): Position {
    MenMoved(p, m).(flags := FlagsAfter(MenMoved(p, m), m), epsq := EpAfter(m))
  }

  function Ended(p: Position, m: Move): Position
    requires |p.moveCount| == SQUARES
  {
    p.(side := p.side.Other(),
       moveno := if p.side == Black then p.moveno + 1 else p.moveno,
       movecnt50 := if m.PType() == Some(Pawn) || m.IsCapture() then 0 else p.movecnt50 + 1,
       moveCount := CountAfter(p.moveCount, m))
  }

  lemma MovedInSteps(p: Position, m: Move)
    requires |p.moveCount| == SQUARES
    ensures Ended(RightsMoved(p, m), m) == Make(p, m)
  {}

  class Board {
    const z: Zobrist

    var side: Color
    var moveno: int
    var movecnt50: int
    var flags: set<Right>
    var epsq: Option<Square>
    var hasCastled: set<Color>
    var moveCount: seq<U32>
    var bits: Bitboards
    var king: PerColor<Option<Square>>
    var material: PerColor<int>
    var keys: Keys

    // The plain fields are those of position p, and all redundant state equals recomputation from
    // its placement.
    ghost predicate Shows(p: Position)
      reads this
    {
      && side == p.side && moveno == p.moveno && movecnt50 == p.movecnt50 && flags == p.flags && epsq == p.epsq
      && hasCastled == p.castled && moveCount == p.moveCount && |moveCount| == SQUARES
      && bits == BitboardsOf(p.men) && KingsAt(p.men, king) && material == MaterialOf(p.men)
      && keys == KeysOf(z, p.men, p.side, p.epsq, p.flags)
    }

    // Board::clear.
    constructor (z: Zobrist)
      ensures this.z == z && Shows(Cleared(moveCount))
      ensures forall c :: c in moveCount ==> c == 0
    {
      this.z := z;
      side, moveno, movecnt50 := White, 1, 0;
      bits := NoBits();
      king, material := PerColor(None, None), PerColor(0, 0);
      flags, epsq, hasCastled := {}, None, {};
      keys := Keys(ZERO, ZERO);
      moveCount := [];
      new;
      ClearedKeys(z);
      while |moveCount| < SQUARES
        invariant |moveCount| <= SQUARES && forall c :: c in moveCount ==> c == 0
        invariant side == White && moveno == 1 && movecnt50 == 0 && flags == {} && epsq == None && hasCastled == {}
        invariant bits == BitboardsOf(map[]) && KingsAt(map[], king) && material == MaterialOf(map[])
        invariant keys == KeysOf(z, map[], White, None, {})
        modifies `moveCount
      {
        moveCount := moveCount + [0];
      }
    }

    // ---- Men --------------------------------------------------------------------------------

    method SetBits(sq: Square, x: Man, ghost men: Placement)
      requires bits == BitboardsOf(men) && sq !in men
      modifies `bits
      ensures bits == BitboardsOf(men[sq := x])
    {
      BitsPut(men, sq, x);
      bits := BitsWith(bits, sq, x);
    }

    method ClearBits(sq: Square, x: Man, ghost men: Placement)
      requires bits == BitboardsOf(men) && sq in men && men[sq] == x
      modifies `bits
      ensures bits == BitboardsOf(men - {sq})
    {
      BitsLift(men, sq);
      bits := BitsWithout(bits, sq, x);
    }

    method MoveBits(f: Square, t: Square, x: Man, ghost men: Placement)
      requires bits == BitboardsOf(men) && f in men && men[f] == x && t !in men
      modifies `bits
      ensures bits == BitboardsOf(Moved(men, f, t, x))
    {
      ClearBits(f, x, men);
      SetBits(t, x, men - {f});
    }

    method PlacePiece(sq: Square, x: Man, ghost p: Position)
      requires Shows(p) && sq !in p.men && (x.piece == King ==> king.Get(x.color) == None)
      modifies `bits, `king, `material, `keys
      ensures Shows(p.(men := p.men[sq := x]))
    {
      SetBits(sq, x, p.men);
      KingsPut(p.men, king, sq, x);
      MaterialPut(p.men, sq, x);
      KeysPut(z, p.men, side, epsq, flags, sq, x);
      king := KingsWith(king, sq, x);
      material := MaterialWith(material, x);
      keys := KeysWith(z, keys, sq, x);
    }

    method RemovePiece(sq: Square, x: Man, ghost p: Position)
      requires Shows(p) && sq in p.men && p.men[sq] == x
      modifies `bits, `king, `material, `keys
      ensures Shows(p.(men := p.men - {sq}))
    {
      ClearBits(sq, x, p.men);
      KingsLift(p.men, king, sq);
      MaterialLift(p.men, sq);
      KeysLift(z, p.men, side, epsq, flags, sq);
      king := KingsWithout(king, x);
      material := MaterialWithout(material, x);
      keys := KeysWith(z, keys, sq, x);
    }

    method MovePiece(f: Square, t: Square, x: Man, ghost p: Position)
      requires Shows(p) && f in p.men && p.men[f] == x && t !in p.men
      modifies `bits, `king, `keys
      ensures Shows(p.(men := Moved(p.men, f, t, x)))
    {
      MoveBits(f, t, x, p.men);
      KingsMove(p.men, king, f, t);
      MaterialMove(p.men, f, t);
      KeysMove(z, p.men, side, epsq, flags, f, t);
      king := KingsWith(king, t, x);
      keys := KeysWith(z, KeysWith(z, keys, f, x), t, x);
    }

    // ---- Plain fields -----------------------------------------------------------------------

    method SetFlag(r: Right, ghost p: Position)
      requires Shows(p)
      modifies `flags, `keys
      ensures Shows(p.(flags := p.flags + {r}))
    {
      if r in flags {
        assert p.flags + {r} == p.flags;
        return;
      }
      FlagKeys(z, p.men, side, epsq, flags, r);
      flags := flags + {r};
      keys := keys.(hash := Xor(keys.hash, z.right(r)));
    }

    method ClearFlag(r: Right, ghost p: Position)
      requires Shows(p)
      modifies `flags, `keys
      ensures Shows(p.(flags := p.flags - {r}))
    {
      if r !in flags {
        assert p.flags - {r} == p.flags;
        return;
      }
      FlagKeys(z, p.men, side, epsq, flags, r);
      flags := flags - {r};
      keys := keys.(hash := Xor(keys.hash, z.right(r)));
    }

    method SetEpsq(e: Option<Square>, ghost p: Position)
      requires Shows(p)
      modifies `epsq, `keys
      ensures Shows(p.(epsq := e))
    {
      EpKeys(z, p.men, side, epsq, e, flags);
      XorZero(keys.hash);
      if epsq != None {
        keys := keys.(hash := Xor(keys.hash, z.ep(epsq.value)));
      }
      XorZero(keys.hash);
      if e != None {
        keys := keys.(hash := Xor(keys.hash, z.ep(e.value)));
      }
      epsq := e;
    }

    method ClearEpsq(ghost p: Position)
      requires Shows(p)
      modifies `epsq, `keys
      ensures Shows(p.(epsq := None))
    {
      EpKeys(z, p.men, side, epsq, None, flags);
      XorZero(keys.hash);
      if epsq != None {
        keys := keys.(hash := Xor(keys.hash, z.ep(epsq.value)));
      }
      XorZero(keys.hash);
      epsq := None;
    }

    method SwitchSides(ghost p: Position)
      requires Shows(p)
      modifies `side, `keys
      ensures Shows(p.(side := p.side.Other()))
    {
      SideKeys(z, p.men, side, epsq, flags);
      side := side.Other();
      keys := Keys(Xor(keys.hash, z.side), Xor(keys.pawn, z.side));
    }

    method SetSide(c: Color, ghost p: Position)
      requires Shows(p)
      modifies `side, `keys
      ensures Shows(p.(side := c))
    {
      if side != c {
        SwitchSides(p);
      }
      match c { case White => case Black => }
      match p.side { case White => case Black => }
    }

    // ---- make_move --------------------------------------------------------------------------

    function GetEppawn(): Option<Square>
      reads this
    {
      EpVictim(epsq)
    }

    method MakeCapture(m: Move, ghost p: Position)
      requires Shows(p) && Movable(p, m) && m.IsCapture()
      modifies `bits, `king, `material, `keys
      ensures Shows(p.(men := MenAfter(p, m)))
    {
      if m.PromoCapture? {
        MenAfterPromoCapture(p, m.f, m.t, m.promo, m.cap);
        RemovePiece(m.f, Man(side, Pawn), p);
        RemovePiece(m.t, Man(side.Other(), m.cap), p.(men := p.men - {m.f}));
        PlacePiece(m.t, Man(side, m.promo), p.(men := p.men - {m.f} - {m.t}));
      } else {
        MenAfterCapture(p, m.f, m.t, m.p, m.cap);
        RemovePiece(m.t, Man(side.Other(), m.cap), p);
        MovePiece(m.f, m.t, Man(side, m.p), p.(men := p.men - {m.t}));
      }
    }

    method MakeNormal(m: Move, ghost p: Position)
      requires Shows(p) && Movable(p, m) && (m.Normal? || m.Promotion?)
      modifies `bits, `king, `material, `keys
      ensures Shows(p.(men := MenAfter(p, m)))
    {
      if m.Promotion? {
        MenAfterPromotion(p, m.f, m.t, m.promo);
        RemovePiece(m.f, Man(side, Pawn), p);
        PlacePiece(m.t, Man(side, m.promo), p.(men := p.men - {m.f}));
      } else {
        MenAfterNormal(p, m.f, m.t, m.p);
        MovePiece(m.f, m.t, Man(side, m.p), p);
      }
    }

    method MakeEnPassant(m: Move, ghost p: Position)
      requires Shows(p) && Movable(p, m) && m.EnPassant?
      modifies `bits, `king, `material, `keys
      ensures Shows(p.(men := MenAfter(p, m)))
    {
      MenAfterEnPassant(p, m.f, m.t);
      MovePiece(m.f, m.t, Man(side, Pawn), p);
      RemovePiece(GetEppawn().value, Man(side.Other(), Pawn), p.(men := Moved(p.men, m.f, m.t, Man(p.side, Pawn))));
    }

    method MakeCastle(m: Move, ghost p: Position)
      requires Shows(p) && Movable(p, m) && m.Castle?
      modifies `bits, `king, `keys
      ensures Shows(p.(men := MenAfter(p, m)))
    {
      var r := RightOfGoal(m.t).value;
      MenAfterCastle(p, m.f, m.t, r);
      MovePiece(m.f, m.t, Man(side, King), p);
      MovePiece(RookHome(r), RookGoal(r), Man(side, Rook), p.(men := Moved(p.men, m.f, m.t, Man(p.side, King))));
    }

    method MovePieces(m: Move, ghost p: Position)
      requires Shows(p) && Movable(p, m)
      modifies `bits, `king, `material, `keys, `hasCastled
      ensures Shows(MenMoved(p, m))
    {
      match m {
        case NullMove => assert MenAfter(p, m) == p.men;
        case Normal(_, _, _) => MakeNormal(m, p);
        case Capture(_, _, _, _) => MakeCapture(m, p);
        case Promotion(_, _, _) => MakeNormal(m, p);
        case PromoCapture(_, _, _, _) => MakeCapture(m, p);
        case EnPassant(_, _) => MakeEnPassant(m, p);
        case Castle(_, _) =>
          MakeCastle(m, p);
          hasCastled := hasCastled + {side};
      }
    }

    // Clear the flag of a rook that leaves its home square or is captured there.
    method ClearRookFlag(sq: Square, ghost p: Position)
      requires Shows(p)
      modifies `flags, `keys
      ensures Shows(p.(flags := p.flags - RookRight(sq)))
    {
      if sq == A1 {
        ClearFlag(WQ, p);
      } else if sq == H1 {
        ClearFlag(WK, p);
      } else if sq == A8 {
        ClearFlag(BQ, p);
      } else if sq == H8 {
        ClearFlag(BK, p);
      } else {
        assert p.flags - {} == p.flags;
      }
    }

    method ClearKingFlags(ghost p: Position)
      requires Shows(p)
      modifies `flags, `keys
      ensures Shows(p.(flags := p.flags - RightsOf(p.side)))
    {
      if side == White {
        ClearFlag(WK, p);
        ClearFlag(WQ, p.(flags := p.flags - {WK}));
        assert p.flags - {WK} - {WQ} == p.flags - {WK, WQ};
      } else {
        ClearFlag(BK, p);
        ClearFlag(BQ, p.(flags := p.flags - {BK}));
        assert p.flags - {BK} - {BQ} == p.flags - {BK, BQ};
      }
    }

    method ClearFlags(m: Move, ghost p: Position)
      requires Shows(p)
      modifies `flags, `keys
      ensures Shows(p.(flags := FlagsAfter(p, m)))
    {
      ghost var q := p;
      if m.PType() == Some(King) {
        ClearKingFlags(q);
        q := q.(flags := q.flags - RightsOf(q.side));
      }
      if m.PType() == Some(Rook) {
        ClearRookFlag(m.f, q);
        q := q.(flags := q.flags - RookRight(m.f));
      }
      if m.IsCapture() && m.cap == Rook {
        ClearRookFlag(m.t, q);
        q := q.(flags := q.flags - RookRight(m.t));
      }
      assert q.flags == FlagsAfter(p, m);
    }

    method UpdateEpsq(m: Move, ghost p: Position)
      requires Shows(p) && !m.NoMove?
      modifies `epsq, `keys
      ensures Shows(p.(epsq := EpAfter(m)))
    {
      if m.PType() == Some(Pawn) {
        if Index(m.t) - Index(m.f) == 16 {
          SetEpsq(Some(SquareOf(Index(m.t) - 8)), p);
        } else if Index(m.t) - Index(m.f) == -16 {
          SetEpsq(Some(SquareOf(Index(m.t) + 8)), p);
        } else {
          ClearEpsq(p);
        }
      } else {
        ClearEpsq(p);
      }
    }

    method UpdateRights(m: Move, ghost p: Position)
      requires Shows(p) && !m.NoMove?
      modifies `flags, `epsq, `keys
      ensures Shows(p.(flags := FlagsAfter(p, m), epsq := EpAfter(m)))
    {
      ClearFlags(m, p);
      UpdateEpsq(m, p.(flags := FlagsAfter(p, m)));
    }

    method UpdateCounters(m: Move, ghost p: Position)
      requires Shows(p) && !m.NoMove?
      modifies `moveno, `movecnt50, `moveCount
      ensures Shows(p.(moveno := if p.side == White then p.moveno + 1 else p.moveno,
                       movecnt50 := if m.PType() == Some(Pawn) || m.IsCapture() then 0 else p.movecnt50 + 1,
                       moveCount := CountAfter(p.moveCount, m)))
    {
      if side == White {
        moveno := moveno + 1;
      }
      if m.PType() == Some(Pawn) || m.IsCapture() {
        movecnt50 := 0;
      } else {
        movecnt50 := movecnt50 + 1;
      }
      if !m.NullMove? {
        moveCount := moveCount[Index(m.t) := Inc32(moveCount[Index(m.f)])];
        moveCount := moveCount[Index(m.f) := 0];
      }
    }

    method EndMove(m: Move, ghost p: Position)
      requires Shows(p) && !m.NoMove?
      modifies `side, `moveno, `movecnt50, `moveCount, `keys
      ensures Shows(Ended(p, m))
    {
      SwitchSides(p);
      UpdateCounters(m, p.(side := p.side.Other()));
    }

    // The men and the rights of make_move.
    method AdvanceMen(m: Move, ghost p: Position)
      requires Shows(p) && Movable(p, m)
      modifies `bits, `king, `material, `keys, `hasCastled, `flags, `epsq
      ensures Shows(RightsMoved(p, m))
    {
      MovePieces(m, p);
      UpdateRights(m, MenMoved(p, m));
    }

    // All of make_move but the history.
    method Advance(m: Move, ghost p: Position)
      requires Shows(p) && Movable(p, m)
      modifies this
      ensures Shows(Make(p, m))
    {
      AdvanceMen(m, p);
      EndMove(m, RightsMoved(p, m));
      MovedInSteps(p, m);
    }

    // Every board that a move can be made on shows the position after the move, and the returned
    // history holds what cannot be recomputed.
    method MakeMove(m: Move, ghost p: Position) returns (hist: BoardHistory)
      requires Shows(p) && Movable(p, m)
      modifies this
      ensures Shows(Make(p, m)) && hist == HistoryOf(p, m)
    {
      hist := BoardHistory(m, flags, epsq, movecnt50, if m.HasSquares() then moveCount[Index(m.t)] else 0);
      Advance(m, p);
    }

    // ---- unmake_move ------------------------------------------------------------------------

    method RestoreMoveCount(hist: BoardHistory, ghost p: Position, ghost q: Position)
      requires Movable(p, hist.move) && |p.moveCount| == SQUARES && hist == HistoryOf(p, hist.move)
      requires Shows(q) && q.moveCount == CountAfter(p.moveCount, hist.move)
      modifies `moveCount
      ensures Shows(q.(moveCount := p.moveCount))
    {
      var m := hist.move;
      if !m.NullMove? {
        CountBefore(p, m);
        moveCount := moveCount[Index(m.f) := Dec32(moveCount[Index(m.t)])];
        moveCount := moveCount[Index(m.t) := hist.moveCountTo];
      }
    }

    method RestoreCounters(hist: BoardHistory, ghost p: Position, ghost q: Position)
      requires Movable(p, hist.move) && |p.moveCount| == SQUARES && hist == HistoryOf(p, hist.move)
      requires Shows(q) && q == Make(p, hist.move)
      modifies `moveno, `movecnt50, `moveCount
      ensures Shows(q.(moveno := p.moveno, movecnt50 := p.movecnt50, moveCount := p.moveCount))
    {
      RestoreMoveCount(hist, p, q);
      movecnt50 := hist.movecnt50;
      if side == White {
        moveno := moveno - 1;
      }
      match p.side { case White => case Black => }
    }

    method RestoreFlags(was: set<Right>, ghost p: Position)
      requires Shows(p) && p.flags <= was
      modifies `flags, `keys
      ensures Shows(p.(flags := was))
    {
      ghost var q := p;
      if WK in was { SetFlag(WK, q); q := q.(flags := q.flags + {WK}); }
      if WQ in was { SetFlag(WQ, q); q := q.(flags := q.flags + {WQ}); }
      if BK in was { SetFlag(BK, q); q := q.(flags := q.flags + {BK}); }
      if BQ in was { SetFlag(BQ, q); q := q.(flags := q.flags + {BQ}); }
      forall r: Right ensures r in q.flags <==> r in was {
        match r { case WK => case WQ => case BK => case BQ => }
      }
      assert q.flags == was;
    }

    method UnmakeCapture(m: Move, ghost p: Position, ghost q: Position)
      requires Movable(p, m) && m.Capture? && (exists k :: KingsAt(p.men, k))
      requires Shows(q) && q == p.(men := MenAfter(p, m))
      modifies `bits, `king, `material, `keys
      ensures Shows(p)
    {
      ghost var men := Moved(q.men, m.t, m.f, Man(p.side, m.p));
      MenBeforeCapture(p, m.f, m.t, m.p, m.cap);
      MovePiece(m.t, m.f, Man(side, m.p), q);
      CapturedKingGone(p, m, men, king);
      PlacePiece(m.t, Man(side.Other(), m.cap), q.(men := men));
    }

    method UnmakePromoCapture(m: Move, ghost p: Position, ghost q: Position)
      requires Movable(p, m) && m.PromoCapture? && (exists k :: KingsAt(p.men, k))
      requires Shows(q) && q == p.(men := MenAfter(p, m))
      modifies `bits, `king, `material, `keys
      ensures Shows(p)
    {
      ghost var men := q.men - {m.t};
      MenBeforePromoCapture(p, m.f, m.t, m.promo, m.cap);
      RemovePiece(m.t, Man(side, m.promo), q);
      CapturedKingGone(p, m, men, king);
      PlacePiece(m.t, Man(side.Other(), m.cap), q.(men := men));
      PlacePiece(m.f, Man(side, Pawn), q.(men := men[m.t := Man(p.side.Other(), m.cap)]));
    }

    method UnmakeNormal(m: Move, ghost p: Position, ghost q: Position)
      requires Movable(p, m) && (m.Normal? || m.Promotion?)
      requires Shows(q) && q == p.(men := MenAfter(p, m))
      modifies `bits, `king, `material, `keys
      ensures Shows(p)
    {
      if m.Promotion? {
        MenBeforePromotion(p, m.f, m.t, m.promo);
        RemovePiece(m.t, Man(side, m.promo), q);
        PlacePiece(m.f, Man(side, Pawn), q.(men := q.men - {m.t}));
      } else {
        MenBeforeNormal(p, m.f, m.t, m.p);
        MovePiece(m.t, m.f, Man(side, m.p), q);
      }
    }

    method UnmakeEnPassant(m: Move, ghost p: Position, ghost q: Position)
      requires Movable(p, m) && m.EnPassant?
      requires Shows(q) && q == p.(men := MenAfter(p, m))
      modifies `bits, `king, `material, `keys
      ensures Shows(p)
    {
      MenBeforeEnPassant(p, m.f, m.t);
      MovePiece(m.t, m.f, Man(side, Pawn), q);
      PlacePiece(GetEppawn().value, Man(side.Other(), Pawn), q.(men := Moved(q.men, m.t, m.f, Man(p.side, Pawn))));
    }

    method UnmakeCastle(m: Move, ghost p: Position, ghost q: Position)
      requires Movable(p, m) && m.Castle?
      requires Shows(q) && q == p.(men := MenAfter(p, m))
      modifies `bits, `king, `material, `keys
      ensures Shows(p)
    {
      var r := RightOfGoal(m.t).value;
      MenBeforeCastle(p, m.f, m.t, r);
      MovePiece(m.t, m.f, Man(side, King), q);
      MovePiece(RookGoal(r), RookHome(r), Man(side, Rook), q.(men := Moved(q.men, m.t, m.f, Man(p.side, King))));
    }

    method UnmovePieces(m: Move, ghost p: Position)
      requires Movable(p, m) && (m.Castle? ==> p.side !in p.castled) && (exists k :: KingsAt(p.men, k))
      requires Shows(p.(men := MenAfter(p, m), castled := if m.Castle? then p.castled + {p.side} else p.castled))
      modifies `bits, `king, `material, `keys, `hasCastled
      ensures Shows(p)
    {
      ghost var q := p.(men := MenAfter(p, m));
      match m {
        case NullMove => assert MenAfter(p, m) == p.men;
        case Normal(_, _, _) => UnmakeNormal(m, p, q);
        case Capture(_, _, _, _) => UnmakeCapture(m, p, q);
        case Promotion(_, _, _) => UnmakeNormal(m, p, q);
        case PromoCapture(_, _, _, _) => UnmakePromoCapture(m, p, q);
        case EnPassant(_, _) => UnmakeEnPassant(m, p, q);
        case Castle(_, _) =>
          assert p.castled + {p.side} - {p.side} == p.castled;
          hasCastled := hasCastled - {side};
          UnmakeCastle(m, p, q);
      }
    }

    // unmake_move after make_move gives the board of the position before, for every kind of move.
    method UnmakeMove(hist: BoardHistory, ghost p: Position)
      requires Movable(p, hist.move) && |p.moveCount| == SQUARES && hist == HistoryOf(p, hist.move)
      requires (hist.move.Castle? ==> p.side !in p.castled) && (exists k :: KingsAt(p.men, k))
      requires Shows(Make(p, hist.move))
      modifies this
      ensures Shows(p)
    {
      ghost var q := Make(p, hist.move);
      RestoreCounters(hist, p, q);
      q := q.(moveno := p.moveno, movecnt50 := p.movecnt50, moveCount := p.moveCount);
      SwitchSides(q);
      match p.side { case White => case Black => }
      q := q.(side := p.side);
      SetEpsq(hist.epsq, q);
      q := q.(epsq := p.epsq);
      RestoreFlags(hist.flags, q);
      UnmovePieces(hist.move, p);
    }

    method MakeAndUnmake(m: Move, ghost p: Position)
      requires Shows(p) && Movable(p, m) && (m.Castle? ==> p.side !in p.castled)
      modifies this
      ensures side == old(side) && moveno == old(moveno) && movecnt50 == old(movecnt50) && flags == old(flags)
      ensures epsq == old(epsq) && hasCastled == old(hasCastled) && moveCount == old(moveCount)
      ensures bits == old(bits) && king == old(king) && material == old(material) && keys == old(keys)
    {
      ghost var k := king;
      var hist := MakeMove(m, p);
      UnmakeMove(hist, p);
      KingsAtUnique(p.men, k, king);
    }

    // ---- Runs of operations -----------------------------------------------------------------

    method Perform(op: Operation, ghost p: Position)
      requires Shows(p) && Allowed(p, op)
      modifies this
      ensures Shows(Performed(p, op))
    {
      match op {
        case Place(s, x) =>
          if x.piece == King { NoKingNoField(p.men, king, x.color); }
          PlacePiece(s, x, p);
        case Remove(s, x) => RemovePiece(s, x, p);
        case Shift(f, t, x) => MovePiece(f, t, x, p);
        case Grant(r) => SetFlag(r, p);
        case Revoke(r) => ClearFlag(r, p);
        case Ep(e) => SetEpsq(e, p);
        case NoEp => ClearEpsq(p);
        case Turn(c) => SetSide(c, p);
        case Play(m) => var _ := MakeMove(m, p);
      }
    }

    // After any run of operations all redundant state still equals recomputation.
    method PerformAll(ops: seq<Operation>, ghost p: Position)
      requires Shows(p) && AllAllowed(p, ops)
      modifies this
      ensures Shows(PerformedAll(p, ops))
    {
      var i := 0;
      ghost var q := p;
      while i < |ops|
        invariant 0 <= i <= |ops| && Shows(q) && AllAllowed(q, ops[i..])
        invariant PerformedAll(q, ops[i..]) == PerformedAll(p, ops)
      {
        assert ops[i..][0] == ops[i] && ops[i..][1..] == ops[i + 1..];
        Perform(ops[i], q);
        q := Performed(q, ops[i]);
        i := i + 1;
      }
    }

    // get_hashkey_noside.
    function HashkeyNoside(): (k: Key)
      reads this
    {
      if side == Black then Xor(keys.hash, z.side) else keys.hash
    }
  }

  // Boards that show equal placement, side, flags and en-passant square have equal keys, whatever
  // the ways they were reached.
  lemma EqualPositionsEqualKeys(a: Board, b: Board, p: Position, q: Position)
    requires a.z == b.z && a.Shows(p) && b.Shows(q)
    requires p.men == q.men && p.epsq == q.epsq && p.flags == q.flags
    ensures p.side == q.side ==> a.keys == b.keys
    ensures a.HashkeyNoside() == b.HashkeyNoside()
    ensures a.bits == b.bits && a.king == b.king && a.material == b.material
  {
    KingsAtUnique(p.men, a.king, b.king);
    NosideKeys(a, p);
    NosideKeys(b, q);
  }

  lemma NosideKeys(b: Board, p: Position)
    requires b.Shows(p)
    ensures b.HashkeyNoside() == HashOf(b.z, p.men, White, p.epsq, p.flags)
  {}
}
