// What every legal move keeps.
module Legality {
  import opened Basic
  import opened Moves
  import opened Rules

  lemma KingCaptureIsAttack(p: Position, m: Move, allpromo: bool)
    requires Pseudo(p, m, allpromo) && m.IsCapture() && m.cap == King
    ensures KingAttacked(p.men, p.side.Other())
  {
    assert AttackedFrom(p.men, m.f, m.t, p.side);
    assert KingOn(p.men, p.side.Other(), m.t);
    match p.side { case White => case Black => }
  }

  // In a legal position no pseudo-legal move captures a king.
  lemma NoKingCapture(p: Position, m: Move, allpromo: bool)
    requires Invariant(p) && Pseudo(p, m, allpromo) && m.IsCapture()
    ensures m.cap != King
  {
    if m.cap == King {
      KingCaptureIsAttack(p, m, allpromo);
    }
  }

  // Castling is done with king and rook at home.
  lemma CastlingAtHome(p: Position, m: Move, allpromo: bool)
    requires Invariant(p) && Pseudo(p, m, allpromo) && m.Castle?
    ensures RightOfGoal(m.t).Some?
    ensures var r := RightOfGoal(m.t).value;
            && MayCastle(p, r) && m.f == KingHome(r) && m.t == KingGoal(r) && RightSide(r) == p.side && r in p.flags
            && HomeHeld(p.men, r)
  {}

  // No move but the capture of a king changes where the other side's king stands.
  lemma OtherKingStays(p: Position, m: Move, allpromo: bool, s: Square)
    requires Pseudo(p, m, allpromo) && (m.IsCapture() ==> m.cap != King) && EpOk(p)
    requires m.Castle? ==> RightOfGoal(m.t).Some? && HomeHeld(p.men, RightOfGoal(m.t).value) && RightSide(RightOfGoal(m.t).value) == p.side
    ensures KingOn(MenAfter(p, m), p.side.Other(), s) <==> KingOn(p.men, p.side.Other(), s)
  {}

  lemma KeepsOtherKing(p: Position, m: Move, allpromo: bool)
    requires Invariant(p) && Pseudo(p, m, allpromo)
    ensures HasSoleKing(MenAfter(p, m), p.side.Other())
  {
    var c := p.side.Other();
    if m.IsCapture() { NoKingCapture(p, m, allpromo); }
    if m.Castle? { CastlingAtHome(p, m, allpromo); }
    forall s: Square ensures KingOn(MenAfter(p, m), c, s) <==> KingOn(p.men, c, s) {
      OtherKingStays(p, m, allpromo, s);
    }
    assert SoleKing(MenAfter(p, m), c, TheKing(p.men, c));
  }

  lemma KingMoveKeepsKing(p: Position, m: Move, allpromo: bool)
    requires Invariant(p) && Pseudo(p, m, allpromo) && m.PType() == Some(King)
    ensures SoleKing(MenAfter(p, m), p.side, m.t)
  {
    var men := MenAfter(p, m);
    if m.Castle? { CastlingAtHome(p, m, allpromo); }
    assert KingOn(p.men, p.side, m.f) && m.f == TheKing(p.men, p.side);
    assert KingOn(men, p.side, m.t);
    forall s: Square | KingOn(men, p.side, s) ensures s == m.t {
      if s !in Put(p, m) { assert KingOn(p.men, p.side, s); }
    }
  }

  lemma OtherMoveKeepsKing(p: Position, m: Move, allpromo: bool)
    requires Invariant(p) && Pseudo(p, m, allpromo) && m.PType() != Some(King)
    ensures SoleKing(MenAfter(p, m), p.side, TheKing(p.men, p.side))
  {
    forall s: Square ensures KingOn(MenAfter(p, m), p.side, s) <==> KingOn(p.men, p.side, s) {}
  }

  lemma KeepsOwnKing(p: Position, m: Move, allpromo: bool)
    requires Invariant(p) && Pseudo(p, m, allpromo)
    ensures SoleKing(MenAfter(p, m), p.side, if m.PType() == Some(King) then m.t else TheKing(p.men, p.side))
    ensures HasSoleKing(MenAfter(p, m), p.side)
  {
    if m.PType() == Some(King) {
      KingMoveKeepsKing(p, m, allpromo);
    } else {
      OtherMoveKeepsKing(p, m, allpromo);
    }
  }

  // A pawn that a move puts down was a pawn, and not about to promote.
  lemma PawnPutDown(p: Position, m: Move, allpromo: bool, s: Square)
    requires Pseudo(p, m, allpromo) && PawnsOff(p.men) && s in Put(p, m) && Put(p, m)[s].piece == Pawn
    requires m.EnPassant? ==> EpOk(p)
    ensures 0 < s.rnk < 7
  {
    assert m.PType() == Some(Pawn) && s == m.t && m.f in p.men && p.men[m.f].piece == Pawn;
  }

  lemma KeepsPawnsOff(p: Position, m: Move, allpromo: bool)
    requires Invariant(p) && Pseudo(p, m, allpromo)
    ensures PawnsOff(MenAfter(p, m))
  {
    forall s: Square | s in MenAfter(p, m) && MenAfter(p, m)[s].piece == Pawn ensures 0 < s.rnk < 7 {
      if s in Put(p, m) { PawnPutDown(p, m, allpromo, s); }
    }
  }

  lemma CastleUntouched(p: Position, m: Move, allpromo: bool, s: Square)
    requires Invariant(p) && Pseudo(p, m, allpromo) && m.Castle? && s in p.men && s != m.f && s != m.t
    requires p.men[s] != Man(p.side, Rook)
    ensures s !in Gone(p, m) && s !in Put(p, m)
  {
    CastlingAtHome(p, m, allpromo);
  }

  lemma EpUntouched(p: Position, m: Move, allpromo: bool, s: Square)
    requires Invariant(p) && Pseudo(p, m, allpromo) && m.EnPassant? && s in p.men && s != m.f && s != m.t
    requires p.men[s] != Man(p.side.Other(), Pawn)
    ensures s !in Gone(p, m) && s !in Put(p, m)
  {
    assert EpOk(p);
  }

  lemma PlainUntouched(p: Position, m: Move, s: Square)
    requires m.HasSquares() && !m.Castle? && !m.EnPassant? && s != m.f && s != m.t
    ensures s !in Gone(p, m) && s !in Put(p, m)
  {}

  // A square whose man is neither moved nor captured keeps it.
  lemma Untouched(p: Position, m: Move, allpromo: bool, s: Square)
    requires Invariant(p) && Pseudo(p, m, allpromo)
    requires s in p.men && s != m.f && s != m.t
    requires m.EnPassant? ==> p.men[s] != Man(p.side.Other(), Pawn)
    requires m.Castle? ==> p.men[s] != Man(p.side, Rook)
    ensures s in MenAfter(p, m) && MenAfter(p, m)[s] == p.men[s]
  {
    if m.Castle? {
      CastleUntouched(p, m, allpromo, s);
    } else if m.EnPassant? {
      EpUntouched(p, m, allpromo, s);
    } else {
      PlainUntouched(p, m, s);
    }
  }

  lemma KeepsKingHome(p: Position, m: Move, allpromo: bool, r: Right)
    requires Invariant(p) && Pseudo(p, m, allpromo) && r in FlagsAfter(p, m)
    ensures KingOn(MenAfter(p, m), RightSide(r), KingHome(r))
  {
    assert HomeHeld(p.men, r);
    if m.IsCapture() { NoKingCapture(p, m, allpromo); }
    assert m.f != KingHome(r) && m.t != KingHome(r);
    Untouched(p, m, allpromo, KingHome(r));
  }

  lemma KeepsRookHome(p: Position, m: Move, allpromo: bool, r: Right)
    requires Invariant(p) && Pseudo(p, m, allpromo) && r in FlagsAfter(p, m)
    ensures RookHome(r) in MenAfter(p, m) && MenAfter(p, m)[RookHome(r)] == Man(RightSide(r), Rook)
  {
    assert HomeHeld(p.men, r);
    if m.Castle? { CastlingAtHome(p, m, allpromo); }
    assert m.f != RookHome(r) && m.t != RookHome(r);
    Untouched(p, m, allpromo, RookHome(r));
  }

  // A double push leaves behind exactly the en-passant square the invariant describes; undoing it
  // gives the legal position before.
  lemma KeepsEp(p: Position, m: Move, allpromo: bool)
    requires Invariant(p) && Pseudo(p, m, allpromo)
    ensures EpOk(Make(p, m))
  {
    var q := Make(p, m);
    if q.epsq.Some? {
      var e := q.epsq.value;
      DoublePush(p, m, allpromo);
      assert q.men == Moved(p.men, m.f, m.t, Man(p.side, Pawn));
      assert Retracted(q.men, e, q.side) == p.men;
    }
  }

  // Only a double pawn push sets the en-passant square.
  lemma DoublePush(p: Position, m: Move, allpromo: bool)
    requires Invariant(p) && Pseudo(p, m, allpromo) && EpAfter(m).Some?
    ensures m.Normal? && m.p == Pawn && m.t == Sq(m.f.fil, m.f.rnk + 2 * Forward(p.side))
    ensures m.f.rnk == SecondRank(p.side) && m.t !in p.men && EpAfter(m).value !in p.men
    ensures EpAfter(m).value == Sq(m.f.fil, m.f.rnk + Forward(p.side))
  {}

  lemma KeepsHome(p: Position, m: Move, allpromo: bool, r: Right)
    requires Invariant(p) && Pseudo(p, m, allpromo) && r in FlagsAfter(p, m)
    ensures HomeHeld(MenAfter(p, m), r) && RightSide(r) !in Make(p, m).castled
  {
    KeepsKingHome(p, m, allpromo, r);
    KeepsRookHome(p, m, allpromo, r);
  }

  // Every legal move from a position with the invariant leads to a position with the invariant.
  lemma MakeKeepsInvariant(p: Position, m: Move, allpromo: bool)
    requires Invariant(p) && Legal(p, m, allpromo)
    ensures Invariant(Make(p, m))
  {
    KeepsOwnKing(p, m, allpromo);
    KeepsOtherKing(p, m, allpromo);
    KeepsPawnsOff(p, m, allpromo);
    KeepsEp(p, m, allpromo);
    forall r | r in FlagsAfter(p, m) ensures HomeHeld(MenAfter(p, m), r) && RightSide(r) !in Make(p, m).castled {
      KeepsHome(p, m, allpromo, r);
    }
  }

  // So does passing, when not in check.
  lemma NullKeepsInvariant(p: Position)
    requires Invariant(p) && !KingAttacked(p.men, p.side)
    ensures Invariant(Make(p, NullMove))
  {
    assert MenAfter(p, NullMove) == p.men;
  }

  ghost predicate Playable(p: Position, m: Move) {
    if m.NullMove? then !KingAttacked(p.men, p.side) else Legal(p, m, true)
  }

  ghost function Play(p: Position, moves: seq<Move>): Position
    requires |p.moveCount| == SQUARES
    decreases |moves|
  {
    if moves == [] then p else Play(Make(p, moves[0]), moves[1..])
  }

  ghost predicate LegalRun(p: Position, moves: seq<Move>)
    requires |p.moveCount| == SQUARES
    decreases |moves|
  {
    moves == [] || (Playable(p, moves[0]) && LegalRun(Make(p, moves[0]), moves[1..]))
  }

  // Over every run of legal moves and passes: castling rights have king and rook at home, the
  // en-passant square is real, each side has one king, no pawn stands on the first or last rank.
  lemma {:induction false} RunKeepsInvariant(p: Position, moves: seq<Move>)
    requires Invariant(p) && LegalRun(p, moves)
    ensures Invariant(Play(p, moves))
    decreases |moves|
  {
    if moves != [] {
      if moves[0].NullMove? { NullKeepsInvariant(p); } else { MakeKeepsInvariant(p, moves[0], true); }
      RunKeepsInvariant(Make(p, moves[0]), moves[1..]);
    }
  }
}
