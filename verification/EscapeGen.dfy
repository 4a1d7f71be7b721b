// The generator for positions in check (src/chess/board_generate.cc, generate_escapes and add_move).
module EscapeGen {
  import opened Basic
  import opened Geometry
  import opened Moves
  import opened Rules
  import opened Escapes
  import opened Tables
  import opened AttackQueries
  import opened MoveLists
  import opened MoveGen

  // ---- add_move ---------------------------------------------------------------------------

  lemma AddsMoveSquares(p: Position, f: Square, t: Square, m: Move)
    requires f in p.men && AddsMove(p, f, t, m)
    ensures m.HasSquares() && m.f == f && m.t == t
  {}

  // A single move described by its squares; a promotion gives two.
  method AddMove(v: Seen, list: Movelist, from: Square, to: Square, ghost p: Position)
    requires Sees(v, p) && from in p.men && p.men[from].color == p.side && list.Valid() && Distinct(list.all)
    requires forall m :: m in list.all ==> !AddsMove(p, from, to, m)
    modifies list
    ensures list.Valid() && Distinct(list.all)
    ensures forall m :: m in list.all <==> m in old(list.all) || AddsMove(p, from, to, m)
  {
    PieceAtIs(v.bits, p.men, from);
    PieceAtIs(v.bits, p.men, to);
    FoeBits(v, p, to);
    var ptype := PieceAt(v.bits, from).value;
    if ptype == Pawn && v.epsq == Some(to) {
      list.Add(EnPassant(from, to));
    } else if to in v.bits.positionAll.Get(v.side.Other()) {
      var cap := PieceAt(v.bits, to).value;
      if ptype == Pawn && LastRank(v.side, to) {
        AddTwo(list, PromoCapture(from, to, Queen, cap), PromoCapture(from, to, Knight, cap));
      } else {
        list.Add(Capture(from, to, ptype, cap));
      }
    } else {
      if ptype == Pawn && LastRank(v.side, to) {
        AddTwo(list, Promotion(from, to, Queen), Promotion(from, to, Knight));
      } else {
        list.Add(Normal(from, to, ptype));
      }
    }
  }

  method AddTwo(list: Movelist, m: Move, n: Move)
    requires list.Valid() && Distinct(list.all) && m != n && m !in list.all && n !in list.all
    modifies list
    ensures list.Valid() && Distinct(list.all)
    ensures forall x :: x in list.all <==> x in old(list.all) || x == m || x == n
  {
    list.Add(m);
    list.Add(n);
  }

  lemma FoeBits(v: Seen, p: Position, s: Square)
    requires Sees(v, p)
    ensures s in v.bits.positionAll.Get(v.side.Other()) <==> s in p.men && p.men[s].color == p.side.Other()
    ensures s in v.bits.positionAll.Get(v.side) <==> s in p.men && p.men[s].color == p.side
  {}

  // The moves of some men to one square.
  predicate MovesTo(p: Position, froms: Bitboard, to: Square, m: Move) {
    m.HasSquares() && m.f in froms && m.f in p.men && AddsMove(p, m.f, to, m)
  }

  method AddMovesTo(v: Seen, list: Movelist, from_bb: Bitboard, to: Square, ghost p: Position)
    requires Sees(v, p) && list.Valid() && Distinct(list.all)
    requires forall s :: s in from_bb ==> s in p.men && p.men[s].color == p.side
    requires forall m :: m in list.all ==> !MovesTo(p, from_bb, to, m)
    modifies list
    ensures list.Valid() && Distinct(list.all)
    ensures forall m :: m in list.all <==> m in old(list.all) || MovesTo(p, from_bb, to, m)
  {
    var bb := from_bb;
    while bb != {}
      invariant bb <= from_bb && list.Valid() && Distinct(list.all)
      invariant forall m :: m in list.all <==> m in old(list.all) || MovesTo(p, from_bb - bb, to, m)
      decreases bb
    {
      var from :| from in bb;
      bb := bb - {from};
      forall m | AddsMove(p, from, to, m) ensures MovesTo(p, from_bb, to, m) && m.f == from { AddsMoveSquares(p, from, to, m); }
      AddMove(v, list, from, to, p);
    }
    assert from_bb - bb == from_bb;
  }

  // ---- King moves -------------------------------------------------------------------------

  predicate KingGoes(p: Position, k: Square, targets: Bitboard, m: Move) {
    match m
    case Normal(f, t, pc) => f == k && pc == King && t in targets && t !in p.men
    case Capture(f, t, pc, cap) => f == k && pc == King && t in targets && Foe(p, t, cap)
    case _ => false
  }

  method AddKingEscapes(v: Seen, t: AttackTables, list: Movelist, k: Square, to_bb: Bitboard, ghost p: Position)
    requires Sees(v, p) && t.Valid() && list.Valid() && Distinct(list.all)
    requires forall u :: u in to_bb ==> !(u in p.men && p.men[u].color == p.side)
    requires list.all == []
    modifies list
    ensures list.Valid() && Distinct(list.all)
    ensures forall m :: m in list.all <==> KingGoes(p, k, to_bb, m) && !Attacked(p.men, m.t, p.side.Other())
  {
    var bb := to_bb;
    while bb != {}
      invariant bb <= to_bb && list.Valid() && Distinct(list.all)
      invariant forall m :: m in list.all <==> KingGoes(p, k, to_bb - bb, m) && !Attacked(p.men, m.t, p.side.Other())
      decreases bb
    {
      var to :| to in bb;
      bb := bb - {to};
      AddKingStep(v, t, list, k, to, p);
    }
    assert to_bb - bb == to_bb;
  }

  method AddKingStep(v: Seen, t: AttackTables, list: Movelist, k: Square, to: Square, ghost p: Position)
    requires Sees(v, p) && t.Valid() && list.Valid() && Distinct(list.all)
    requires !(to in p.men && p.men[to].color == p.side)
    requires forall m :: m in list.all ==> !KingGoes(p, k, {to}, m)
    modifies list
    ensures list.Valid() && Distinct(list.all)
    ensures forall m :: m in list.all <==> m in old(list.all) || (KingGoes(p, k, {to}, m) && !Attacked(p.men, to, p.side.Other()))
  {
    IsAttackedIs(v.bits, t, p.men, v.epsq, to, v.side.Other());
    PieceAtIs(v.bits, p.men, to);
    FoeBits(v, p, to);
    if !IsAttacked(v.bits, t, v.epsq, to, v.side.Other()) {
      var mov :=
        if to in v.bits.positionAll.Get(v.side.Other()) then Capture(k, to, King, PieceAt(v.bits, to).value)
        else Normal(k, to, King);
      KingStepMove(p, k, to, mov);
      list.Add(mov);
    }
  }

  lemma KingStepMove(p: Position, k: Square, to: Square, mov: Move)
    requires !(to in p.men && p.men[to].color == p.side)
    requires mov == if to in p.men && p.men[to].color == p.side.Other() then Capture(k, to, King, p.men[to].piece)
                    else Normal(k, to, King)
    ensures forall m :: KingGoes(p, k, {to}, m) <==> m == mov
  {}

  // ---- Answers to a single checker --------------------------------------------------------

  lemma CheckerIsFoe(p: Position, c: Square)
    requires HasSoleKing(p.men, p.side) && Checker(p, c)
    ensures c in p.men && p.men[c] == Man(p.side.Other(), p.men[c].piece)
  {}

  // The men that can take the checker, without the king.
  lemma TakersAre(v: Seen, t: AttackTables, c: Square, p: Position)
    requires Sees(v, p) && t.Valid()
    ensures forall s: Square :: s in Attackers(v.bits, t, v.epsq, c, v.side) - Men(v.bits, v.side, King)
              <==> AttackedFrom(p.men, s, c, p.side) && !KingOn(p.men, p.side, s)
  {
    forall s: Square ensures s in Attackers(v.bits, t, v.epsq, c, v.side) - Men(v.bits, v.side, King)
              <==> AttackedFrom(p.men, s, c, p.side) && !KingOn(p.men, p.side, s)
    {
      AttackersAre(v.bits, t, p.men, v.epsq, c, v.side, s);
      MenAre(v.bits, p.men, v.side, King, s);
    }
  }

  lemma TakersMove(p: Position, froms: Bitboard, c: Square, m: Move)
    requires forall s: Square :: s in froms <==> AttackedFrom(p.men, s, c, p.side) && !KingOn(p.men, p.side, s)
    requires c in p.men && p.men[c].color == p.side.Other() && EpStands(p)
    ensures MovesTo(p, froms, c, m) <==> CapturesChecker(p, c, m)
    ensures CapturesChecker(p, c, m) ==> (m.Capture? && m.p != King) || m.PromoCapture?
  {}

  predicate EpFrom(p: Position, froms: Bitboard, m: Move) {
    m.EnPassant? && m.f in froms && p.epsq == Some(m.t)
  }

  method AddEnPassants(list: Movelist, from_bb: Bitboard, ep: Square, ghost p: Position)
    requires p.epsq == Some(ep) && list.Valid() && Distinct(list.all) && forall m :: m in list.all ==> !m.EnPassant?
    modifies list
    ensures list.Valid() && Distinct(list.all)
    ensures forall m :: m in list.all <==> m in old(list.all) || EpFrom(p, from_bb, m)
  {
    var bb := from_bb;
    while bb != {}
      invariant bb <= from_bb && list.Valid() && Distinct(list.all)
      invariant forall m :: m in list.all <==> m in old(list.all) || EpFrom(p, from_bb - bb, m)
      decreases bb
    {
      var from :| from in bb;
      bb := bb - {from};
      assert EpFrom(p, from_bb, EnPassant(from, ep));
      list.Add(EnPassant(from, ep));
    }
    assert from_bb - bb == from_bb;
  }

  lemma EpTakersMove(v: Seen, t: AttackTables, c: Square, p: Position, m: Move)
    requires Sees(v, p) && t.Valid() && p.epsq.Some? && EpVictim(p.epsq) == Some(c)
    ensures EpFrom(p, PawnCaptures(v.bits, t, v.epsq, p.epsq.value, v.side.Other()) * Men(v.bits, v.side, Pawn), m)
       <==> CapturesCheckerEp(p, c, m)
  {
    if m.EnPassant? {
      PawnCapturesAre(v.bits, t, p.men, v.epsq, p.epsq.value, v.side.Other(), m.f);
      MenAre(v.bits, p.men, v.side, Pawn, m.f);
    }
  }

  // ---- Blocks -----------------------------------------------------------------------------

  // The pawn that can advance to a square, as the bit tests find it.
  function PushFrom(v: Seen, t: Square): Bitboard {
    var pawns := Men(v.bits, v.side, Pawn);
    var back := t.rnk - Forward(v.side);
    if OnBoard(t.fil, back) && Sq(t.fil, back) in pawns then {Sq(t.fil, back)}
    else if t.rnk == (if v.side == White then 3 else 4) && Sq(t.fil, back) !in v.bits.occupied
            && Sq(t.fil, back - Forward(v.side)) in pawns
    then {Sq(t.fil, back - Forward(v.side))}
    else {}
  }

  lemma PushFromIs(v: Seen, t: Square, p: Position, s: Square)
    requires Sees(v, p)
    ensures s in PushFrom(v, t) <==> PushSource(p, t) == Some(s)
  {}

  function BlockersTo(v: Seen, t: AttackTables, to: Square): Bitboard
    requires t.Valid()
    reads t.attackBb, t.pawnCaptBb, t.rayBb, t.rotAtk0, t.rotAtkL90, t.rotAtkL45, t.rotAtkR45
  {
    Attackers(v.bits, t, v.epsq, to, v.side) - Men(v.bits, v.side, Pawn) - Men(v.bits, v.side, King) + PushFrom(v, to)
  }

  lemma BlockersAre(v: Seen, t: AttackTables, to: Square, p: Position, s: Square)
    requires Sees(v, p) && t.Valid()
    ensures s in BlockersTo(v, t, to) <==> BlockSource(p, s, to)
  {
    AttackersAre(v.bits, t, p.men, v.epsq, to, v.side, s);
    MenAre(v.bits, p.men, v.side, Pawn, s);
    MenAre(v.bits, p.men, v.side, King, s);
    PushFromIs(v, to, p, s);
    if AttackedFrom(p.men, s, to, p.side) { assert p.men[s] == Man(p.side, p.men[s].piece); }
  }

  // The sources from which the way to the blocking square is free.
  ghost function FreeSources(p: Position, to: Square): (bb: Bitboard)
    ensures forall s: Square :: s in bb <==> BlockSource(p, s, to) && s in p.men && Clear(p.men.Keys, s, to)
  {
    set s | s in AllSquares() && BlockSource(p, s, to) && s in p.men && Clear(p.men.Keys, s, to)
  }

  lemma SourceIsOwn(p: Position, s: Square, to: Square)
    requires BlockSource(p, s, to)
    ensures s in p.men && p.men[s].color == p.side && p.men[s].piece != King
  {}

  // What blocking moves look like: neither captures nor king moves.
  lemma BlocksAreStill(p: Position, to: Square, m: Move)
    requires EpStands(p) && to !in p.men && MovesTo(p, FreeSources(p, to), to, m)
    ensures (m.Normal? && m.p != King && m.t == to) || (m.Promotion? && m.t == to)
  {}

  method AddBlock(v: Seen, t: AttackTables, list: Movelist, from: Square, to: Square, ghost p: Position)
    requires Sees(v, p) && t.Valid() && list.Valid() && Distinct(list.all) && BlockSource(p, from, to)
    requires from in FreeSources(p, to) ==> forall m :: m in list.all ==> !MovesTo(p, {from}, to, m)
    modifies list
    ensures list.Valid() && Distinct(list.all)
    ensures forall m :: m in list.all <==> m in old(list.all) || (from in FreeSources(p, to) && MovesTo(p, {from}, to, m))
  {
    SourceIsOwn(p, from, to);
    RayClearIs(v, t, from, to, p);
    if RayClear(v, t, from, to) {
      AddMovesTo(v, list, {from}, to, p);
    }
  }

  lemma FreeAmong(v: Seen, t: AttackTables, to: Square, p: Position)
    requires Sees(v, p) && t.Valid()
    ensures FreeSources(p, to) <= BlockersTo(v, t, to)
    ensures forall s: Square :: s in BlockersTo(v, t, to) ==> BlockSource(p, s, to)
  {
    forall s: Square ensures s in BlockersTo(v, t, to) <==> BlockSource(p, s, to) { BlockersAre(v, t, to, p, s); }
  }

  // One more source of a block, if the way from it is free.
  method AddFreeBlock(v: Seen, t: AttackTables, list: Movelist, from: Square, to: Square, ghost done: Bitboard,
                      ghost was: seq<Move>,
                      ghost p: Position)
    requires Sees(v, p) && t.Valid() && list.Valid() && Distinct(list.all) && BlockSource(p, from, to) && from !in done
    requires forall m :: m in was ==> !MovesTo(p, FreeSources(p, to), to, m)
    requires forall m :: m in list.all <==> m in was || MovesTo(p, FreeSources(p, to) * done, to, m)
    modifies list
    ensures list.Valid() && Distinct(list.all)
    ensures forall m :: m in list.all <==> m in was || MovesTo(p, FreeSources(p, to) * (done + {from}), to, m)
  {
    MovesToOneMore(p, FreeSources(p, to), done, from, to);
    AddBlock(v, t, list, from, to, p);
  }

  method AddBlocksFrom(v: Seen, t: AttackTables, list: Movelist, from_bb: Bitboard, to: Square, ghost p: Position)
    requires Sees(v, p) && t.Valid() && list.Valid() && Distinct(list.all)
    requires FreeSources(p, to) <= from_bb && forall s: Square :: s in from_bb ==> BlockSource(p, s, to)
    requires forall m :: m in list.all ==> !MovesTo(p, FreeSources(p, to), to, m)
    modifies list
    ensures list.Valid() && Distinct(list.all)
    ensures forall m :: m in list.all <==> m in old(list.all) || MovesTo(p, FreeSources(p, to) * from_bb, to, m)
  {
    var bb := from_bb;
    while bb != {}
      invariant bb <= from_bb && list.Valid() && Distinct(list.all)
      invariant forall m :: m in list.all <==> m in old(list.all) || MovesTo(p, FreeSources(p, to) * (from_bb - bb), to, m)
      decreases bb
    {
      var from :| from in bb;
      ghost var done := from_bb - bb;
      bb := bb - {from};
      AddFreeBlock(v, t, list, from, to, done, old(list.all), p);
      assert from_bb - bb == done + {from};
    }
    assert from_bb - bb == from_bb;
  }

  method AddBlocksTo(v: Seen, t: AttackTables, list: Movelist, to: Square, ghost p: Position)
    requires Sees(v, p) && t.Valid() && list.Valid() && Distinct(list.all)
    requires forall m :: m in list.all ==> !MovesTo(p, FreeSources(p, to), to, m)
    modifies list
    ensures list.Valid() && Distinct(list.all)
    ensures forall m :: m in list.all <==> m in old(list.all) || MovesTo(p, FreeSources(p, to), to, m)
  {
    var from_bb := BlockersTo(v, t, to);
    FreeAmong(v, t, to, p);
    AddBlocksFrom(v, t, list, from_bb, to, p);
    assert FreeSources(p, to) * from_bb == FreeSources(p, to);
  }

  lemma MovesToOneMore(p: Position, free: Bitboard, done: Bitboard, from: Square, to: Square)
    requires from !in done
    ensures forall m :: MovesTo(p, free * (done + {from}), to, m)
              <==> MovesTo(p, free * done, to, m) || (from in free && MovesTo(p, {from}, to, m))
    ensures forall m :: MovesTo(p, {from}, to, m) ==>
              m.HasSquares() && m.f == from && m.t == to && !MovesTo(p, free * done, to, m)
  {}

  ghost predicate BlockMove(p: Position, tos: Bitboard, m: Move) {
    m.HasSquares() && m.t in tos && MovesTo(p, FreeSources(p, m.t), m.t, m)
  }

  lemma OneMoreBlock(p: Position, done: Bitboard, to: Square)
    requires EpStands(p) && to !in p.men
    ensures forall m :: BlockMove(p, done + {to}, m) <==> BlockMove(p, done, m) || MovesTo(p, FreeSources(p, to), to, m)
  {}

  method AddBlocks(v: Seen, t: AttackTables, list: Movelist, to_bb: Bitboard, ghost p: Position)
    requires Sees(v, p) && t.Valid() && EpStands(p) && list.Valid() && Distinct(list.all) && to_bb !! p.men.Keys
    requires forall m :: m in list.all ==> !((m.Normal? && m.p != King) || m.Promotion?)
    modifies list
    ensures list.Valid() && Distinct(list.all)
    ensures forall m :: m in list.all <==> m in old(list.all) || BlockMove(p, to_bb, m)
  {
    var bb := to_bb;
    while bb != {}
      invariant bb <= to_bb && list.Valid() && Distinct(list.all)
      invariant forall m :: m in list.all <==> m in old(list.all) || BlockMove(p, to_bb - bb, m)
      decreases bb
    {
      var to :| to in bb;
      ghost var done := to_bb - bb;
      bb := bb - {to};
      OneMoreBlock(p, done, to);
      assert to_bb - bb == done + {to};
      forall m | MovesTo(p, FreeSources(p, to), to, m)
        ensures (m.Normal? && m.p != King && m.t == to) || (m.Promotion? && m.t == to)
      {
        BlocksAreStill(p, to, m);
      }
      AddBlocksTo(v, t, list, to, p);
    }
    assert to_bb - bb == to_bb;
  }

  // ---- generate_escapes -------------------------------------------------------------------

  lemma EscapesOfOne(p: Position, c: Square, m: Move)
    requires HasSoleKing(p.men, p.side) && SoleChecker(p, c)
    ensures EscapeMove(p, m) <==>
            (|| KingEscape(p, TheKing(p.men, p.side), m) || CapturesChecker(p, c, m) || CapturesCheckerEp(p, c, m)
             || (p.men[c].piece != Pawn && p.men[c].piece != Knight && BlocksChecker(p, TheKing(p.men, p.side), c, m)))
  {}

  lemma EscapesOfMore(p: Position, c: Square, d: Square, m: Move)
    requires HasSoleKing(p.men, p.side) && Checker(p, c) && Checker(p, d) && c != d
    ensures EscapeMove(p, m) <==> KingEscape(p, TheKing(p.men, p.side), m)
  {}

  lemma KingEscapesAre(v: Seen, t: AttackTables, k: Square, p: Position, m: Move)
    requires Sees(v, p) && t.Valid()
    ensures KingGoes(p, k, PieceAttacks(v.bits, t, King, k) - v.bits.positionAll.Get(v.side), m)
            && !Attacked(p.men, m.t, p.side.Other())
       <==> KingEscape(p, k, m)
  {
    if m.HasSquares() {
      PieceAttacksAt(v.bits, t, p.men, King, k, m.t);
      FoeBits(v, p, m.t);
    }
  }

  lemma BlockMovesAre(p: Position, k: Square, c: Square, m: Move)
    ensures BlockMove(p, RaySet(c, k), m) <==> BlocksChecker(p, k, c, m)
  {}

  lemma CheckersAre(v: Seen, t: AttackTables, k: Square, p: Position)
    requires Sees(v, p) && t.Valid() && HasSoleKing(p.men, p.side) && k == TheKing(p.men, p.side)
    ensures forall c: Square :: c in Attackers(v.bits, t, v.epsq, k, v.side.Other()) <==> Checker(p, c)
  {
    forall c: Square ensures c in Attackers(v.bits, t, v.epsq, k, v.side.Other()) <==> Checker(p, c) {
      AttackersAre(v.bits, t, p.men, v.epsq, k, v.side.Other(), c);
    }
  }

  lemma MoreThanOne(s: Bitboard) returns (a: Square, b: Square)
    requires |s| > 1
    ensures a in s && b in s && a != b
  {
    a :| a in s;
    assert |s - {a}| == |s| - 1;
    b :| b in s - {a};
  }

  lemma AtMostOne(s: Bitboard, a: Square)
    requires |s| <= 1 && a in s
    ensures s == {a}
  {
    if b: Square :| b in s && b != a {
      assert {a, b} <= s;
      CardinalityAtMost({a, b}, s);
    }
  }

  lemma {:induction false} CardinalityAtMost(a: Bitboard, b: Bitboard)
    requires a <= b
    ensures |a| <= |b|
    decreases a
  {
    if a != {} {
      var x :| x in a;
      CardinalityAtMost(a - {x}, b - {x});
    }
  }

  lemma TakersMoves(v: Seen, t: AttackTables, c: Square, p: Position)
    requires Sees(v, p) && t.Valid() && EpStands(p) && HasSoleKing(p.men, p.side) && Checker(p, c)
    ensures var froms := Attackers(v.bits, t, v.epsq, c, v.side) - Men(v.bits, v.side, King);
            && (forall s :: s in froms ==> s in p.men && p.men[s].color == p.side)
            && (forall m :: MovesTo(p, froms, c, m) <==> CapturesChecker(p, c, m))
    ensures forall m :: CapturesChecker(p, c, m) ==> (m.Capture? && m.p != King) || m.PromoCapture?
  {
    CheckerIsFoe(p, c);
    var froms := Attackers(v.bits, t, v.epsq, c, v.side) - Men(v.bits, v.side, King);
    TakersAre(v, t, c, p);
    forall m
      ensures MovesTo(p, froms, c, m) <==> CapturesChecker(p, c, m)
      ensures CapturesChecker(p, c, m) ==> (m.Capture? && m.p != King) || m.PromoCapture?
    {
      TakersMove(p, froms, c, m);
    }
  }

  // Taking the checker with other men than the king.
  method AddTakers(v: Seen, t: AttackTables, list: Movelist, c: Square, ghost p: Position)
    requires Sees(v, p) && t.Valid() && EpStands(p) && HasSoleKing(p.men, p.side) && Checker(p, c)
    requires list.Valid() && Distinct(list.all)
    requires forall m :: m in list.all ==> (m.Normal? || m.Capture?) && m.p == King
    modifies list
    ensures list.Valid() && Distinct(list.all)
    ensures forall m :: m in list.all <==> m in old(list.all) || CapturesChecker(p, c, m)
    ensures forall m :: m in list.all ==> (m.Normal? && m.p == King) || m.Capture? || m.PromoCapture?
  {
    TakersMoves(v, t, c, p);
    AddMovesTo(v, list, Attackers(v.bits, t, v.epsq, c, v.side) - Men(v.bits, v.side, King), c, p);
  }

  method AddEpTakers(v: Seen, t: AttackTables, list: Movelist, c: Square, ghost p: Position)
    requires Sees(v, p) && t.Valid() && list.Valid() && Distinct(list.all)
    requires forall m: Move :: m in list.all ==> !m.EnPassant?
    modifies list
    ensures list.Valid() && Distinct(list.all)
    ensures forall m :: m in list.all <==> m in old(list.all) || CapturesCheckerEp(p, c, m)
  {
    if EpVictim(v.epsq) == Some(c) {
      var ep := v.epsq.value;
      forall m
        ensures EpFrom(p, PawnCaptures(v.bits, t, v.epsq, ep, v.side.Other()) * Men(v.bits, v.side, Pawn), m)
           <==> CapturesCheckerEp(p, c, m)
      {
        EpTakersMove(v, t, c, p, m);
      }
      AddEnPassants(list, PawnCaptures(v.bits, t, v.epsq, ep, v.side.Other()) * Men(v.bits, v.side, Pawn), ep, p);
    }
  }

  lemma WayIsClear(p: Position, c: Square)
    requires HasSoleKing(p.men, p.side) && Checker(p, c) && Slider(p.men[c].piece)
    ensures RaySet(c, TheKing(p.men, p.side)) !! p.men.Keys
  {}

  // The answers to a single checker.
  method AddAnswers(v: Seen, t: AttackTables, list: Movelist, c: Square, k: Square, ghost p: Position)
    requires Sees(v, p) && t.Valid() && Sound(p) && SoleChecker(p, c) && k == TheKing(p.men, p.side)
    requires list.Valid() && Distinct(list.all) && forall m :: m in list.all <==> KingEscape(p, k, m)
    modifies list
    ensures list.Valid() && Distinct(list.all)
    ensures forall m :: m in list.all <==> EscapeMove(p, m)
  {
    PieceAtIs(v.bits, p.men, c);
    forall m ensures EscapeMove(p, m) <==>
        (|| KingEscape(p, k, m) || CapturesChecker(p, c, m) || CapturesCheckerEp(p, c, m)
         || (p.men[c].piece != Pawn && p.men[c].piece != Knight && BlocksChecker(p, k, c, m))) {
      EscapesOfOne(p, c, m);
    }
    AddTakers(v, t, list, c, p);
    AddEpTakers(v, t, list, c, p);
    if PieceAt(v.bits, c) == Some(Pawn) || PieceAt(v.bits, c) == Some(Knight) {
      return;
    }
    KingNeverChecks(p.(epsq := None), c);
    WayIsClear(p, c);
    assert t.RayOk(c, k);
    forall m ensures BlockMove(p, RaySet(c, k), m) <==> BlocksChecker(p, k, c, m) { BlockMovesAre(p, k, c, m); }
    AddBlocks(v, t, list, t.rayBb[Index(c), Index(k)], p);
  }

  // What follows the king moves: nothing against two checkers, the answers against one.
  method AnswerCheck(v: Seen, t: AttackTables, list: Movelist, checkers: Bitboard, k: Square, ghost p: Position)
    requires Sees(v, p) && t.Valid() && Sound(p) && KingAttacked(p.men, p.side) && k == TheKing(p.men, p.side)
    requires forall c: Square :: c in checkers <==> Checker(p, c)
    requires list.Valid() && Distinct(list.all) && forall m :: m in list.all <==> KingEscape(p, k, m)
    modifies list
    ensures list.Valid() && Distinct(list.all)
    ensures forall m :: m in list.all <==> EscapeMove(p, m)
  {
    if |checkers| > 1 {
      OnlyKingEscapes(p, checkers);
      return;
    }
    SomeChecker(p);
    var checker :| checker in checkers;
    AtMostOne(checkers, checker);
    AddAnswers(v, t, list, checker, k, p);
  }

  // generate_escapes lists exactly the moves that the escape rules allow, each once.
  method GenerateEscapes(v: Seen, t: AttackTables, list: Movelist, ghost p: Position)
    requires Sees(v, p) && t.Valid() && Sound(p) && KingAttacked(p.men, p.side) && list.Valid() && list.all == []
    modifies list
    ensures list.Valid() && Distinct(list.all)
    ensures forall m :: m in list.all <==> EscapeMove(p, m)
  {
    KingSeen(v, p);
    var k := v.king.Get(v.side).value;
    var checkers := Attackers(v.bits, t, v.epsq, k, v.side.Other());
    CheckersAre(v, t, k, p);
    AddKingPart(v, t, list, k, p);
    AnswerCheck(v, t, list, checkers, k, p);
  }

  // Against two checkers only the king can move.
  lemma OnlyKingEscapes(p: Position, checkers: Bitboard)
    requires HasSoleKing(p.men, p.side) && |checkers| > 1 && forall c: Square :: c in checkers <==> Checker(p, c)
    ensures forall m :: EscapeMove(p, m) <==> KingEscape(p, TheKing(p.men, p.side), m)
  {
    var c, d := MoreThanOne(checkers);
    forall m ensures EscapeMove(p, m) <==> KingEscape(p, TheKing(p.men, p.side), m) { EscapesOfMore(p, c, d, m); }
  }

  // Moving the king to a square that is not attacked.
  method AddKingPart(v: Seen, t: AttackTables, list: Movelist, k: Square, ghost p: Position)
    requires Sees(v, p) && t.Valid() && list.Valid() && list.all == []
    modifies list
    ensures list.Valid() && Distinct(list.all)
    ensures forall m :: m in list.all <==> KingEscape(p, k, m)
  {
    var to_bb := PieceAttacks(v.bits, t, King, k) - v.bits.positionAll.Get(v.side);
    forall u | u in to_bb ensures !(u in p.men && p.men[u].color == p.side) { FoeBits(v, p, u); }
    AddKingEscapes(v, t, list, k, to_bb, p);
    forall m ensures KingGoes(p, k, to_bb, m) && !Attacked(p.men, m.t, p.side.Other()) <==> KingEscape(p, k, m) {
      KingEscapesAre(v, t, k, p, m);
    }
  }

  // In check the special generator lists a legal move of the general one unless it is an en-passant
  // capture of a pawn that is not the only checker; after a real double push it lists them all.
  method EscapesAndMoves(v: Seen, t: AttackTables, escapes: Movelist, all: Movelist, ghost p: Position)
    requires Sees(v, p) && t.Valid() && Sound(p) && KingAttacked(p.men, p.side)
    requires escapes != all && escapes.Valid() && all.Valid() && escapes.all == [] && all.all == []
    modifies escapes, all
    ensures Distinct(escapes.all) && Distinct(all.all)
    ensures forall m :: LegalAfter(p, m) ==> (m in escapes.all <==> m in all.all && (m.EnPassant? ==> TakesChecker(p)))
    ensures Invariant(p) ==> forall m :: LegalAfter(p, m) ==> (m in escapes.all <==> m in all.all)
  {
    SoundIsOrderly(p);
    GenerateEscapes(v, t, escapes, p);
    GenerateMoves(v, t, all, false, p);
    forall m | LegalAfter(p, m) ensures EscapeMove(p, m) <==> Pseudo(p, m, false) && (m.EnPassant? ==> TakesChecker(p)) {
      EscapesExactly(p, m);
    }
    if Invariant(p) {
      forall m | LegalAfter(p, m) ensures EscapeMove(p, m) <==> Pseudo(p, m, false) {
        EscapesAreLegalMoves(p, m);
      }
    }
  }

  // The run in which generate_escapes leaves out a legal move.
  method EpBlockNotListed(v: Seen, t: AttackTables, list: Movelist, moveCount: seq<U32>)
    requires |moveCount| == SQUARES && Sees(v, EpBlock(moveCount)) && t.Valid() && list.Valid() && list.all == []
    modifies list
    ensures var m := EnPassant(Sq(3, 4), Sq(4, 5)); Legal(EpBlock(moveCount), m, false) && m !in list.all
  {
    EpBlockIsMissed(moveCount);
    GenerateEscapes(v, t, list, EpBlock(moveCount));
  }
}
