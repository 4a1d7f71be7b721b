// Reading a move on a board: parse_move with the move generator, the legality test and the look for
// check and mate that it calls (src/chess/board_util.cc, src/chess/move.cc).
module NotationBoards {
  import opened Moves
  import opened Rules
  import opened Legality
  import opened Mirror
  import opened BoardState
  import opened Tables
  import opened MoveLists
  import opened MoveGen
  import opened Notation

  // No more pseudo-legal moves than a move list holds.
  ghost predicate FewMoves(p: Position) {
    forall s: seq<Move> :: Distinct(s) && (forall i :: 0 <= i < |s| ==> Pseudo(p, s[i], true)) ==> |s| <= MOVELIST_MAXSIZE
  }

  ghost predicate FewMovesNear(p: Position)
    requires |p.moveCount| == SQUARES
  {
    FewMoves(p) && forall m :: Legal(p, m, true) ==> FewMoves(Make(p, m))
  }

  lemma CastlesOnce(p: Position, m: Move)
    requires Invariant(p) && Pseudo(p, m, true)
    ensures m.Castle? ==> p.side !in p.castled
  {
    if m.Castle? { CastlingAtHome(p, m, true); }
  }

  lemma KingsKnown(b: Board, p: Position)
    requires b.Shows(p)
    ensures exists k :: KingsAt(p.men, k)
  {}

  // What making a move and undoing it ask for.
  ghost predicate Undoable(p: Position, m: Move) {
    Movable(p, m) && (m.Castle? ==> p.side !in p.castled) && exists k :: KingsAt(p.men, k)
  }

  lemma PseudoIsUndoable(b: Board, p: Position, m: Move)
    requires b.Shows(p) && Invariant(p) && Pseudo(p, m, true)
    ensures Undoable(p, m)
  {
    PseudoIsMovable(p, m, true);
    CastlesOnce(p, m);
    KingsKnown(b, p);
  }

  method TakeBack(b: Board, hist: BoardHistory, ghost m: Move, ghost p: Position)
    requires Undoable(p, m) && |p.moveCount| == SQUARES && hist == HistoryOf(p, m) && b.Shows(Make(p, m))
    modifies b
    ensures b.Shows(p)
  {
    b.UnmakeMove(hist, p);
  }

  // is_legal, on the board after the move.
  method LeavesKingSafe(b: Board, t: AttackTables, m: Move, ghost p: Position) returns (legal: bool)
    requires t.Valid() && |p.moveCount| == SQUARES && HasSoleKing(MenAfter(p, m), p.side) && b.Shows(Make(p, m))
    ensures legal == LegalAfter(p, m)
  {
    BoardSees(b, Make(p, m));
    IsLegalIs(See(b), t, p, m);
    legal := IsLegal(See(b), t);
  }

  // is_legal_move: make the move and look whether the king is left attacked.
  method IsLegalMove(b: Board, t: AttackTables, m: Move, ghost p: Position) returns (legal: bool)
    requires b.Shows(p) && t.Valid() && Invariant(p) && Pseudo(p, m, true)
    modifies b
    ensures b.Shows(p) && legal == LegalAfter(p, m)
  {
    PseudoIsUndoable(b, p, m);
    KeepsOwnKing(p, m, true);
    var hist := b.MakeMove(m, p);
    legal := LeavesKingSafe(b, t, m, p);
    TakeBack(b, hist, m, p);
  }

  // The first i moves of the list are legal, and no legal move of all has been dropped.
  ghost predicate Filtered(p: Position, all: seq<Move>, list: seq<Move>, i: int) {
    && 0 <= i <= |list|
    && (forall m :: m in list ==> m in all)
    && (forall k :: 0 <= k < i ==> LegalAfter(p, list[k]))
    && (forall m :: m in all && LegalAfter(p, m) ==> m in list)
  }

  // Overwriting a move by the last one loses no other move.
  lemma FilteredAfterDrop(p: Position, all: seq<Move>, list: seq<Move>, i: nat)
    requires i < |list| && Filtered(p, all, list, i) && !LegalAfter(p, list[i])
    ensures Filtered(p, all, Dropped(list, i), i)
  {
    DroppedOne(list, i);
    forall m ensures m in list && m != list[i] ==> m in Dropped(list, i)
             ensures m in Dropped(list, i) ==> m in list
    {
      assert m in list <==> multiset(list)[m] > 0;
      assert m in Dropped(list, i) <==> multiset(Dropped(list, i))[m] > 0;
    }
  }

  lemma FilteredAfterKeep(p: Position, all: seq<Move>, list: seq<Move>, i: nat)
    requires i < |list| && Filtered(p, all, list, i) && LegalAfter(p, list[i])
    ensures Filtered(p, all, list, i + 1)
  {}

  lemma FilteredAll(p: Position, all: seq<Move>, list: seq<Move>)
    requires Filtered(p, all, list, |list|)
    ensures forall m :: m in list <==> m in all && LegalAfter(p, m)
  {}

  // filter_illegal.
  method FilterIllegal(b: Board, t: AttackTables, all: seq<Move>, ghost p: Position) returns (list: seq<Move>)
    requires b.Shows(p) && t.Valid() && Invariant(p) && forall m :: m in all ==> Pseudo(p, m, true)
    modifies b
    ensures b.Shows(p) && forall m :: m in list <==> m in all && LegalAfter(p, m)
  {
    list := all;
    var i := 0;
    while i < |list|
      invariant b.Shows(p) && Filtered(p, all, list, i)
      decreases |list| - i
    {
      assert list[i] in list;
      var legal := IsLegalMove(b, t, list[i], p);
      if legal {
        FilteredAfterKeep(p, all, list, i);
        i := i + 1;
      } else {
        FilteredAfterDrop(p, all, list, i);
        list := Dropped(list, i);
      }
    }
    FilteredAll(p, all, list);
  }

  // The legal moves: all of them unless the list is too short for the pseudo-legal ones.
  method LegalMoves(b: Board, t: AttackTables, ghost p: Position) returns (list: seq<Move>)
    requires b.Shows(p) && t.Valid() && Invariant(p)
    modifies b
    ensures b.Shows(p) && OnlyLegal(p, list) && (FewMoves(p) ==> ListsLegal(p, list))
  {
    var movelist := new Movelist();
    BoardSees(b, p);
    InvariantIsSound(p);
    SoundIsOrderly(p);
    GenerateMoves(See(b), t, movelist, true, p);
    assert forall i :: 0 <= i < |movelist.all| ==> movelist.all[i] in movelist.all;
    list := FilterIllegal(b, t, movelist.moves, p);
  }

  // in_check and is_mate.
  method LookAround(b: Board, t: AttackTables, ghost q: Position) returns (o: Outcome)
    requires b.Shows(q) && t.Valid() && Invariant(q)
    modifies b
    ensures b.Shows(q) && o.check == KingAttacked(q.men, q.side) && (FewMoves(q) ==> o.mate == IsMate(q))
  {
    BoardSees(b, q);
    InvariantIsSound(q);
    SoundIsOrderly(q);
    InCheckIs(See(b), t, q);
    var check := InCheck(See(b), t);
    var replies := LegalMoves(b, t, q);
    assert replies != [] ==> Legal(q, replies[0], true);
    o := Outcome(check, check && |replies| == 0);
  }

  // On the board after a legal move.
  method LookAfter(b: Board, t: AttackTables, m: Move, ghost p: Position) returns (o: Outcome)
    requires Invariant(p) && Legal(p, m, true) && b.Shows(Make(p, m)) && t.Valid()
    modifies b
    ensures b.Shows(Make(p, m)) && (FewMoves(Make(p, m)) ==> OutcomeIs(p, m, o))
  {
    MakeKeepsInvariant(p, m, true);
    o := LookAround(b, t, Make(p, m));
  }

  method Look(b: Board, t: AttackTables, m: Move, ghost p: Position) returns (o: Outcome)
    requires b.Shows(p) && t.Valid() && Invariant(p) && Legal(p, m, true)
    modifies b
    ensures b.Shows(p) && (FewMoves(Make(p, m)) ==> OutcomeIs(p, m, o))
  {
    PseudoIsUndoable(b, p, m);
    var hist := b.MakeMove(m, p);
    o := LookAfter(b, t, m, p);
    TakeBack(b, hist, m, p);
  }

  ghost predicate Known(p: Position, outcomes: map<Move, Outcome>, m: Move)
    requires |p.moveCount| == SQUARES
  {
    m in outcomes && OutcomeIs(p, m, outcomes[m])
  }

  ghost predicate KnownUpTo(p: Position, outcomes: map<Move, Outcome>, legal: seq<Move>, n: nat)
    requires |p.moveCount| == SQUARES && n <= |legal|
  {
    forall k :: 0 <= k < n ==> Known(p, outcomes, legal[k])
  }

  lemma KnownOneMore(p: Position, outcomes: map<Move, Outcome>, legal: seq<Move>, n: nat, o: Outcome)
    requires |p.moveCount| == SQUARES && n < |legal| && OutcomeIs(p, legal[n], o) && KnownUpTo(p, outcomes, legal, n)
    ensures KnownUpTo(p, outcomes[legal[n] := o], legal, n + 1)
  {
    forall k | 0 <= k <= n ensures Known(p, outcomes[legal[n] := o], legal[k]) {
      if legal[k] != legal[n] { assert Known(p, outcomes, legal[k]); }
    }
  }

  method LookAll(b: Board, t: AttackTables, legal: seq<Move>, ghost p: Position) returns (outcomes: map<Move, Outcome>)
    requires b.Shows(p) && t.Valid() && Invariant(p) && OnlyLegal(p, legal)
    modifies b
    ensures b.Shows(p) && (FewMovesNear(p) ==> KnownUpTo(p, outcomes, legal, |legal|))
  {
    outcomes := map[];
    for i := 0 to |legal|
      invariant b.Shows(p) && (FewMovesNear(p) ==> KnownUpTo(p, outcomes, legal, i))
    {
      var o := LookOne(b, t, legal, legal[i], p);
      if FewMovesNear(p) { KnownOneMore(p, outcomes, legal, i, o); }
      outcomes := outcomes[legal[i] := o];
    }
  }

  method LookOne(b: Board, t: AttackTables, legal: seq<Move>, m: Move, ghost p: Position) returns (o: Outcome)
    requires b.Shows(p) && t.Valid() && Invariant(p) && OnlyLegal(p, legal) && m in legal
    modifies b
    ensures b.Shows(p) && (FewMovesNear(p) ==> OutcomeIs(p, m, o))
  {
    assert Legal(p, m, true);
    o := Look(b, t, m, p);
  }

  function Told(outcomes: map<Move, Outcome>): Move -> Outcome {
    m => if m in outcomes then outcomes[m] else Outcome(false, false)
  }

  lemma AllTold(p: Position, legal: seq<Move>, outcomes: map<Move, Outcome>)
    requires |p.moveCount| == SQUARES && ListsLegal(p, legal) && KnownUpTo(p, outcomes, legal, |legal|)
    ensures Outcomes(p, Told(outcomes))
  {
    forall m | Legal(p, m, true) ensures OutcomeIs(p, m, Told(outcomes)(m)) {
      assert m in legal;
      assert Known(p, outcomes, m);
    }
  }

  // parse_move on a board: nothing but the board is given. A move that it returns is legal, and unless there
  // are more pseudo-legal moves than a list holds, every legal move is read back from its coordinate form and
  // from its official algebraic form.
  method ParseMoveOn(b: Board, t: AttackTables, s: string, ghost p: Position) returns (mov: Move)
    requires b.Shows(p) && t.Valid() && Invariant(p)
    modifies b
    ensures b.Shows(p) && (mov.NoMove? || Legal(p, mov, true))
    ensures FewMovesNear(p) ==>
              && (if mov.NoMove? then forall n :: Legal(p, n, true) ==> !Names(p, n, s) else Names(p, mov, s))
              && (forall m :: NamedMove(p, s, m) ==> mov == m)
  {
    var legal := LegalMoves(b, t, p);
    var outcomes := LookAll(b, t, legal, p);
    if FewMovesNear(p) { AllTold(p, legal, outcomes); }
    mov := ParseMove(p, legal, Told(outcomes), s);
  }
}
