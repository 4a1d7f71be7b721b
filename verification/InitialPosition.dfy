// The initial position: its FEN line, its legal moves and its development score.
module InitialPositions {
  import opened Basic
  import opened Geometry
  import opened Moves
  import opened Rules
  import opened Text
  import opened FenNotation
  import opened Evaluation

  const FIRST_RANK: seq<Piece> := [Rook, Knight, Bishop, Queen, King, Bishop, Knight, Rook]

  function ManAt(s: Square): Man
    requires s.rnk <= 1 || s.rnk >= 6
  {
    Man(if s.rnk <= 1 then White else Black, if s.rnk == 1 || s.rnk == 6 then Pawn else FIRST_RANK[s.fil])
  }

  function InitialMen(): Placement {
    map s | s in AllSquares() && (s.rnk <= 1 || s.rnk >= 6) :: ManAt(s)
  }

  function Initial(moveCount: seq<U32>): Position {
    Position(InitialMen(), White, {WK, WQ, BK, BQ}, None, 1, 0, {}, moveCount)
  }

  // ---- The FEN line -----------------------------------------------------------------------

  lemma EmptyRank(men: Placement, r: int, f: int)
    requires 0 <= r < 8 && 0 <= f <= 8 && forall s: Square :: s.rnk == r ==> s !in men
    ensures RankText(men, r, f, f) == "8"
    decreases 8 - f
  {
    if f < 8 {
      EmptyRank(men, r, f + 1);
    }
  }

  // A rank on which every square is held.
  function RankOf(men: Placement, r: int, f: int): string
    requires 0 <= r < 8 && 0 <= f <= 8 && forall s: Square :: s.rnk == r ==> s in men
    decreases 8 - f
  {
    if f == 8 then "" else [ManChar(men[Sq(f, r)])] + RankOf(men, r, f + 1)
  }

  lemma FullRank(men: Placement, r: int, f: int)
    requires 0 <= r < 8 && 0 <= f <= 8 && forall s: Square :: s.rnk == r ==> s in men
    ensures RankText(men, r, f, 0) == RankOf(men, r, f)
    decreases 8 - f
  {
    if f < 8 { FullRank(men, r, f + 1); }
  }

  lemma RankChars(r: int, c: string)
    requires (r == 0 || r == 1 || r == 6 || r == 7) && |c| == 8
    requires forall f :: 0 <= f < 8 ==> c[f] == ManChar(ManAt(Sq(f, r)))
    ensures RankText(InitialMen(), r, 0, 0) == c
  {
    FullRank(InitialMen(), r, 0);
    RankIs(r, c, 0);
  }

  lemma RankIs(r: int, c: string, f: int)
    requires (r == 0 || r == 1 || r == 6 || r == 7) && |c| == 8 && 0 <= f <= 8
    requires forall f :: 0 <= f < 8 ==> c[f] == ManChar(ManAt(Sq(f, r)))
    ensures RankOf(InitialMen(), r, f) == c[f..]
    decreases 8 - f
  {
    if f < 8 {
      RankIs(r, c, f + 1);
      assert c[f..] == [c[f]] + c[f + 1..];
    }
  }

  lemma WhiteRanks()
    ensures RankText(InitialMen(), 0, 0, 0) == "RNBQKBNR" && RankText(InitialMen(), 1, 0, 0) == "PPPPPPPP"
  {
    RankChars(0, "RNBQKBNR");
    RankChars(1, "PPPPPPPP");
  }

  lemma BlackRanks()
    ensures RankText(InitialMen(), 6, 0, 0) == "pppppppp" && RankText(InitialMen(), 7, 0, 0) == "rnbqkbnr"
  {
    RankChars(6, "pppppppp");
    RankChars(7, "rnbqkbnr");
  }

  // The ranks from r down to the first, separated.
  function Joined(ranks: seq<string>, r: int): string
    requires 0 <= r < |ranks|
  {
    ranks[r] + if r == 0 then "" else ['/'] + Joined(ranks, r - 1)
  }

  lemma {:induction false} BoardIsJoined(men: Placement, ranks: seq<string>, r: int)
    requires 0 <= r < |ranks| == 8 && forall i: int | 0 <= i < 8 :: ranks[i] == RankText(men, i, 0, 0)
    ensures BoardText(men, r) == Joined(ranks, r)
    decreases r
  {
    if r > 0 { BoardIsJoined(men, ranks, r - 1); }
  }

  // From the first rank to the last.
  const RANKS: seq<string> := ["RNBQKBNR", "PPPPPPPP", "8", "8", "8", "8", "pppppppp", "rnbqkbnr"]

  lemma InitialRank(i: int)
    requires 0 <= i < 8
    ensures RANKS[i] == RankText(InitialMen(), i, 0, 0)
  {
    if i <= 1 { WhiteRanks(); } else if i >= 6 { BlackRanks(); } else { EmptyRank(InitialMen(), i, 0); }
  }

  lemma InitialTail(moveCount: seq<U32>)
    ensures Tail(Initial(moveCount)) == " - 0 1"
  {
    assert Decimal(0) == "0" && Decimal(1) == "1";
  }

  // get_fen writes the line that section 16.1.4 of the PGN Specification gives.
  lemma InitialLine(moveCount: seq<U32>)
    ensures Fen(Initial(moveCount)) == Joined(RANKS, 7) + " w " + "KQkq" + " - 0 1"
  {
    var ranks := RANKS;
    forall i | 0 <= i < 8 ensures ranks[i] == RankText(InitialMen(), i, 0, 0) { InitialRank(i); }
    BoardIsJoined(InitialMen(), ranks, 7);
    InitialTail(moveCount);
    LineOf(Initial(moveCount), ranks);
  }

  lemma LineOf(p: Position, ranks: seq<string>)
    requires |ranks| == 8 && BoardText(p.men, 7) == Joined(ranks, 7) && Tail(p) == " - 0 1"
    requires p.side == White && p.flags == {WK, WQ, BK, BQ}
    ensures Fen(p) == Joined(ranks, 7) + " w " + "KQkq" + " - 0 1"
  {
    assert FlagsText(p.flags) == "KQkq";
  }

  // ---- The legal moves --------------------------------------------------------------------

  // White's pawns move one square or two, and the knights jump over them.
  predicate FirstMove(m: Move) {
    match m
    case Normal(f, t, Pawn) => f.rnk == 1 && t.fil == f.fil && 2 <= t.rnk <= 3
    case Normal(f, t, Knight) =>
      (f == Sq(1, 0) && (t == Sq(0, 2) || t == Sq(2, 2))) || (f == Sq(6, 0) && (t == Sq(5, 2) || t == Sq(7, 2)))
    case _ => false
  }

  // From the first rank a line leaves over the pawns.
  lemma NoSlide(f: Square, t: Square)
    requires f.rnk == 0 && t.rnk >= 2 && (BishopLine(f, t) || RookLine(f, t))
    ensures !Clear(InitialMen().Keys, f, t)
  {
    var c := Sq(if t.fil == f.fil then f.fil else if t.fil < f.fil then f.fil - 1 else f.fil + 1, 1);
    assert Btw(f, c, t) && c in InitialMen();
  }

  lemma NoCastling(moveCount: seq<U32>, r: Right)
    ensures !MayCastle(Initial(moveCount), r)
  {
    var c := if r == WK then F1 else D1;
    assert RightSide(r) == White ==> Btw(KingHome(r), c, RookHome(r)) && c in InitialMen();
  }

  lemma PawnFirst(moveCount: seq<U32>, m: Move)
    requires m.Normal? && m.p == Pawn
    ensures Pseudo(Initial(moveCount), m, true) <==> FirstMove(m)
  {}

  lemma PieceFirst(moveCount: seq<U32>, m: Move)
    requires m.Normal? && m.p != Pawn
    ensures Pseudo(Initial(moveCount), m, true) <==> FirstMove(m)
  {
    if m.f.rnk == 0 && m.t.rnk >= 2 && (BishopLine(m.f, m.t) || RookLine(m.f, m.t)) { NoSlide(m.f, m.t); }
  }

  lemma NoOtherFirst(moveCount: seq<U32>, m: Move)
    requires !m.Normal?
    ensures !Pseudo(Initial(moveCount), m, true)
  {
    if m.Castle? {
      forall r ensures !MayCastle(Initial(moveCount), r) { NoCastling(moveCount, r); }
    }
    if m.Capture? && m.f.rnk == 0 && m.t.rnk >= 2 && (BishopLine(m.f, m.t) || RookLine(m.f, m.t)) {
      NoSlide(m.f, m.t);
    }
  }

  // Black's men on their two ranks are no threat to a king on e1, whatever stands between.
  lemma NoThreat(men: Placement)
    requires forall a: Square :: a in men && men[a].color == Black ==> a in InitialMen() && men[a] == InitialMen()[a]
    requires forall k: Square :: KingOn(men, White, k) ==> k == E1
    ensures !KingAttacked(men, White)
  {
    forall a: Square ensures !AttackedFrom(men, a, E1, Black) {
      if a in men && men[a].color == Black {
        assert a.rnk >= 6 && men[a] == ManAt(a);
        assert !BishopLine(a, E1) && (RookLine(a, E1) ==> a.fil == 4);
      }
    }
  }

  // Exactly the sixteen pawn moves and four knight moves are legal.
  lemma FirstMoves(moveCount: seq<U32>, m: Move)
    ensures Legal(Initial(moveCount), m, true) <==> FirstMove(m)
  {
    if m.Normal? && m.p == Pawn { PawnFirst(moveCount, m); }
    else if m.Normal? { PieceFirst(moveCount, m); }
    else { NoOtherFirst(moveCount, m); }
    if FirstMove(m) {
      NoThreat(MenAfter(Initial(moveCount), m));
    }
  }

  // ---- Development ------------------------------------------------------------------------

  // Pawns and the king are not looked at, nor are the other side's men.
  lemma {:induction false} NothingToScore(past: Past, side: Color, k: nat, n: nat)
    requires k <= n <= SQUARES
    requires forall s: Square :: k <= Index(s) < n && s in InitialMen() ==>
               InitialMen()[s].color != side || InitialMen()[s].piece == Pawn
    ensures MenDevel(InitialMen(), past.moveCount, side, n) == MenDevel(InitialMen(), past.moveCount, side, k)
    decreases n
  {
    if k < n {
      NothingToScore(past, side, k, n - 1);
      var s := SquareOf(n - 1);
      assert Index(s) == n - 1;
      assert s in InitialMen() ==> InitialMen()[s].color != side || ManDevel(InitialMen()[s].piece, past.moveCount[n - 1]) == 0;
    }
  }

  lemma OneMoreDevel(past: Past, n: nat)
    requires n < 8 && forall i :: 0 <= i < SQUARES ==> past.moveCount[i] == 0
    ensures MenDevel(InitialMen(), past.moveCount, White, n + 1)
         == MenDevel(InitialMen(), past.moveCount, White, n) + ManDevel(FIRST_RANK[n], 0)
  {
    assert SquareOf(n) == Sq(n, 0) && InitialMen()[Sq(n, 0)] == Man(White, FIRST_RANK[n]);
  }

  // The four minor pieces have not moved.
  lemma FirstRankDevel(past: Past)
    requires forall i :: 0 <= i < SQUARES ==> past.moveCount[i] == 0
    ensures MenDevel(InitialMen(), past.moveCount, White, 8) == -60
  {
    for n := 0 to 8
      invariant MenDevel(InitialMen(), past.moveCount, White, n)
             == if n <= 1 then 0 else if n == 2 then -15 else if n <= 5 then -30 else if n == 6 then -45 else -60
    {
      OneMoreDevel(past, n);
    }
  }

  // White begins with four undeveloped minor pieces and the right to castle.
  lemma InitialDevel(past: Past, rights: set<Right>)
    requires (forall i :: 0 <= i < SQUARES ==> past.moveCount[i] == 0) && WK in rights && past.castled == {}
    ensures ScoreDevel(InitialMen(), rights, past, White) == -60 + 16
  {
    FirstRankDevel(past);
    NothingToScore(past, White, 8, SQUARES);
  }
}
