// Writing a board as a FEN line, and setting up a board from one (get_fen and parse_fen of
// src/chess/board_util.cc, the constructor from pieces of src/chess/board.cc).
module FenBoards {
  import opened Basic
  import opened Rules
  import opened Mirror
  import opened BoardState
  import opened Tables
  import opened AttackQueries
  import opened Text
  import opened FenNotation

  // ---- Writing ----------------------------------------------------------------------------

  // color_at of an occupied square.
  function ColorAt(b: Bitboards, s: Square): Color {
    if s in b.positionAll.Get(White) then White else Black
  }

  lemma ManAtIs(b: Bitboards, men: Placement, s: Square)
    requires b == BitboardsOf(men)
    ensures PieceAt(b, s).Some? <==> s in men
    ensures s in men ==> Man(ColorAt(b, s), PieceAt(b, s).value) == men[s]
  {
    PieceAtIs(b, men, s);
    if s in men {
      assert s in ColorSquares(men, White) <==> men[s].color == White;
      match men[s].color { case White => case Black => }
    }
  }

  // One square of a rank: the text grows by a man, or the count of empty squares by one.
  method WriteSquare(b: Bitboards, r: int, fil: int, was: string, empty: nat, ghost men: Placement) returns (s: string, e: nat)
    requires b == BitboardsOf(men) && 0 <= r < 8 && 0 <= empty <= fil < 8
    ensures e <= fil + 1 && s + RankText(men, r, fil + 1, e) == was + RankText(men, r, fil, empty)
  {
    var sq: Square := Sq(fil, r);
    ManAtIs(b, men, sq);
    s, e := was, empty + 1;
    if PieceAt(b, sq).Some? {
      if empty != 0 {
        s := s + [Digit(empty)];
      }
      assert s == was + Gap(empty);
      s := s + [ManChar(Man(ColorAt(b, sq), PieceAt(b, sq).value))];
      assert s == was + (Gap(empty) + ManText(men, r, fil));
      e := 0;
    }
  }

  method WriteRank(b: Bitboards, r: int, ghost men: Placement) returns (s: string)
    requires b == BitboardsOf(men) && 0 <= r < 8
    ensures s == RankText(men, r, 0, 0)
  {
    s := "";
    var fil, empty := 0, 0;
    while fil < 8
      invariant 0 <= empty <= fil <= 8
      invariant s + RankText(men, r, fil, empty) == RankText(men, r, 0, 0)
    {
      s, empty := WriteSquare(b, r, fil, s, empty, men);
      fil := fil + 1;
    }
    if empty != 0 {
      s := s + [Digit(empty)];
    }
  }

  method WritePlacement(b: Bitboards, ghost men: Placement) returns (s: string)
    requires b == BitboardsOf(men)
    ensures s == BoardText(men, 7)
  {
    s := "";
    var rnk := 7;
    while rnk > 0
      invariant 0 <= rnk <= 7
      invariant s + BoardText(men, rnk) == BoardText(men, 7)
      decreases rnk
    {
      var text := WriteRank(b, rnk, men);
      assert s + BoardText(men, rnk) == s + text + ['/'] + BoardText(men, rnk - 1);
      s := s + text + ['/'];
      rnk := rnk - 1;
    }
    var text := WriteRank(b, 0, men);
    s := s + text;
  }

  // get_fen.
  method GetFen(b: Board, ghost p: Position) returns (s: string)
    requires b.Shows(p)
    ensures s == Fen(p)
  {
    var pos := WritePlacement(b.bits, p.men);
    s := pos + [' ', SideChar(b.side), ' '] + FlagsText(b.flags)
      + Cut(" " + EpText(b.epsq) + SpacedPair(b.movecnt50, b.moveno));
  }

  // ---- Setting up a board -----------------------------------------------------------------

  ghost predicate OneKingAtMost(men: Placement) {
    forall c: Color, s: Square, t: Square :: KingOn(men, c, s) && KingOn(men, c, t) ==> s == t
  }

  // The men on the squares before number i.
  function Upto(men: Placement, i: int): Placement {
    map s | s in men && Index(s) < i :: men[s]
  }

  lemma UptoNext(men: Placement, i: int)
    requires 0 <= i < 64
    ensures var s := SquareOf(i); Upto(men, i + 1) == if s in men then Upto(men, i)[s := men[s]] else Upto(men, i)
    ensures SquareOf(i) !in Upto(men, i)
  {}

  lemma KingNotYet(men: Placement, i: int, king: PerColor<Option<Square>>)
    requires 0 <= i < 64 && OneKingAtMost(men) && KingsAt(Upto(men, i), king)
    requires SquareOf(i) in men && men[SquareOf(i)].piece == King
    ensures king.Get(men[SquareOf(i)].color) == None
  {
    var c := men[SquareOf(i)].color;
    forall s: Square ensures !KingOn(Upto(men, i), c, s) {
      if KingOn(Upto(men, i), c, s) {
        assert KingOn(men, c, s) && KingOn(men, c, SquareOf(i));
      }
    }
    NoKingNoField(Upto(men, i), king, c);
  }

  method SetUpMen(b: Board, men: Placement, ghost p: Position)
    requires b.Shows(p) && p.men == map[] && OneKingAtMost(men)
    modifies b
    ensures b.Shows(p.(men := men))
  {
    var i := 0;
    assert Upto(men, 0) == map[];
    while i < 64
      invariant 0 <= i <= 64
      invariant b.Shows(p.(men := Upto(men, i)))
    {
      UptoNext(men, i);
      var s := SquareOf(i);
      if s in men {
        if men[s].piece == King { KingNotYet(men, i, b.king); }
        b.PlacePiece(s, men[s], p.(men := Upto(men, i)));
      }
      i := i + 1;
    }
    assert Upto(men, 64) == men;
  }

  lemma {:induction false} AllZero(cnt: seq<U32>)
    requires forall i :: 0 <= i < |cnt| ==> cnt[i] == 0
    ensures cnt == Zeros(|cnt|)
  {
    if cnt != [] {
      AllZero(cnt[..|cnt| - 1]);
      assert cnt == cnt[..|cnt| - 1] + [0];
    }
  }

  method SetUpFlags(b: Board, flags: set<Right>, ghost p: Position)
    requires b.Shows(p) && p.flags == {}
    modifies b
    ensures b.Shows(p.(flags := flags))
  {
    ghost var q := p;
    if WK in flags { b.SetFlag(WK, q); q := q.(flags := q.flags + {WK}); }
    if WQ in flags { b.SetFlag(WQ, q); q := q.(flags := q.flags + {WQ}); }
    if BK in flags { b.SetFlag(BK, q); q := q.(flags := q.flags + {BK}); }
    if BQ in flags { b.SetFlag(BQ, q); q := q.(flags := q.flags + {BQ}); }
    RightsBack(flags);
    assert q == p.(flags := flags);
  }

  // A new board for the given men, side, flags, en-passant square and counters.
  method SetUp(z: Zobrist, q: Position) returns (b: Board)
    requires q.castled == {} && q.moveCount == Zeros(SQUARES) && OneKingAtMost(q.men)
    ensures fresh(b) && b.z == z && b.Shows(q)
  {
    b := new Board(z);
    assert forall i :: 0 <= i < |b.moveCount| ==> b.moveCount[i] in b.moveCount;
    AllZero(b.moveCount);
    ghost var p := Cleared(b.moveCount);
    SetUpMen(b, q.men, p);
    b.SetSide(q.side, p.(men := q.men));
    SetUpFlags(b, q.flags, p.(men := q.men, side := q.side));
    b.SetEpsq(q.epsq, p.(men := q.men, side := q.side, flags := q.flags));
    b.moveno, b.movecnt50 := q.moveno, q.movecnt50;
  }

  // ---- Reading ----------------------------------------------------------------------------

  method ScanPlacement(pos: string) returns (k: Scan)
    ensures k == Scanned(START, pos)
  {
    k := START;
    var i := 0;
    while i < |pos|
      invariant 0 <= i <= |pos|
      invariant Scanned(k, pos[i..]) == Scanned(START, pos)
    {
      assert pos[i..][1..] == pos[i + 1..];
      k := Step(k, pos[i]);
      i := i + 1;
    }
  }

  function KingSquares(men: Placement, c: Color): set<Square> {
    set s | s in men && men[s] == Man(c, King)
  }

  lemma OnlyElement(ks: set<Square>, k: Square, s: Square)
    requires |ks| == 1 && k in ks && s in ks
    ensures s == k
  {
    assert |ks - {k}| == 0;
    assert s !in ks - {k};
  }

  lemma SoleKingSet(men: Placement, c: Color)
    requires HasSoleKing(men, c)
    ensures |KingSquares(men, c)| == 1
  {
    var k := TheKing(men, c);
    forall s ensures s in KingSquares(men, c) <==> s == k {
      if s in KingSquares(men, c) { assert KingOn(men, c, s); }
    }
    assert KingSquares(men, c) == {k};
  }

  lemma SoleKingCounted(men: Placement, c: Color)
    ensures |KingSquares(men, c)| == 1 <==> HasSoleKing(men, c)
  {
    var ks := KingSquares(men, c);
    if |ks| == 1 {
      var k :| k in ks;
      forall s: Square | KingOn(men, c, s) ensures s == k {
        OnlyElement(ks, k, s);
      }
      assert SoleKing(men, c, k);
    }
    if HasSoleKing(men, c) { SoleKingSet(men, c); }
  }

  predicate PawnsOffTheEnds(men: Placement) {
    forall s :: s in men ==> men[s].piece == Pawn ==> 0 < s.rnk < 7
  }

  lemma OneKingEach(men: Placement)
    requires HasSoleKing(men, White) && HasSoleKing(men, Black)
    ensures OneKingAtMost(men)
  {
    forall c: Color, s: Square, t: Square | KingOn(men, c, s) && KingOn(men, c, t) ensures s == t {
      match c { case White => case Black => }
    }
  }

  // The king of the side not to move is on the board's king square, and is_attacked tells whether
  // it is attacked.
  lemma OpponentChecked(b: Board, t: AttackTables, p: Position)
    requires t.Valid() && b.Shows(p) && HasSoleKing(p.men, p.side.Other())
    ensures b.king.Get(p.side.Other()).Some?
    ensures IsAttacked(b.bits, t, b.epsq, b.king.Get(p.side.Other()).value, p.side) <==> KingAttacked(p.men, p.side.Other())
  {
    var k := TheKing(p.men, p.side.Other());
    assert KingOn(p.men, p.side.Other(), k);
    IsAttackedIs(b.bits, t, p.men, b.epsq, k, p.side);
    match p.side { case White => case Black => }
  }

  // The first two tests of is_valid.
  method PlacementIsValid(men: Placement) returns (yes: bool)
    ensures yes <==> HasSoleKing(men, White) && HasSoleKing(men, Black) && PawnsOff(men)
    ensures yes ==> OneKingAtMost(men)
  {
    SoleKingCounted(men, White);
    SoleKingCounted(men, Black);
    yes := |KingSquares(men, White)| == 1 && |KingSquares(men, Black)| == 1 && PawnsOffTheEnds(men);
    if yes { OneKingEach(men); }
  }

  // The board, when it is valid.
  method Validated(z: Zobrist, t: AttackTables, q: Position) returns (r: Option<Board>)
    requires t.Valid() && q.castled == {} && q.moveCount == Zeros(SQUARES)
    ensures r.Some? <==> ValidBoard(q)
    ensures r.Some? ==> fresh(r.value) && r.value.z == z && r.value.Shows(q)
  {
    var yes := PlacementIsValid(q.men);
    if !yes { return None; }
    var b := SetUp(z, q);
    assert HasSoleKing(q.men, q.side.Other()) by { match q.side { case White => case Black => } }
    OpponentChecked(b, t, q);
    r := if IsAttacked(b.bits, t, b.epsq, b.king.Get(b.side.Other()).value, b.side) then None else Some(b);
  }

  // parse_fen: the board on success, nothing when the text is rejected.
  method ParseFen(z: Zobrist, t: AttackTables, s: string) returns (r: Option<Board>)
    requires t.Valid()
    ensures match ReadFen(s)
            case Read(q) => r.Some? && fresh(r.value) && r.value.z == z && r.value.Shows(q)
            case Rejected => r.None?
            case Clashed => true
  {
    var d := SplitFen(s);
    if d.None? { return None; }
    SplitHasEp(s);
    var o := ParseFields(d.value);
    if !o.Read? { return None; }
    ReadIsFresh(d.value);
    r := Validated(z, t, o.p);
  }

  lemma ReadIsFresh(d: Fields)
    requires d.ep != ""
    ensures ReadFields(d).Read? ==> ReadFields(d).p.castled == {} && ReadFields(d).p.moveCount == Zeros(SQUARES)
  {}

  method ParseFields(d: Fields) returns (o: Outcome)
    requires d.ep != ""
    ensures o == ReadFields(d)
  {
    var k := ScanPlacement(d.pos);
    if k.Bad? { return Rejected; }
    if k.Clash? { return Clashed; }
    var side := SideOf(d.clr);
    if side.None? { return Rejected; }
    var flags := ParseFlags(d.flg);
    if flags.None? { return Rejected; }
    var ep := ReadEp(d.ep);
    if ep.None? { return Rejected; }
    o := Read(Position(k.men, side.value, flags.value, ep.value, d.fmc, d.hmc, {}, Zeros(SQUARES)));
  }

  method ParseFlags(s: string) returns (r: Option<set<Right>>)
    ensures r == ReadFlags(s, {})
  {
    var flags: set<Right> := {};
    var i := 0;
    while i < |s|
      invariant 0 <= i <= |s|
      invariant ReadFlags(s[i..], flags) == ReadFlags(s, {})
    {
      assert s[i..][1..] == s[i + 1..];
      match s[i] {
        case 'K' => flags := flags + {WK};
        case 'Q' => flags := flags + {WQ};
        case 'k' => flags := flags + {BK};
        case 'q' => flags := flags + {BQ};
        case '-' =>
        case _ => return None;
      }
      i := i + 1;
    }
    r := Some(flags);
  }

  // A board written as a FEN line and read back is the same board but for the record of castling
  // and of how often men have moved, and has the same hash keys.
  method CopyThroughFen(b: Board, t: AttackTables, ghost p: Position) returns (r: Option<Board>)
    requires t.Valid() && b.Shows(p) && Invariant(p) && |Tail(p)| <= TAIL_ROOM
    ensures r.Some? && fresh(r.value) && r.value.Shows(Kept(p))
    ensures r.value.keys == b.keys && r.value.bits == b.bits && r.value.king == b.king && r.value.material == b.material
  {
    var s := GetFen(b, p);
    FenRestores(p);
    r := ParseFen(b.z, t, s);
    KingsAtUnique(p.men, b.king, r.value.king);
  }
}
