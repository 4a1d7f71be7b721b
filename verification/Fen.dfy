// Forsyth-Edwards notation: get_fen and parse_fen of src/chess/board_util.cc (section 16.1 of the
// PGN Specification and Implementation Guide).
module FenNotation {
  import opened Basic
  import opened Rules
  import opened Text

  // ---- The placement ----------------------------------------------------------------------

  function ManChar(x: Man): char {
    match x.color
    case White => PieceChar(x.piece)
    case Black => LowerChar(x.piece)
  }

  function ManOf(c: char): Option<Man> {
    match c
    case 'P' => Some(Man(White, Pawn))
    case 'N' => Some(Man(White, Knight))
    case 'B' => Some(Man(White, Bishop))
    case 'R' => Some(Man(White, Rook))
    case 'Q' => Some(Man(White, Queen))
    case 'K' => Some(Man(White, King))
    case 'p' => Some(Man(Black, Pawn))
    case 'n' => Some(Man(Black, Knight))
    case 'b' => Some(Man(Black, Bishop))
    case 'r' => Some(Man(Black, Rook))
    case 'q' => Some(Man(Black, Queen))
    case 'k' => Some(Man(Black, King))
    case _ => None
  }

  lemma ManBack(x: Man)
    ensures ManOf(ManChar(x)) == Some(x) && !IsSpace(ManChar(x))
  {}

  function Gap(e: nat): string
    requires e <= 8
  {
    if e == 0 then "" else [Digit(e)]
  }

  function ManText(men: Placement, r: int, f: int): string
    requires 0 <= r < 8 && 0 <= f < 8 && Sq(f, r) in men
  {
    [ManChar(men[Sq(f, r)])]
  }

  // Rank r from file f on, after e empty squares not yet written.
  function RankText(men: Placement, r: int, f: int, e: nat): string
    requires 0 <= r < 8 && 0 <= e <= f <= 8
    decreases 8 - f
  {
    if f == 8 then Gap(e)
    else if Sq(f, r) in men then Gap(e) + ManText(men, r, f) + RankText(men, r, f + 1, 0)
    else RankText(men, r, f + 1, e + 1)
  }

  // The ranks from r down to the first.
  function BoardText(men: Placement, r: int): string
    requires 0 <= r < 8
  {
    RankText(men, r, 0, 0) + if r == 0 then "" else ['/'] + BoardText(men, r - 1)
  }

  // The state of the scan: the square that comes next and the men put down so far; Bad is a
  // rejected text, and Clash one that puts a man on a square that holds one or beyond the board.
  datatype Scan = At(rnk: int, fil: int, men: Placement) | Bad | Clash

  const START: Scan := At(7, 0, map[])

  function PutMan(k: Scan, x: Man): Scan
    requires k.At?
  {
    var i := 8 * k.rnk + k.fil;
    if i < 0 || i >= 64 || SquareOf(i) in k.men then Clash else At(k.rnk, k.fil + 1, k.men[SquareOf(i) := x])
  }

  function Step(k: Scan, c: char): Scan {
    if !k.At? then k
    else if k.fil > 8 || k.rnk < 0 then Bad
    else if ManOf(c).Some? then PutMan(k, ManOf(c).value)
    else if '1' <= c <= '8' then k.(fil := k.fil + (c as int - '0' as int))
    else if c == '/' then k.(rnk := k.rnk - 1, fil := 0)
    else Bad
  }

  function Scanned(k: Scan, s: string): Scan
    decreases |s|
  {
    if s == "" then k else Scanned(Step(k, s[0]), s[1..])
  }

  lemma {:induction false} ScannedOn(k: Scan, a: string, b: string)
    ensures Scanned(k, a + b) == Scanned(Scanned(k, a), b)
    decreases |a|
  {
    if a == "" {
      assert a + b == b;
    } else {
      assert (a + b)[1..] == a[1..] + b;
      ScannedOn(Step(k, a[0]), a[1..], b);
    }
  }

  lemma ScannedPast(k: Scan, a: string, c: char, b: string)
    ensures Scanned(k, a + ([c] + b)) == Scanned(Step(Scanned(k, a), c), b)
  {
    ScannedOn(k, a, [c] + b);
    assert ([c] + b)[1..] == b;
  }

  // The men written before file f of rank r.
  function Before(men: Placement, r: int, f: int): Placement {
    map s | s in men && (s.rnk > r || (s.rnk == r && s.fil < f)) :: men[s]
  }

  lemma ReadGap(men: Placement, e: nat, r: int, f: int)
    requires 0 <= r < 8 && 0 <= e <= f <= 8
    ensures Scanned(At(r, f - e, men), Gap(e)) == At(r, f, men)
  {}

  lemma ReadMan(men: Placement, r: int, f: int)
    requires 0 <= r < 8 && 0 <= f < 8 && Sq(f, r) in men
    ensures Scanned(At(r, f, Before(men, r, f)), ManText(men, r, f)) == At(r, f + 1, Before(men, r, f + 1))
  {}

  lemma {:induction false} ReadRank(men: Placement, r: int, f: int, e: nat)
    requires 0 <= r < 8 && 0 <= e <= f <= 8
    ensures Scanned(At(r, f - e, Before(men, r, f)), RankText(men, r, f, e)) == At(r, 8, Before(men, r, 8))
    decreases 8 - f
  {
    var k := At(r, f - e, Before(men, r, f));
    ReadGap(Before(men, r, f), e, r, f);
    if f < 8 {
      if Sq(f, r) in men {
        ReadMan(men, r, f);
        ReadRank(men, r, f + 1, 0);
        ScannedOn(k, Gap(e), ManText(men, r, f));
        ScannedOn(k, Gap(e) + ManText(men, r, f), RankText(men, r, f + 1, 0));
      } else {
        assert Before(men, r, f) == Before(men, r, f + 1);
        ReadRank(men, r, f + 1, e + 1);
      }
    }
  }

  lemma BeforeEnds(men: Placement, r: int)
    requires 0 <= r < 8
    ensures Before(men, r, 8) == if r == 0 then men else Before(men, r - 1, 0)
  {}

  lemma ReadFirstRank(men: Placement)
    ensures Scanned(At(0, 0, Before(men, 0, 0)), BoardText(men, 0)) == At(0, 8, men)
  {
    FirstRankText(men);
    ReadRank(men, 0, 0, 0);
    BeforeEnds(men, 0);
  }

  // Every placement is read back from its text.
  lemma {:induction false} ReadBoard(men: Placement, r: int)
    requires 0 <= r < 8
    ensures Scanned(At(r, 0, Before(men, r, 0)), BoardText(men, r)) == At(0, 8, men)
  {
    if r > 0 {
      ReadSlash(men, r);
      ReadBoard(men, r - 1);
    } else {
      ReadFirstRank(men);
    }
  }

  lemma BoardParts(men: Placement, r: int)
    requires 0 < r < 8
    ensures BoardText(men, r) == RankText(men, r, 0, 0) + (['/'] + BoardText(men, r - 1))
  {}

  lemma FirstRankText(men: Placement)
    ensures BoardText(men, 0) == RankText(men, 0, 0, 0)
  {}

  lemma NextRank(r: int, men: Placement)
    requires 0 < r < 8
    ensures Step(At(r, 8, men), '/') == At(r - 1, 0, men)
  {}

  lemma ReadSlash(men: Placement, r: int)
    requires 0 < r < 8
    ensures Scanned(At(r, 0, Before(men, r, 0)), BoardText(men, r))
         == Scanned(At(r - 1, 0, Before(men, r - 1, 0)), BoardText(men, r - 1))
  {
    ReadRank(men, r, 0, 0);
    BeforeEnds(men, r);
    NextRank(r, Before(men, r, 8));
    BoardParts(men, r);
    ScannedPast(At(r, 0, Before(men, r, 0)), RankText(men, r, 0, 0), '/', BoardText(men, r - 1));
  }

  lemma {:induction false} RankFits(men: Placement, r: int, f: int, e: nat)
    requires 0 <= r < 8 && 0 <= e <= f <= 8
    ensures |RankText(men, r, f, e)| <= 8 - f + if e > 0 then 1 else 0
    ensures e > 0 || f < 8 ==> RankText(men, r, f, e) != ""
    decreases 8 - f
  {
    if f < 8 { RankFits(men, r, f + 1, if Sq(f, r) in men then 0 else e + 1); }
  }

  lemma {:induction false} RankVisible(men: Placement, r: int, f: int, e: nat)
    requires 0 <= r < 8 && 0 <= e <= f <= 8
    ensures NoSpaces(RankText(men, r, f, e))
    decreases 8 - f
  {
    if f < 8 {
      if Sq(f, r) in men {
        ManBack(men[Sq(f, r)]);
        RankVisible(men, r, f + 1, 0);
        NoSpacesJoined(Gap(e) + ManText(men, r, f), RankText(men, r, f + 1, 0));
      } else {
        RankVisible(men, r, f + 1, e + 1);
      }
    }
  }

  // The placement is one word of at most 71 characters.
  lemma {:induction false} BoardFits(men: Placement, r: int)
    requires 0 <= r < 8
    ensures 0 < |BoardText(men, r)| <= 9 * r + 8 && NoSpaces(BoardText(men, r))
  {
    RankFits(men, r, 0, 0);
    RankVisible(men, r, 0, 0);
    if r > 0 {
      BoardFits(men, r - 1);
      BoardParts(men, r);
      NoSpacesJoined(['/'], BoardText(men, r - 1));
      NoSpacesJoined(RankText(men, r, 0, 0), ['/'] + BoardText(men, r - 1));
    } else {
      FirstRankText(men);
    }
  }

  // ---- The other fields -------------------------------------------------------------------

  function SideChar(c: Color): char {
    match c
    case White => 'w'
    case Black => 'b'
  }

  function RightChar(r: Right): char {
    match r
    case WK => 'K'
    case WQ => 'Q'
    case BK => 'k'
    case BQ => 'q'
  }

  function Letters(flags: set<Right>, r: Right): string {
    if r in flags then [RightChar(r)] else ""
  }

  function FlagsText(flags: set<Right>): string {
    if WK !in flags && WQ !in flags && BK !in flags && BQ !in flags then "-"
    else
      Letters(flags, WK) + Letters(flags, WQ) + Letters(flags, BK) + Letters(flags, BQ)
  }

  function ReadFlags(s: string, flags: set<Right>): Option<set<Right>> {
    if s == "" then Some(flags)
    else match s[0]
      case 'K' => ReadFlags(s[1..], flags + {WK})
      case 'Q' => ReadFlags(s[1..], flags + {WQ})
      case 'k' => ReadFlags(s[1..], flags + {BK})
      case 'q' => ReadFlags(s[1..], flags + {BQ})
      case '-' => ReadFlags(s[1..], flags)
      case _ => None
  }

  lemma ReadRight(r: Right, held: bool, rest: string, flags: set<Right>)
    ensures ReadFlags((if held then [RightChar(r)] else "") + rest, flags) == ReadFlags(rest, With(flags, held, r))
  {
    var s := (if held then [RightChar(r)] else "") + rest;
    if held {
      assert s[0] == RightChar(r) && s[1..] == rest;
      match r case WK => case WQ => case BK => case BQ =>
    } else {
      assert s == rest;
    }
  }

  lemma NoRights(flags: set<Right>)
    ensures WK !in flags && WQ !in flags && BK !in flags && BQ !in flags <==> flags == {}
  {
    if flags != {} {
      var r :| r in flags;
      match r case WK => case WQ => case BK => case BQ =>
    }
  }

  function With(flags: set<Right>, held: bool, r: Right): set<Right> {
    if held then flags + {r} else flags
  }

  lemma RightsBack(flags: set<Right>)
    ensures With(With(With(With({}, WK in flags, WK), WQ in flags, WQ), BK in flags, BK), BQ in flags, BQ) == flags
  {
    forall r ensures r in flags <==> r in With(With(With(With({}, WK in flags, WK), WQ in flags, WQ), BK in flags, BK), BQ in flags, BQ) {
      match r case WK => case WQ => case BK => case BQ =>
    }
  }

  lemma LettersBack(flags: set<Right>)
    ensures ReadFlags(Letters(flags, WK) + (Letters(flags, WQ) + (Letters(flags, BK) + (Letters(flags, BQ) + ""))), {}) == Some(flags)
  {
    var f1 := With({}, WK in flags, WK);
    var f2 := With(f1, WQ in flags, WQ);
    var f3 := With(f2, BK in flags, BK);
    var d := Letters(flags, BQ) + "";
    var c := Letters(flags, BK) + d;
    ReadRight(WK, WK in flags, Letters(flags, WQ) + c, {});
    ReadRight(WQ, WQ in flags, c, f1);
    ReadRight(BK, BK in flags, d, f2);
    ReadRight(BQ, BQ in flags, "", f3);
    RightsBack(flags);
  }

  lemma FlagsBack(flags: set<Right>)
    ensures ReadFlags(FlagsText(flags), {}) == Some(flags)
  {
    NoRights(flags);
    if flags == {} {
      assert "-"[0] == '-' && "-"[1..] == "";
    } else {
      LettersBack(flags);
      assert FlagsText(flags)
          == Letters(flags, WK) + (Letters(flags, WQ) + (Letters(flags, BK) + (Letters(flags, BQ) + "")));
    }
  }

  lemma FlagsFit(flags: set<Right>)
    ensures 0 < |FlagsText(flags)| <= 4 && NoSpaces(FlagsText(flags))
  {}

  function EpText(e: Option<Square>): string {
    match e
    case None => "-"
    case Some(s) => SquareStr(s)
  }

  // A word of one or two characters; the terminator stands for a missing second one.
  function ReadEp(w: string): Option<Option<Square>>
    requires w != ""
  {
    if w[0] == '-' then Some(None)
    else
      var f, r := w[0] as int - 'a' as int, (if |w| > 1 then w[1] as int else 0) - '1' as int;
      if f < 0 || f > 7 then None else if r != 2 && r != 5 then None else Some(Some(Sq(f, r)))
  }

  predicate EpRank(e: Option<Square>) {
    e.Some? ==> e.value.rnk == 2 || e.value.rnk == 5
  }

  lemma EpBack(e: Option<Square>)
    ensures 0 < |EpText(e)| <= 2 && NoSpaces(EpText(e))
    ensures ReadEp(EpText(e)) == if EpRank(e) then Some(e) else None
  {}

  // ---- What is accepted -------------------------------------------------------------------

  predicate FlagLetter(c: char) {
    c == 'K' || c == 'Q' || c == 'k' || c == 'q' || c == '-'
  }

  // Exactly the words of these letters are accepted, in any order, and a right is set if its letter occurs.
  lemma {:induction false} FlagsAccepted(s: string, flags: set<Right>)
    ensures ReadFlags(s, flags).Some? <==> forall i :: 0 <= i < |s| ==> FlagLetter(s[i])
    ensures ReadFlags(s, flags).Some? ==>
              forall r :: r in ReadFlags(s, flags).value <==> r in flags || exists i :: 0 <= i < |s| && s[i] == RightChar(r)
    decreases |s|
  {
    if s != "" {
      var rest := s[1..];
      var more := match s[0] { case 'K' => {WK} case 'Q' => {WQ} case 'k' => {BK} case 'q' => {BQ} case _ => {} };
      assert forall i :: 0 < i < |s| ==> s[i] == rest[i - 1];
      assert forall r: Right :: r in more <==> s[0] == RightChar(r);
      FlagsAccepted(rest, flags + more);
      if FlagLetter(s[0]) {
        assert s[0] == '-' ==> flags + more == flags;
        assert ReadFlags(s, flags) == ReadFlags(rest, flags + more);
        MoreFlags(s, rest, flags, more);
      }
    }
  }

  lemma MoreFlags(s: string, rest: string, flags: set<Right>, more: set<Right>)
    requires s != "" && rest == s[1..] && ReadFlags(s, flags) == ReadFlags(rest, flags + more)
    requires forall r: Right :: r in more <==> s[0] == RightChar(r)
    requires ReadFlags(rest, flags + more).Some? ==>
               forall r :: r in ReadFlags(rest, flags + more).value <==>
                             r in flags + more || exists i :: 0 <= i < |rest| && rest[i] == RightChar(r)
    ensures ReadFlags(s, flags).Some? ==>
              forall r :: r in ReadFlags(s, flags).value <==> r in flags || exists i :: 0 <= i < |s| && s[i] == RightChar(r)
  {
    forall r: Right
      ensures (exists i :: 0 <= i < |s| && s[i] == RightChar(r))
         <==> r in more || exists i :: 0 <= i < |rest| && rest[i] == RightChar(r)
    {
      if i :| 0 <= i < |s| && s[i] == RightChar(r) && i > 0 { assert rest[i - 1] == s[i]; }
      if i :| 0 <= i < |rest| && rest[i] == RightChar(r) { assert s[i + 1] == rest[i]; }
    }
  }

  // A dash, or a file from a to h and the rank 3 or 6.
  lemma EpAccepted(w: string)
    requires w != ""
    ensures ReadEp(w).Some? <==> w[0] == '-' || ('a' <= w[0] <= 'h' && |w| > 1 && (w[1] == '3' || w[1] == '6'))
  {}

  predicate PlacementLetter(c: char) {
    ManOf(c).Some? || '1' <= c <= '8' || c == '/'
  }

  lemma {:induction false} StaysBad(k: Scan, s: string)
    requires !k.At?
    ensures Scanned(k, s) == k
    decreases |s|
  {
    if s != "" { StaysBad(k, s[1..]); }
  }

  // A placement holds nothing but men, digits and slashes.
  lemma {:induction false} PlacementAccepted(k: Scan, s: string)
    requires k.At? && Scanned(k, s).At?
    ensures forall i :: 0 <= i < |s| ==> PlacementLetter(s[i])
    decreases |s|
  {
    if s != "" {
      var next := Step(k, s[0]);
      if !next.At? { StaysBad(next, s[1..]); }
      PlacementAccepted(next, s[1..]);
      forall i | 0 < i < |s| ensures PlacementLetter(s[i]) { assert s[i] == s[1..][i - 1]; }
    }
  }

  // ---- The whole line ---------------------------------------------------------------------

  // snprintf writes at most 19 characters of this.
  function Tail(p: Position): string {
    " " + EpText(p.epsq) + SpacedPair(p.movecnt50, p.moveno)
  }

  const TAIL_ROOM: nat := 19

  function Cut(s: string): string {
    if |s| <= TAIL_ROOM then s else s[..TAIL_ROOM]
  }

  // get_fen.
  function Fen(p: Position): string {
    BoardText(p.men, 7) + [' ', SideChar(p.side), ' '] + FlagsText(p.flags) + Cut(Tail(p))
  }

  datatype Fields = Fields(pos: string, clr: char, flg: string, ep: string, hmc: int, fmc: int)

  // sscanf with all six fields present.
  function SplitFen(s: string): Option<Fields> {
    match WordField(s, 80)
    case None => None
    case Some((pos, s1)) =>
      var s2 := Skip(s1);
      if s2 == "" then None else SplitRest(pos, s2[0], s2[1..])
  }

  function SplitRest(pos: string, clr: char, s: string): Option<Fields> {
    match WordField(s, 4)
    case None => None
    case Some((flg, s1)) =>
      match WordField(s1, 2)
      case None => None
      case Some((ep, s2)) =>
        match TwoInts(s2)
        case None => None
        case Some((hmc, fmc)) => Some(Fields(pos, clr, flg, ep, hmc, fmc))
  }

  lemma TailCut(p: Position)
    ensures Cut(Tail(p)) == " " + EpText(p.epsq) + SpacedPair(p.movecnt50, p.moveno)[..|Cut(Tail(p))| - 1 - |EpText(p.epsq)|]
    ensures var k := |Cut(Tail(p))| - 1 - |EpText(p.epsq)|;
            0 < k <= |SpacedPair(p.movecnt50, p.moveno)| && (k == |SpacedPair(p.movecnt50, p.moveno)| <==> |Tail(p)| <= TAIL_ROOM)
  {}

  ghost function Numbers(p: Position): string {
    TailCut(p);
    SpacedPair(p.movecnt50, p.moveno)[..|Cut(Tail(p))| - 1 - |EpText(p.epsq)|]
  }

  lemma NumbersBack(p: Position)
    ensures TwoInts(Numbers(p)) == Some((p.movecnt50, p.moveno)) <==> |Tail(p)| <= TAIL_ROOM
  {
    TailCut(p);
    var s, k := SpacedPair(p.movecnt50, p.moveno), |Cut(Tail(p))| - 1 - |EpText(p.epsq)|;
    if k < |s| {
      PairCut(p.movecnt50, p.moveno, k);
    } else {
      PairBack(p.movecnt50, p.moveno);
      assert s[..k] == s;
    }
  }

  lemma SplitRestBack(p: Position, pos: string, clr: char)
    ensures SplitRest(pos, clr, " " + FlagsText(p.flags) + Cut(Tail(p))) ==
      match TwoInts(Numbers(p))
      case None => None
      case Some((hmc, fmc)) => Some(Fields(pos, clr, FlagsText(p.flags), EpText(p.epsq), hmc, fmc))
  {
    FlagsFit(p.flags);
    EpBack(p.epsq);
    TailCut(p);
    assert Cut(Tail(p))[0] == ' ';
    WordFieldBack(FlagsText(p.flags), Cut(Tail(p)), 4);
    assert Numbers(p)[0] == ' ';
    WordFieldBack(EpText(p.epsq), Numbers(p), 2);
  }

  lemma SplitHead(pos: string, clr: char, rest: string)
    requires 0 < |pos| <= 80 && NoSpaces(pos) && !IsSpace(clr)
    ensures SplitFen(pos + ([' '] + ([clr] + rest))) == SplitRest(pos, clr, rest)
  {
    var s2 := [clr] + rest;
    var s1 := [' '] + s2;
    WordFieldBack(pos, s1, 80);
    assert s1[1..] == s2 && s2[1..] == rest;
    assert Skip(s1) == Skip(s2) == s2;
  }

  lemma FenParts(p: Position)
    ensures Fen(p) == BoardText(p.men, 7) + ([' '] + ([SideChar(p.side)] + (" " + FlagsText(p.flags) + Cut(Tail(p)))))
  {}

  // All fields but the numbers are read back; the numbers are read from what was written of them.
  lemma SplitBack(p: Position)
    ensures SplitFen(Fen(p)) ==
      match TwoInts(Numbers(p))
      case None => None
      case Some((hmc, fmc)) => Some(Fields(BoardText(p.men, 7), SideChar(p.side), FlagsText(p.flags), EpText(p.epsq), hmc, fmc))
  {
    FenSplits(p);
    SplitRestBack(p, BoardText(p.men, 7), SideChar(p.side));
  }

  lemma FenSplits(p: Position)
    ensures SplitFen(Fen(p)) == SplitRest(BoardText(p.men, 7), SideChar(p.side), " " + FlagsText(p.flags) + Cut(Tail(p)))
  {
    BoardFits(p.men, 7);
    FenParts(p);
    SideVisible(p.side);
    SplitHead(BoardText(p.men, 7), SideChar(p.side), " " + FlagsText(p.flags) + Cut(Tail(p)));
  }

  lemma SideVisible(c: Color)
    ensures !IsSpace(SideChar(c))
  {}

  // Clashed: the text puts two men on a square or one beyond the board, so that the fields of the
  // program's board no longer belong to one placement.
  datatype Outcome = Read(p: Position) | Rejected | Clashed

  function Zeros(n: nat): (z: seq<U32>)
    ensures |z| == n && forall c :: c in z ==> c == 0
  {
    if n == 0 then [] else Zeros(n - 1) + [0]
  }

  function SideOf(c: char): Option<Color> {
    if c == 'w' then Some(White) else if c == 'b' then Some(Black) else None
  }

  // is_valid and is_legal.
  ghost predicate ValidBoard(p: Position) {
    HasSoleKing(p.men, White) && HasSoleKing(p.men, Black) && PawnsOff(p.men) && !KingAttacked(p.men, p.side.Other())
  }

  // The fields of the line in the order in which they are read, before the board is validated.
  function ReadFields(d: Fields): Outcome
    requires d.ep != ""
  {
    match Scanned(START, d.pos)
    case Bad => Rejected
    case Clash => Clashed
    case At(_, _, men) =>
      var side, flags, ep := SideOf(d.clr), ReadFlags(d.flg, {}), ReadEp(d.ep);
      if side.None? || flags.None? || ep.None? then Rejected
      else Read(Position(men, side.value, flags.value, ep.value, d.fmc, d.hmc, {}, Zeros(SQUARES)))
  }

  lemma SplitHasEp(s: string)
    ensures SplitFen(s).Some? ==> SplitFen(s).value.ep != ""
  {}

  // parse_fen.
  ghost function ReadFen(s: string): Outcome {
    SplitHasEp(s);
    if SplitFen(s).None? then Rejected
    else
      var r := ReadFields(SplitFen(s).value);
      if r.Read? && !ValidBoard(r.p) then Rejected else r
  }

  // What a FEN line keeps of a position.
  function Kept(p: Position): Position {
    p.(castled := {}, moveCount := Zeros(SQUARES))
  }

  ghost predicate Restorable(p: Position) {
    ValidBoard(p) && EpRank(p.epsq) && |Tail(p)| <= TAIL_ROOM
  }

  lemma FieldsBack(p: Position, hmc: int, fmc: int)
    ensures ReadFields(Fields(BoardText(p.men, 7), SideChar(p.side), FlagsText(p.flags), EpText(p.epsq), hmc, fmc))
         == if EpRank(p.epsq) then Read(Kept(p).(moveno := fmc, movecnt50 := hmc)) else Rejected
  {
    ReadBoard(p.men, 7);
    assert Before(p.men, 7, 0) == map[];
    FlagsBack(p.flags);
    EpBack(p.epsq);
    match p.side case White => case Black =>
  }

  // A position is read back from its FEN line exactly when its board is valid, its en-passant
  // square is on the third or sixth rank, and the en-passant square and the two counters fit the
  // field they are written to.
  lemma FenRoundTrip(p: Position)
    ensures ReadFen(Fen(p)) == Read(Kept(p)) <==> Restorable(p)
  {
    SplitBack(p);
    NumbersBack(p);
    if TwoInts(Numbers(p)).Some? {
      var (hmc, fmc) := TwoInts(Numbers(p)).value;
      FieldsBack(p, hmc, fmc);
    }
  }

  // The board invariant leaves only the width of the counters to ask for.
  lemma FenRestores(p: Position)
    requires Invariant(p)
    ensures ReadFen(Fen(p)) == Read(Kept(p)) <==> |Tail(p)| <= TAIL_ROOM
  {
    FenRoundTrip(p);
    assert EpOk(p);
  }

  const TWO_KINGS: Placement := map[E1 := Man(White, King), E8 := Man(Black, King)]

  // Two kings alone, after more moves than the field has digits for.
  function LongGame(moveCount: seq<U32>): Position {
    Position(TWO_KINGS, White, {}, None, 123456789, 123456789, {}, moveCount)
  }

  lemma NineDigits()
    ensures |Natural(123456789)| == 9
  {
    OneDigitMore(123456789);
    OneDigitMore(12345678);
    OneDigitMore(1234567);
    OneDigitMore(123456);
    OneDigitMore(12345);
    OneDigitMore(1234);
    OneDigitMore(123);
    OneDigitMore(12);
  }

  lemma LongGameIsValid(moveCount: seq<U32>)
    ensures ValidBoard(LongGame(moveCount))
  {
    assert SoleKing(TWO_KINGS, White, E1) && SoleKing(TWO_KINGS, Black, E8);
  }

  // A valid board whose counters do not fit is not read back.
  lemma LongGameIsLost(moveCount: seq<U32>)
    ensures var p := LongGame(moveCount); ValidBoard(p) && EpRank(p.epsq) && ReadFen(Fen(p)) != Read(Kept(p))
  {
    LongGameIsValid(moveCount);
    NineDigits();
    FenRoundTrip(LongGame(moveCount));
  }
}
