// Characters and numbers as text (src/chess/basic.h, and snprintf and sscanf of the C library).
module Text {
  import opened Basic

  // ---- Characters -------------------------------------------------------------------------

  function PieceChar(pc: Piece): char {
    match pc
    case Pawn => 'P'
    case Knight => 'N'
    case Bishop => 'B'
    case Rook => 'R'
    case Queen => 'Q'
    case King => 'K'
  }

  function LowerChar(pc: Piece): char {
    match pc
    case Pawn => 'p'
    case Knight => 'n'
    case Bishop => 'b'
    case Rook => 'r'
    case Queen => 'q'
    case King => 'k'
  }

  function FileChar(f: int): char
    requires 0 <= f < 8
  {
    match f
    case 0 => 'a'
    case 1 => 'b'
    case 2 => 'c'
    case 3 => 'd'
    case 4 => 'e'
    case 5 => 'f'
    case 6 => 'g'
    case _ => 'h'
  }

  function RankChar(r: int): char
    requires 0 <= r < 8
  {
    match r
    case 0 => '1'
    case 1 => '2'
    case 2 => '3'
    case 3 => '4'
    case 4 => '5'
    case 5 => '6'
    case 6 => '7'
    case _ => '8'
  }

  predicate IsFile(c: char) {
    'a' <= c <= 'h'
  }

  predicate IsRank(c: char) {
    '1' <= c <= '8'
  }

  predicate IsMark(c: char) {
    c == '+' || c == '#'
  }

  function SquareStr(s: Square): (r: string)
    ensures |r| == 2
  {
    [FileChar(s.fil), RankChar(s.rnk)]
  }

  lemma SquareStrInjective(a: Square, b: Square)
    requires SquareStr(a) == SquareStr(b)
    ensures a == b
  {}

  lemma FileCharKinds(f: int, r: int)
    requires 0 <= f < 8 && 0 <= r < 8
    ensures IsFile(FileChar(f)) && IsRank(RankChar(r)) && FileChar(f) != RankChar(r)
  {}

  // ---- The C library ----------------------------------------------------------------------

  predicate IsSpace(c: char) {
    c == ' ' || '\t' <= c <= '\r'
  }

  predicate IsDigit(c: char) {
    '0' <= c <= '9'
  }

  function Digit(d: int): char
    requires 0 <= d < 10
  {
    '0' + d as char
  }

  // %d of snprintf.
  function Natural(n: nat): string {
    if n < 10 then [Digit(n)] else Natural(n / 10) + [Digit(n % 10)]
  }

  function Decimal(n: int): string {
    if n < 0 then "-" + Natural(-n) else Natural(n)
  }

  function Skip(s: string): string {
    if s != "" && IsSpace(s[0]) then Skip(s[1..]) else s
  }

  // %<n>s of sscanf, after the white space.
  function Word(s: string, n: nat): string {
    if n == 0 || s == "" || IsSpace(s[0]) then "" else [s[0]] + Word(s[1..], n - 1)
  }

  function Digits(s: string): string {
    if s == "" || !IsDigit(s[0]) then "" else [s[0]] + Digits(s[1..])
  }

  predicate AllDigits(s: string) {
    forall i :: 0 <= i < |s| ==> IsDigit(s[i])
  }

  function Val(s: string): nat
    requires AllDigits(s)
  {
    if s == "" then 0 else 10 * Val(s[..|s| - 1]) + (s[|s| - 1] as int - '0' as int)
  }

  lemma {:induction false} DigitsAre(s: string)
    ensures AllDigits(Digits(s)) && |Digits(s)| <= |s|
  {
    if s != "" && IsDigit(s[0]) { DigitsAre(s[1..]); }
  }

  function Signed(neg: bool, v: nat): int {
    var i: int := v;
    if neg then -i else i
  }

  // %d of sscanf, after the white space.
  function ReadInt(s: string): Option<(int, string)> {
    var t := if s != "" && (s[0] == '-' || s[0] == '+') then s[1..] else s;
    var d := Digits(t);
    DigitsAre(t);
    if d == "" then None
    else Some((Signed(s[0] == '-', Val(d)), t[|d|..]))
  }

  lemma {:induction false} WordBack(w: string, rest: string, n: nat)
    requires |w| <= n && (forall i :: 0 <= i < |w| ==> !IsSpace(w[i])) && (|w| == n || rest == "" || IsSpace(rest[0]))
    ensures Word(w + rest, n) == w
  {
    if w == "" {
      assert w + rest == rest;
    } else {
      assert (w + rest)[1..] == w[1..] + rest;
      WordBack(w[1..], rest, n - 1);
    }
  }

  lemma {:induction false} DigitsBack(d: string, rest: string)
    requires AllDigits(d) && (rest == "" || !IsDigit(rest[0]))
    ensures Digits(d + rest) == d
  {
    if d == "" {
      assert d + rest == rest;
    } else {
      assert (d + rest)[1..] == d[1..] + rest;
      DigitsBack(d[1..], rest);
    }
  }

  lemma {:induction false} NaturalIs(n: nat)
    ensures AllDigits(Natural(n)) && |Natural(n)| > 0 && Val(Natural(n)) == n
  {
    if n >= 10 {
      NaturalIs(n / 10);
      assert Natural(n)[..|Natural(n)| - 1] == Natural(n / 10);
    }
  }

  lemma OneDigitMore(n: nat)
    requires n >= 10
    ensures |Natural(n)| == |Natural(n / 10)| + 1
  {}

  // The leading digits of a number are the digits of a smaller number.
  lemma {:induction false} CutNatural(n: nat, k: nat)
    requires 0 < k < |Natural(n)|
    ensures AllDigits(Natural(n)[..k]) && Val(Natural(n)[..k]) <= n / 10 < n
  {
    var s := Natural(n);
    NaturalIs(n / 10);
    assert s[..|s| - 1] == Natural(n / 10);
    if k < |s| - 1 {
      CutNatural(n / 10, k);
      assert s[..k] == Natural(n / 10)[..k];
    } else {
      assert s[..k] == Natural(n / 10);
    }
  }

  lemma ReadDigits(d: string, rest: string, neg: bool)
    requires AllDigits(d) && d != "" && (rest == "" || !IsDigit(rest[0]))
    ensures ReadInt((if neg then "-" else "") + d + rest) == Some((Signed(neg, Val(d)), rest))
  {
    var s := (if neg then "-" else "") + d + rest;
    DigitsBack(d, rest);
    var t := if s[0] == '-' || s[0] == '+' then s[1..] else s;
    assert s[0] == if neg then '-' else d[0];
    assert d[0] in d;
    assert t == d + rest;
    assert t[|d|..] == rest;
  }

  lemma ReadIntBack(n: int, rest: string)
    requires rest == "" || !IsDigit(rest[0])
    ensures ReadInt(Decimal(n) + rest) == Some((n, rest))
  {
    var a := if n < 0 then -n else n;
    NaturalIs(a);
    ReadDigits(Natural(a), rest, n < 0);
    assert Decimal(n) == (if n < 0 then "-" else "") + Natural(a);
  }

  lemma DecimalText(n: int)
    ensures |Decimal(n)| > 0 && NoSpaces(Decimal(n))
  {
    NaturalIs(if n < 0 then -n else n);
  }

  // A number whose last characters are cut off is not read back.
  lemma ReadIntCut(n: int, k: nat)
    requires k < |Decimal(n)|
    ensures var r := ReadInt(Decimal(n)[..k]); r.Some? ==> r.value.0 != n
  {
    var a, sign := if n < 0 then -n else n, if n < 0 then 1 else 0;
    NaturalIs(a);
    if k > sign {
      CutNatural(a, k - sign);
      var d := Natural(a)[..k - sign];
      ReadDigits(d, "", n < 0);
      assert Decimal(n)[..k] == (if n < 0 then "-" else "") + d + "";
    }
  }

  // ---- Fields -----------------------------------------------------------------------------

  lemma {:induction false} WordFits(s: string, n: nat)
    ensures |Word(s, n)| <= |s|
  {
    if n > 0 && s != "" && !IsSpace(s[0]) { WordFits(s[1..], n - 1); }
  }

  // The next word and what follows it.
  function WordField(s: string, n: nat): Option<(string, string)> {
    var t := Skip(s);
    var w := Word(t, n);
    WordFits(t, n);
    if w == "" then None else Some((w, t[|w|..]))
  }

  predicate NoSpaces(s: string) {
    forall i :: 0 <= i < |s| ==> !IsSpace(s[i])
  }

  lemma NoSpacesJoined(a: string, b: string)
    requires NoSpaces(a) && NoSpaces(b)
    ensures NoSpaces(a + b)
  {}

  lemma SkipWord(w: string, rest: string)
    requires NoSpaces(w) && w != ""
    ensures Skip(w + rest) == w + rest && Skip(" " + w + rest) == w + rest
  {}

  lemma WordFieldBack(w: string, rest: string, n: nat)
    requires NoSpaces(w) && 0 < |w| <= n && (rest == "" || rest[0] == ' ')
    ensures WordField(w + rest, n) == Some((w, rest)) == WordField(" " + w + rest, n)
  {
    SkipWord(w, rest);
    WordBack(w, rest, n);
    assert (w + rest)[|w|..] == rest;
  }

  function TwoInts(s: string): Option<(int, int)> {
    match ReadInt(Skip(s))
    case None => None
    case Some((a, rest)) =>
      match ReadInt(Skip(rest))
      case None => None
      case Some((b, _)) => Some((a, b))
  }

  lemma SpacedInt(n: int, rest: string)
    requires rest == "" || rest[0] == ' '
    ensures ReadInt(Skip(" " + Decimal(n) + rest)) == Some((n, rest))
  {
    DecimalText(n);
    SkipWord(Decimal(n), rest);
    ReadIntBack(n, rest);
  }

  lemma SpacedIntCut(n: int, k: nat)
    requires k <= |Decimal(n)|
    ensures var r := ReadInt(Skip((" " + Decimal(n))[..k])); r.Some? ==> r.value.0 != n
  {
    if k > 0 {
      var w := Decimal(n)[..k - 1];
      assert (" " + Decimal(n))[..k] == " " + w + "";
      if k > 1 {
        DecimalText(n);
        SkipWord(w, "");
      } else {
        assert " "[1..] == "";
      }
      assert w + "" == w;
      ReadIntCut(n, k - 1);
    }
  }

  function SpacedPair(a: int, b: int): string {
    " " + Decimal(a) + " " + Decimal(b)
  }

  lemma PairBack(a: int, b: int)
    ensures TwoInts(SpacedPair(a, b)) == Some((a, b))
  {
    SpacedInt(a, " " + Decimal(b));
    SpacedInt(b, "");
    Joined(" " + Decimal(a), " ", Decimal(b));
    assert " " + Decimal(b) + "" == " " + Decimal(b);
  }

  lemma Joined(a: string, b: string, c: string)
    ensures a + b + c == a + (b + c)
  {}

  // Two numbers are read back exactly when nothing is cut off.
  lemma PairCut(a: int, b: int, k: nat)
    requires k < |SpacedPair(a, b)|
    ensures TwoInts(SpacedPair(a, b)[..k]) != Some((a, b))
  {
    var n := |Decimal(a)| + 1;
    if k < n {
      assert SpacedPair(a, b)[..k] == (" " + Decimal(a))[..k];
      SpacedIntCut(a, k);
    } else {
      var tail := (" " + Decimal(b))[..k - n];
      assert SpacedPair(a, b)[..k] == " " + Decimal(a) + tail;
      SpacedInt(a, tail);
      SpacedIntCut(b, k - n);
    }
  }
}
