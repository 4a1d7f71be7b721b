// Evaluation with two cutoffs and a side-normalised cache (src/common/eval.cc, src/common/evalcache.cc,
// and material_balance, get_phase and score_devel of src/chess/eval.cc).
module Evaluation {
  import opened Basic
  import opened Rules
  import opened GameTree

  const EVAL_CUTOFF_MATERIAL: int := 150
  const EVAL_CUTOFF_PHASE1: int := 5

  datatype Phase = Opening | Midgame | Endgame

  type Counts = s: seq<U32> | |s| == SQUARES witness seq(SQUARES, _ => 0)

  // Who has castled, and how often the man on each square has moved.
  datatype Past = Past(castled: set<Color>, moveCount: Counts)

  // What a board shows an evaluator. Boards with the same ident agree in everything that the hash key
  // without the side is made from; the key leaves out the past.
  datatype View = View(ident: int, past: Past, side: Color)

  // The scoring functions, by ident and side; score_devel also looks at the past.
  datatype Scoring = Scoring(
    material: (int, Color) -> nat,
    plugins: seq<(int, Color) -> int>,
    devel: (int, Past, Color) -> int,
    plugins2: seq<(int, Color) -> int>,
    key: int -> nat)

  // ---- Material ---------------------------------------------------------------------------

  // Division that truncates towards zero.
  function TruncDiv(a: int, b: int): int
    requires b > 0
  {
    if a >= 0 then a / b else -(-a / b)
  }

  // Evaluator::material_balance.
  function MaterialBalance(ms: int, mxs: int): int {
    TruncDiv((8192 - (ms + mxs) + 8192 * 8) * (ms - mxs), 8192 * 8)
  }

  // Changing sides changes the sign of the balance, and of nothing else.
  lemma BalanceOdd(ms: int, mxs: int)
    ensures MaterialBalance(mxs, ms) == -MaterialBalance(ms, mxs)
  {}

  // The side that is ahead is credited with its lead and at most an eighth more, as long as there is no more on the
  // board than the formula allows for.
  lemma BalanceNearLead(ms: nat, mxs: nat)
    requires mxs <= ms && ms + mxs <= 8192
    ensures ms - mxs <= MaterialBalance(ms, mxs) && 8 * MaterialBalance(ms, mxs) <= 9 * (ms - mxs)
  {
    BalanceOf(ms, mxs);
    ProductAtMost(8192 * 8, 8192 * 9 - (ms + mxs), ms - mxs);
    ProductAtMost(8192 * 9 - (ms + mxs), 8192 * 9, ms - mxs);
  }

  lemma BalanceOf(ms: nat, mxs: nat)
    requires mxs <= ms && ms + mxs <= 8192 * 9
    ensures MaterialBalance(ms, mxs) == ((8192 * 9 - (ms + mxs)) * (ms - mxs)) / 65536
  {
    ProductAtMost(0, 8192 * 9 - (ms + mxs), ms - mxs);
  }

  lemma ProductAtMost(a: nat, b: nat, d: nat)
    requires a <= b
    ensures 0 <= a * d <= b * d
  {}

  // Trading like for like never helps the side that is behind.
  lemma TradesFavourTheLead(ms: nat, mxs: nat, traded: nat)
    requires traded <= mxs <= ms && ms + mxs <= 8192 * 9
    ensures MaterialBalance(ms, mxs) <= MaterialBalance(ms - traded, mxs - traded)
  {
    var k, d := 8192 * 9 - (ms + mxs), ms - mxs;
    BalanceOf(ms, mxs);
    BalanceOf(ms - traded, mxs - traded);
    assert 8192 * 9 - (ms - traded + (mxs - traded)) == k + 2 * traded && ms - traded - (mxs - traded) == d;
    ProductAtMost(k, k + 2 * traded, d);
  }

  // Evaluator::get_phase.
  function PhaseOf(s: Scoring, ident: int): Phase {
    var mat := s.material(ident, White) + s.material(ident, Black);
    if mat > 7000 then Opening else if mat > 3200 then Midgame else Endgame
  }

  // ---- The evaluation without cache -------------------------------------------------------

  function Balance(s: Scoring, b: View): int {
    MaterialBalance(s.material(b.ident, b.side), s.material(b.ident, b.side.Other()))
  }

  function Sum(list: seq<(int, Color) -> int>, ident: int, side: Color): int {
    if list == [] then 0
    else list[0](ident, side) - list[0](ident, side.Other()) + Sum(list[1..], ident, side)
  }

  // What score_devel says of one man.
  function ManDevel(x: Piece, count: U32): int {
    if x == Knight || x == Bishop then (if count == 0 then -15 else 0)
    else if x == Rook then (if count > 0 then -20 else 0)
    else if x == Queen then (if count > 0 then -25 else 0)
    else 0
  }

  // The men of a side on the first n squares.
  function MenDevel(men: Placement, moveCount: Counts, side: Color, n: nat): int
    requires n <= SQUARES
  {
    if n == 0 then 0
    else
      var s := SquareOf(n - 1);
      MenDevel(men, moveCount, side, n - 1)
      + if s in men && men[s].color == side then ManDevel(men[s].piece, moveCount[n - 1]) else 0
  }

  predicate MayStillCastle(rights: set<Right>, side: Color) {
    if side == White then WK in rights || WQ in rights else BK in rights || BQ in rights
  }

  // score_devel in the opening.
  function ScoreDevel(men: Placement, rights: set<Right>, past: Past, side: Color): int {
    MenDevel(men, past.moveCount, side, SQUARES)
    + if side in past.castled then 32 else if MayStillCastle(rights, side) then 16 else 0
  }

  // score_devel scores nothing outside the opening.
  function Devel(s: Scoring, b: View, side: Color): int {
    if PhaseOf(s, b.ident) != Opening then 0 else s.devel(b.ident, b.past, side)
  }

  function FirstPhase(s: Scoring, b: View): int {
    Sum(s.plugins, b.ident, b.side) + Devel(s, b, b.side) - Devel(s, b, b.side.Other())
  }

  // Both phases; the second is skipped if the first has decided enough.
  function Full(s: Scoring, b: View): int {
    var score1 := FirstPhase(s, b);
    if score1 > EVAL_CUTOFF_PHASE1 || score1 < -EVAL_CUTOFF_PHASE1 then Balance(s, b) + score1
    else Balance(s, b) + score1 + Sum(s.plugins2, b.ident, b.side)
  }

  predicate CutOff(s: Scoring, b: View, alpha: int, beta: int) {
    Balance(s, b) >= beta + EVAL_CUTOFF_MATERIAL || Balance(s, b) <= alpha - EVAL_CUTOFF_MATERIAL
  }

  function Uncached(s: Scoring, b: View, alpha: int, beta: int): int {
    if CutOff(s, b, alpha, beta) then Balance(s, b) else Full(s, b)
  }

  function Flip(b: View): View {
    b.(side := b.side.Other())
  }

  lemma {:induction false} SumOdd(list: seq<(int, Color) -> int>, ident: int, side: Color)
    ensures Sum(list, ident, side.Other()) == -Sum(list, ident, side)
    decreases |list|
  {
    assert side.Other().Other() == side by { match side { case White => case Black => } }
    if list != [] { SumOdd(list[1..], ident, side); }
  }

  lemma FullOdd(s: Scoring, b: View)
    ensures Full(s, Flip(b)) == -Full(s, b) && Balance(s, Flip(b)) == -Balance(s, b)
  {
    assert b.side.Other().Other() == b.side by { match b.side { case White => case Black => } }
    BalanceOdd(s.material(b.ident, b.side), s.material(b.ident, b.side.Other()));
    SumOdd(s.plugins, b.ident, b.side);
    SumOdd(s.plugins2, b.ident, b.side);
  }

  // Seen from the other side, with the window turned round, every score changes its sign.
  lemma EvalOdd(s: Scoring, b: View, alpha: int, beta: int)
    ensures Uncached(s, Flip(b), -beta, -alpha) == -Uncached(s, b, alpha, beta)
  {
    FullOdd(s, b);
  }

  // The material cutoff is harmless in every window if and only if the rest of the evaluation never
  // moves the score by more than the cutoff allows for.
  lemma LazyCutoffHarmlessIff(s: Scoring, b: View)
    ensures (forall alpha: int, beta: int | alpha < beta ::
               Clamp(Uncached(s, b, alpha, beta), alpha, beta) == Clamp(Full(s, b), alpha, beta))
       <==> -EVAL_CUTOFF_MATERIAL <= Full(s, b) - Balance(s, b) <= EVAL_CUTOFF_MATERIAL
  {
    var bal, full := Balance(s, b), Full(s, b);
    if full - bal > EVAL_CUTOFF_MATERIAL {
      var alpha := bal + EVAL_CUTOFF_MATERIAL;
      assert Clamp(Uncached(s, b, alpha, full), alpha, full) != Clamp(full, alpha, full);
    } else if full - bal < -EVAL_CUTOFF_MATERIAL {
      var beta := bal - EVAL_CUTOFF_MATERIAL;
      assert Clamp(Uncached(s, b, full, beta), full, beta) != Clamp(full, full, beta);
    }
  }

  function KeyOfIdent(i: int): nat {
    if i >= 0 then 2 * i else -2 * i - 1
  }

  // Both sides have 4000 of material, and white's development is scored by its past.
  function PastScores(devel: Past -> int): Scoring {
    Scoring((_, _) => 4000, [], (_, past, side) => if side == White then devel(past) else 0, [], KeyOfIdent)
  }

  // The cutoff shows: where the rest of the evaluation is 200, in the window from 150 to 200 the material
  // balance fails low, while the whole evaluation fails high.
  lemma LazyCutoffShows(past: Past)
    ensures var s, b := PastScores(_ => 200), View(0, past, White);
            && Full(s, b) - Balance(s, b) > EVAL_CUTOFF_MATERIAL
            && Clamp(Uncached(s, b, 150, 200), 150, 200) == 150 && Clamp(Full(s, b), 150, 200) == 200
  {}

  // A game whose static values and evaluations are these.
  ghost predicate EvaluatesBy(g: Game, s: Scoring, view: Pos -> View) {
    forall p: Pos ::
      && g.stand(p) == Full(s, view(p))
      && forall alpha: int, beta: int :: g.eval(p, alpha, beta) == Uncached(s, view(p), alpha, beta)
  }

  // What the search asks of an evaluation with a window holds if and only if in no position the rest of
  // the evaluation exceeds the cutoff margin.
  lemma EvalOkIff(g: Game, s: Scoring, view: Pos -> View)
    requires EvaluatesBy(g, s, view)
    ensures EvalOk(g) <==>
            forall p: Pos :: -EVAL_CUTOFF_MATERIAL <= Full(s, view(p)) - Balance(s, view(p)) <= EVAL_CUTOFF_MATERIAL
  {
    forall p: Pos
      ensures -EVAL_CUTOFF_MATERIAL <= Full(s, view(p)) - Balance(s, view(p)) <= EVAL_CUTOFF_MATERIAL <==>
        forall alpha: int, beta: int | alpha < beta ::
          Clamp(g.eval(p, alpha, beta), alpha, beta) == Clamp(g.stand(p), alpha, beta)
    {
      LazyCutoffHarmlessIff(s, view(p));
      assert g.stand(p) == Full(s, view(p));
      forall alpha: int, beta: int | alpha < beta
        ensures Clamp(g.eval(p, alpha, beta), alpha, beta) == Clamp(Uncached(s, view(p), alpha, beta), alpha, beta)
      {
        assert g.eval(p, alpha, beta) == Uncached(s, view(p), alpha, beta);
      }
      assert forall alpha: int, beta: int | alpha < beta ::
        Clamp(Uncached(s, view(p), alpha, beta), alpha, beta) == Clamp(g.eval(p, alpha, beta), alpha, beta);
    }
  }

  // The program's own numbers: a side that is a pawn ahead gains by a trade of rooks, the game opens with 7900 of
  // material, and a first phase of up to 5 is refined by the second.
  lemma Numbers(s: Scoring, b: View, ident: int)
    ensures MaterialBalance(1200, 1100) == 108 && MaterialBalance(700, 600) == 110
    ensures s.material(ident, White) == s.material(ident, Black) == 3950 ==> PhaseOf(s, ident) == Opening
    ensures s.material(ident, White) == s.material(ident, Black) == 3500 ==> PhaseOf(s, ident) == Midgame
    ensures s.material(ident, White) == s.material(ident, Black) == 1600 ==> PhaseOf(s, ident) == Endgame
    ensures FirstPhase(s, b) == 5 ==> Full(s, b) == Balance(s, b) + 5 + Sum(s.plugins2, b.ident, b.side)
    ensures FirstPhase(s, b) == 6 ==> Full(s, b) == Balance(s, b) + 6
  {}

  // ---- The cache --------------------------------------------------------------------------

  datatype CacheEntry = CacheEntry(hashkey: nat, score: int)

  ghost predicate KeysIdentifyBoards(s: Scoring) {
    forall i: int, j: int | s.key(i) == s.key(j) :: i == j
  }

  function Normalised(side: Color, score: int): int {
    if side == White then score else -score
  }

  class EvaluationCache {
    const cache: array<Option<CacheEntry>>
    var statProbes: nat
    var statHits: nat

    ghost predicate Valid() {
      cache.Length > 0
    }

    // Every entry is white's view of the full evaluation of the boards with its key, unless they are
    // in the opening.
    ghost predicate True(s: Scoring)
      reads cache
    {
      forall i | 0 <= i < cache.Length && cache[i].Some? :: EntryTrue(s, cache[i].value)
    }

    constructor (size: nat)
      requires size > 0
      ensures Valid() && fresh(cache) && cache.Length == size && forall i :: 0 <= i < size ==> cache[i] == None
    {
      cache := new Option<CacheEntry>[size](_ => None);
      statProbes, statHits := 0, 0;
    }

    // What a probe finds.
    function Held(s: Scoring, b: View): Option<int>
      requires Valid()
      reads cache
    {
      match cache[s.key(b.ident) % cache.Length]
      case None => None
      case Some(e) => if e.hashkey == s.key(b.ident) then Some(Normalised(b.side, e.score)) else None
    }

    // What the cache holds after a score has been put into it.
    function Holding(s: Scoring, b: View, score: int): seq<Option<CacheEntry>>
      requires Valid()
      reads cache
    {
      cache[..][s.key(b.ident) % cache.Length := Some(CacheEntry(s.key(b.ident), Normalised(b.side, score)))]
    }

    method Put(s: Scoring, b: View, score: int)
      requires Valid()
      modifies cache
      ensures cache[..] == old(Holding(s, b, score))
    {
      cache[s.key(b.ident) % cache.Length] := Some(CacheEntry(s.key(b.ident), Normalised(b.side, score)));
    }

    method Probe(s: Scoring, b: View) returns (score: Option<int>)
      requires Valid()
      modifies this
      ensures score == Held(s, b)
    {
      statProbes := statProbes + 1;
      var slot := cache[s.key(b.ident) % cache.Length];
      if slot == None || slot.value.hashkey != s.key(b.ident) {
        return None;
      }
      statHits := statHits + 1;
      return Some(Normalised(b.side, slot.value.score));
    }
  }

  ghost predicate EntryTrue(s: Scoring, e: CacheEntry) {
    forall b: View | s.key(b.ident) == e.hashkey && PhaseOf(s, b.ident) != Opening :: e.score == Normalised(b.side, Full(s, b))
  }

  // What is stored is what white would find.
  lemma NormalisedIsWhites(s: Scoring, b: View)
    ensures Normalised(b.side, Full(s, b)) == Full(s, b.(side := White))
  {
    FullOdd(s, b);
    match b.side { case White => case Black => }
  }

  lemma PastForgotten(s: Scoring, b: View, c: View)
    requires b.ident == c.ident && (PhaseOf(s, b.ident) != Opening || b.past == c.past)
    ensures Normalised(b.side, Full(s, b)) == Normalised(c.side, Full(s, c))
  {
    NormalisedIsWhites(s, b);
    NormalisedIsWhites(s, c);
  }

  lemma PutIsTrue(s: Scoring, b: View)
    requires KeysIdentifyBoards(s)
    ensures EntryTrue(s, CacheEntry(s.key(b.ident), Normalised(b.side, Full(s, b))))
  {
    forall c: View | s.key(c.ident) == s.key(b.ident) && PhaseOf(s, c.ident) != Opening
      ensures Normalised(b.side, Full(s, b)) == Normalised(c.side, Full(s, c))
    {
      PastForgotten(s, b, c);
    }
  }

  // The cache takes boards that differ only in their past for one. For every way to score them it is right
  // to do so if and only if they are not in the opening, or have the same past.
  lemma PastForgottenIff(mat: (int, Color) -> nat, b: View, c: View)
    requires b.ident == c.ident
    ensures (forall s: Scoring | s.material == mat :: Normalised(b.side, Full(s, b)) == Normalised(c.side, Full(s, c)))
       <==> mat(b.ident, White) + mat(b.ident, Black) <= 7000 || b.past == c.past
  {
    if mat(b.ident, White) + mat(b.ident, Black) <= 7000 || b.past == c.past {
      forall s: Scoring | s.material == mat ensures Normalised(b.side, Full(s, b)) == Normalised(c.side, Full(s, c)) {
        PastForgotten(s, b, c);
      }
    } else {
      var s := Scoring(mat, [], (_, past, side) => if side == White && past == c.past then 32 else 0, [], KeyOfIdent);
      NormalisedIsWhites(s, b);
      NormalisedIsWhites(s, c);
    }
  }

  // ---- The evaluator ----------------------------------------------------------------------

  class Evaluator {
    const s: Scoring
    const evalcache: EvaluationCache?
    var statEvals: nat
    var statEvalsPhase1: nat
    var statEvalsPhase2: nat

    constructor (s: Scoring, evalcache: EvaluationCache?)
      ensures this.s == s && this.evalcache == evalcache
    {
      this.s, this.evalcache := s, evalcache;
      statEvals, statEvalsPhase1, statEvalsPhase2 := 0, 0, 0;
    }

    // The loop over a table of scoring functions.
    method CallPlugins(list: seq<(int, Color) -> int>, ident: int, side: Color) returns (score: int)
      ensures score == Sum(list, ident, side)
    {
      score := 0;
      for i := 0 to |list|
        invariant score + Sum(list[i..], ident, side) == Sum(list, ident, side)
      {
        score := score + list[i](ident, side) - list[i](ident, side.Other());
        assert list[i..][1..] == list[i + 1..];
      }
    }

    // The two phases, with the cutoff between them.
    method Phases(b: View) returns (score: int)
      modifies `statEvalsPhase1, `statEvalsPhase2
      ensures score == Full(s, b)
    {
      score := Balance(s, b);
      statEvalsPhase1 := statEvalsPhase1 + 1;
      var score1 := CallPlugins(s.plugins, b.ident, b.side);
      score1 := score1 + Devel(s, b, b.side) - Devel(s, b, b.side.Other());
      score := score + score1;
      if score1 > EVAL_CUTOFF_PHASE1 || score1 < -EVAL_CUTOFF_PHASE1 {
        return;
      }
      statEvalsPhase2 := statEvalsPhase2 + 1;
      var score2 := CallPlugins(s.plugins2, b.ident, b.side);
      score := score + score2;
    }

    // Evaluator::eval. A score that the cache holds is returned as it is, and the full evaluation is stored
    // where the cache held none. So outside the opening the score is that of an evaluation without a cache,
    // and a true cache stays true whatever the phase.
    method Eval(b: View, alpha: int, beta: int) returns (score: int)
      requires evalcache != null ==> evalcache.Valid()
      modifies this, evalcache, if evalcache == null then {} else {evalcache.cache}
      ensures evalcache == null || CutOff(s, b, alpha, beta) ==> score == Uncached(s, b, alpha, beta)
      ensures evalcache != null && CutOff(s, b, alpha, beta) ==> evalcache.cache[..] == old(evalcache.cache[..])
      ensures evalcache != null && !CutOff(s, b, alpha, beta) ==>
                match old(evalcache.Held(s, b))
                case Some(held) => score == held && evalcache.cache[..] == old(evalcache.cache[..])
                case None => score == Full(s, b) && evalcache.cache[..] == old(evalcache.Holding(s, b, Full(s, b)))
      ensures evalcache != null && KeysIdentifyBoards(s) && old(evalcache.True(s)) ==>
                evalcache.True(s) && (PhaseOf(s, b.ident) != Opening ==> score == Uncached(s, b, alpha, beta))
    {
      statEvals := statEvals + 1;
      score := Balance(s, b);
      if score >= beta + EVAL_CUTOFF_MATERIAL || score <= alpha - EVAL_CUTOFF_MATERIAL {
        return;
      }
      if evalcache != null {
        var hit := evalcache.Probe(s, b);
        if hit.Some? {
          return hit.value;
        }
      }
      score := Phases(b);
      if evalcache != null {
        if KeysIdentifyBoards(s) { PutIsTrue(s, b); }
        evalcache.Put(s, b, score);
        ghost var slots := evalcache.cache[..];
        assert forall i :: 0 <= i < |slots| ==> evalcache.cache[i] == slots[i];
      }
    }

    // Two boards that share a key, one after the other, with nothing yet in their slot: the second
    // is given the first one's score, which is right if and only if both are worth the same to white.
    method EvalTwice(b: View, c: View, alpha: int, beta: int) returns (first: int, second: int)
      requires evalcache != null && evalcache.Valid() && b.ident == c.ident && evalcache.Held(s, b) == None
      requires !CutOff(s, b, alpha, beta) && !CutOff(s, c, alpha, beta)
      modifies this, evalcache, evalcache.cache
      ensures first == Uncached(s, b, alpha, beta) && Normalised(c.side, second) == Normalised(b.side, first)
      ensures second == Uncached(s, c, alpha, beta) <==> Normalised(b.side, Full(s, b)) == Normalised(c.side, Full(s, c))
    {
      first := Eval(b, alpha, beta);
      ghost var k := s.key(b.ident) % evalcache.cache.Length;
      assert evalcache.cache[k] == evalcache.cache[..][k];
      second := Eval(c, alpha, beta);
    }

    // Over every run of evaluations outside the opening, a cache that starts true changes nothing.
    method EvalAll(jobs: seq<(View, int, int)>) returns (scores: seq<int>)
      requires evalcache != null ==> KeysIdentifyBoards(s) && evalcache.Valid() && evalcache.True(s)
      modifies this, evalcache, if evalcache == null then {} else {evalcache.cache}
      ensures |scores| == |jobs|
      ensures forall i :: 0 <= i < |jobs| && PhaseOf(s, jobs[i].0.ident) != Opening ==>
                scores[i] == Uncached(s, jobs[i].0, jobs[i].1, jobs[i].2)
    {
      scores := [];
      for k := 0 to |jobs|
        invariant |scores| == k && (evalcache != null ==> evalcache.True(s))
        invariant forall i :: 0 <= i < k && PhaseOf(s, jobs[i].0.ident) != Opening ==>
                    scores[i] == Uncached(s, jobs[i].0, jobs[i].1, jobs[i].2)
      {
        var score := Eval(jobs[k].0, jobs[k].1, jobs[k].2);
        scores := scores + [score];
      }
    }
  }

  // ---- A score from another past ----------------------------------------------------------

  // Which men have moved is all that is seen of the counts.
  lemma {:induction false} SameMoved(men: Placement, a: Counts, b: Counts, side: Color, n: nat)
    requires n <= SQUARES && forall i :: 0 <= i < n ==> (a[i] == 0 <==> b[i] == 0)
    ensures MenDevel(men, a, side, n) == MenDevel(men, b, side, n)
  {
    if n > 0 { SameMoved(men, a, b, side, n - 1); }
  }

  // Any scoring functions in the first phase, with score_devel, and none in the second.
  function DevelScoring(men: Placement, rights: set<Right>, material: (int, Color) -> nat, plugins: seq<(int,
                        Color) -> int>): Scoring {
    Scoring(material, plugins, (_, past, side) => ScoreDevel(men, rights, past, side), [], KeyOfIdent)
  }

  // Any men in the opening, once before white has castled and once with the same men moved after it has.
  // The second score is the first one's, and lacks what castling is worth.
  method CastledRun(men: Placement, rights: set<Right>, material: (int, Color) -> nat, plugins: seq<(int, Color) -> int>,
                    was: Counts, now: Counts, alpha: int, beta: int)
    returns (evaluator: Evaluator, first: int, second: int)
    requires material(0, White) + material(0, Black) > 7000 && forall i :: 0 <= i < SQUARES ==> (was[i] == 0 <==> now[i] == 0)
    requires !CutOff(DevelScoring(men, rights, material, plugins), View(0, Past({}, was), White), alpha, beta)
    ensures fresh(evaluator) && evaluator.s == DevelScoring(men, rights, material, plugins) && KeysIdentifyBoards(evaluator.s)
    ensures first == Uncached(evaluator.s, View(0, Past({}, was), White), alpha, beta) && second == first
    ensures second == Uncached(evaluator.s, View(0, Past({White}, now), White), alpha, beta)
                      - if MayStillCastle(rights, White) then 16 else 32
  {
    var cache := new EvaluationCache(1);
    evaluator := new Evaluator(DevelScoring(men, rights, material, plugins), cache);
    SameMoved(men, was, now, White, SQUARES);
    SameMoved(men, was, now, Black, SQUARES);
    first, second := evaluator.EvalTwice(View(0, Past({}, was), White), View(0, Past({White}, now), White), alpha, beta);
  }
}
