// The game as the search sees it, and the value the search has to find.
module GameTree {
  import opened Basic
  import opened Moves

  const INFTY: int := 100000
  const MATE: int := 90000
  const DRAW: int := 0
  const MAXPLY: nat := 1024
  const MAXDEPTH: nat := 900

  // A position of the game tree: a board together with the moves that led to it.
  type Pos = int

  // What the search asks of a position. Moves are listed as the generators produce them: all by
  // generate_moves, moves by generate_escapes in check and generate_moves otherwise, tactical by
  // generate_escapes in check and generate_captures otherwise. A listed move may leave its side in
  // check; legal tells whether the board after a move is legal.
  datatype Game = Game(
    all: Pos -> seq<Move>,
    moves: Pos -> seq<Move>,
    tactical: Pos -> seq<Move>,
    child: (Pos, Move) -> Pos,
    legal: Pos -> bool,
    inCheck: Pos -> bool,
    draw: Pos -> Option<int>,
    stand: Pos -> int,
    eval: (Pos, int, int) -> int,
    material: Pos -> int,
    endgame: Pos -> bool,
    key: Pos -> nat,
    valid: (Pos, Move) -> bool)

  function Max(a: int, b: int): int {
    if a < b then b else a
  }

  // bound_score.
  function Clamp(score: int, alpha: int, beta: int): (r: int)
    ensures alpha <= beta ==> alpha <= r <= beta
    ensures alpha <= score <= beta ==> r == score
  {
    if score > beta then beta else if score < alpha then alpha else score
  }

  // Evaluation with a window agrees with the static value as far as the window can tell.
  ghost predicate EvalOk(g: Game) {
    forall p: Pos, alpha: int, beta: int | alpha < beta ::
      Clamp(g.eval(p, alpha, beta), alpha, beta) == Clamp(g.stand(p), alpha, beta)
  }

  ghost predicate Window(low: int, beta: int) {
    -INFTY <= low < beta <= INFTY
  }

  // ---- Plain negamax ----------------------------------------------------------------------

  function Depth(depth: int): nat {
    if depth < 0 then 0 else depth
  }

  predicate LegalMove(g: Game, p: Pos, m: Move) {
    g.legal(g.child(p, m))
  }

  // The score of a side without legal moves.
  function MateScore(g: Game, p: Pos, ply: nat): int {
    if g.inCheck(p) then -INFTY + ply else DRAW
  }

  function Join(a: Option<int>, b: int): Option<int> {
    Some(if a.None? then b else Max(a.value, b))
  }

  // The best score over the legal moves of a list, each searched to the given depth.
  function Best(g: Game, p: Pos, list: seq<Move>, depth: int, ply: nat): Option<int>
    requires ply + 1 + Depth(depth) < MAXPLY
    decreases Depth(depth), MAXPLY - ply, 0, |list|
  {
    if list == [] then None
    else
      var rest := Best(g, p, list[1..], depth, ply);
      if LegalMove(g, p, list[0]) then Join(rest, -Value(g, g.child(p, list[0]), depth, ply + 1)) else rest
  }

  // The quiescence value: standing pat or the best tactical move; at the last ply standing pat only.
  function Quiet(g: Game, p: Pos, ply: nat): int
    requires ply < MAXPLY
    decreases 0, MAXPLY - ply, 1
  {
    if ply == MAXPLY - 1 then g.stand(p)
    else
      match Best(g, p, g.tactical(p), 0, ply)
      case Some(b) => Max(g.stand(p), b)
      case None => if g.inCheck(p) then Max(g.stand(p), -INFTY + ply) else g.stand(p)
  }

  // The value of a position searched to a depth: quiescence at depth 0, draws by rule, mate and
  // stalemate, and otherwise the best of all legal moves.
  function Value(g: Game, p: Pos, depth: int, ply: nat): int
    requires ply + Depth(depth) < MAXPLY
    decreases Depth(depth), MAXPLY - ply, 2
  {
    if depth <= 0 then Quiet(g, p, ply)
    else if g.draw(p).Some? then g.draw(p).value
    else
      match Best(g, p, g.moves(p), depth - 1, ply)
      case Some(b) => b
      case None => MateScore(g, p, ply)
  }

  function ChildScore(g: Game, p: Pos, m: Move, depth: int, ply: nat): int
    requires ply + 1 + Depth(depth) < MAXPLY
  {
    -Value(g, g.child(p, m), depth, ply + 1)
  }

  lemma {:induction false} BestIsUpperBound(g: Game, p: Pos, list: seq<Move>, depth: int, ply: nat, m: Move)
    requires ply + 1 + Depth(depth) < MAXPLY
    requires m in list && LegalMove(g, p, m)
    ensures Best(g, p, list, depth, ply).Some? && ChildScore(g, p, m, depth, ply) <= Best(g, p, list, depth, ply).value
    decreases |list|
  {
    if m != list[0] {
      BestIsUpperBound(g, p, list[1..], depth, ply, m);
    }
  }

  lemma {:induction false} BestIsAttained(g: Game, p: Pos, list: seq<Move>, depth: int, ply: nat) returns (m: Move)
    requires ply + 1 + Depth(depth) < MAXPLY
    requires Best(g, p, list, depth, ply).Some?
    ensures m in list && LegalMove(g, p, m) && ChildScore(g, p, m, depth, ply) == Best(g, p, list, depth, ply).value
    decreases |list|
  {
    var rest := Best(g, p, list[1..], depth, ply);
    if LegalMove(g, p, list[0]) && (rest.None? || rest.value <= ChildScore(g, p, list[0], depth, ply)) {
      m := list[0];
    } else {
      m := BestIsAttained(g, p, list[1..], depth, ply);
    }
  }

  lemma SameMoves(list: seq<Move>, all: seq<Move>)
    requires multiset(list) == multiset(all)
    ensures forall m :: m in list <==> m in all
  {
    forall m ensures m in list <==> m in all {
      assert m in list <==> m in multiset(list);
      assert m in all <==> m in multiset(all);
    }
  }

  lemma BestAtMost(g: Game, p: Pos, list: seq<Move>, all: seq<Move>, depth: int, ply: nat)
    requires ply + 1 + Depth(depth) < MAXPLY && (forall m :: m in list && LegalMove(g, p, m) ==> m in all)
    requires Best(g, p, list, depth, ply).Some?
    ensures Best(g, p, all, depth, ply).Some?
    ensures Best(g, p, list, depth, ply).value <= Best(g, p, all, depth, ply).value
  {
    var m := BestIsAttained(g, p, list, depth, ply);
    BestIsUpperBound(g, p, all, depth, ply, m);
  }

  // The best score depends on nothing but which legal moves there are.
  lemma BestOfSameLegal(g: Game, p: Pos, list: seq<Move>, all: seq<Move>, depth: int, ply: nat)
    requires ply + 1 + Depth(depth) < MAXPLY && (forall m :: LegalMove(g, p, m) ==> (m in list <==> m in all))
    ensures Best(g, p, list, depth, ply) == Best(g, p, all, depth, ply)
  {
    if Best(g, p, list, depth, ply).Some? { BestAtMost(g, p, list, all, depth, ply); }
    if Best(g, p, all, depth, ply).Some? { BestAtMost(g, p, all, list, depth, ply); }
  }

  lemma BestOfPermutation(g: Game, p: Pos, list: seq<Move>, all: seq<Move>, depth: int, ply: nat)
    requires ply + 1 + Depth(depth) < MAXPLY && multiset(list) == multiset(all)
    ensures Best(g, p, list, depth, ply) == Best(g, p, all, depth, ply)
  {
    SameMoves(list, all);
    BestOfSameLegal(g, p, list, all, depth, ply);
  }

  lemma {:induction false} BestOfOneMore(g: Game, p: Pos, list: seq<Move>, m: Move, depth: int, ply: nat)
    requires ply + 1 + Depth(depth) < MAXPLY
    ensures Best(g, p, list + [m], depth, ply)
         == if LegalMove(g, p, m) then Join(Best(g, p, list, depth, ply), ChildScore(g, p, m, depth, ply))
            else Best(g, p, list, depth, ply)
    decreases |list|
  {
    if list == [] {
      assert (list + [m])[1..] == [];
    } else {
      assert (list + [m])[1..] == list[1..] + [m];
      BestOfOneMore(g, p, list[1..], m, depth, ply);
    }
  }

  // ---- The move loop of an alpha-beta search ----------------------------------------------

  // What the first n moves of a list raise alpha to.
  ghost function Raised(g: Game, p: Pos, list: seq<Move>, n: nat, depth: int, ply: nat, floor: int): int
    requires ply + 1 + Depth(depth) < MAXPLY && n <= |list|
  {
    match Best(g, p, list[..n], depth, ply)
    case None => floor
    case Some(b) => Max(floor, b)
  }

  ghost predicate NoneLegal(g: Game, p: Pos, list: seq<Move>, n: nat, depth: int, ply: nat)
    requires ply + 1 + Depth(depth) < MAXPLY && n <= |list|
  {
    Best(g, p, list[..n], depth, ply) == None
  }

  lemma NothingSearched(g: Game, p: Pos, list: seq<Move>, depth: int, ply: nat, floor: int)
    requires ply + 1 + Depth(depth) < MAXPLY
    ensures Raised(g, p, list, 0, depth, ply, floor) == floor && NoneLegal(g, p, list, 0, depth, ply)
  {}

  // One more move of the list has been searched in the window, or skipped as illegal.
  lemma SearchedOneMore(g: Game, p: Pos, list: seq<Move>, n: nat, depth: int, ply: nat, floor: int, alpha: int, beta: int,
                        score: int)
    requires ply + 1 + Depth(depth) < MAXPLY && n < |list| && alpha < beta
    requires alpha == Raised(g, p, list, n, depth, ply, floor)
    requires LegalMove(g, p, list[n]) ==>
               Clamp(score, alpha, beta) == Clamp(ChildScore(g, p, list[n], depth, ply), alpha, beta)
    ensures !LegalMove(g, p, list[n]) ==> alpha == Raised(g, p, list, n + 1, depth, ply, floor)
    ensures LegalMove(g, p, list[n]) && score < beta ==> Max(alpha, score) == Raised(g, p, list, n + 1, depth, ply, floor)
  {
    assert list[..n + 1] == list[..n] + [list[n]];
    BestOfOneMore(g, p, list[..n], list[n], depth, ply);
  }

  lemma LegalOneMore(g: Game, p: Pos, list: seq<Move>, n: nat, depth: int, ply: nat)
    requires ply + 1 + Depth(depth) < MAXPLY && n < |list|
    ensures NoneLegal(g, p, list, n + 1, depth, ply) <==> NoneLegal(g, p, list, n, depth, ply) && !LegalMove(g, p, list[n])
  {
    assert list[..n + 1] == list[..n] + [list[n]];
    BestOfOneMore(g, p, list[..n], list[n], depth, ply);
  }

  // A cutoff: the best of all moves is at least beta.
  lemma SearchedToCut(g: Game, p: Pos, list: seq<Move>, all: seq<Move>, n: nat, depth: int, ply: nat, alpha: int, beta: int,
                      score: int)
    requires ply + 1 + Depth(depth) < MAXPLY && n < |list| && alpha < beta <= score && multiset(list) == multiset(all)
    requires LegalMove(g, p, list[n]) && Clamp(score, alpha, beta) == Clamp(ChildScore(g, p, list[n], depth, ply), alpha, beta)
    ensures Best(g, p, all, depth, ply).Some? && Best(g, p, all, depth, ply).value >= beta
  {
    BestIsUpperBound(g, p, list, depth, ply, list[n]);
    BestOfPermutation(g, p, list, all, depth, ply);
  }

  lemma SearchedToEnd(g: Game, p: Pos, list: seq<Move>, all: seq<Move>, depth: int, ply: nat)
    requires ply + 1 + Depth(depth) < MAXPLY && multiset(list) == multiset(all)
    ensures Best(g, p, list[..|list|], depth, ply) == Best(g, p, all, depth, ply)
  {
    assert list[..|list|] == list;
    BestOfPermutation(g, p, list, all, depth, ply);
  }

  // The result of a quiescence loop that was not cut off.
  lemma QuietAtEnd(g: Game, p: Pos, list: seq<Move>, ply: nat, stand: int, low: int, alpha: int, beta: int)
    requires ply < MAXPLY - 1 && low < beta && alpha < beta && multiset(list) == multiset(g.tactical(p))
    requires Clamp(stand, low, beta) == Clamp(g.stand(p), low, beta) && stand < beta
    requires alpha == Raised(g, p, list, |list|, 0, ply, Max(low, stand))
    ensures Clamp(if NoneLegal(g, p, list, |list|, 0, ply) && g.inCheck(p) then Clamp(-INFTY + ply, alpha, beta) else alpha,
                  low, beta)
         == Clamp(Quiet(g, p, ply), low, beta)
  {
    SearchedToEnd(g, p, list, g.tactical(p), 0, ply);
  }

  lemma QuietAtCut(g: Game, p: Pos, list: seq<Move>, n: nat, ply: nat, alpha: int, beta: int, score: int)
    requires ply < MAXPLY - 1 && n < |list| && multiset(list) == multiset(g.tactical(p)) && alpha < beta <= score
    requires LegalMove(g, p, list[n]) && Clamp(score, alpha, beta) == Clamp(ChildScore(g, p, list[n], 0, ply), alpha, beta)
    ensures Quiet(g, p, ply) >= beta
  {
    SearchedToCut(g, p, list, g.tactical(p), n, 0, ply, alpha, beta, score);
  }

  lemma ClampNegated(value: int, alpha: int, beta: int)
    requires alpha < beta
    ensures -Clamp(-value, -beta, -alpha) == Clamp(value, alpha, beta)
  {}

  // The move recorded as best has exactly the score that alpha has been raised to.
  ghost predicate BestAttains(g: Game, p: Pos, best: Option<Move>, depth: int, ply: nat, alpha: int)
    requires ply + 1 + Depth(depth) < MAXPLY
  {
    best.Some? && LegalMove(g, p, best.value) && ChildScore(g, p, best.value, depth, ply) == alpha
  }

  // How razoring and extended futility pruning shorten the search of a node, and whether futility pruning
  // skips moves.
  datatype Short = Short(depth: int, fprune: bool, razored: bool, extended: bool)

  function Shortened(material: int, depth: int, low: int): (r: Short)
    ensures r.depth == depth - (if r.razored then 1 else 0) - (if r.extended then 1 else 0)
    ensures depth > 0 ==> r.depth > 0
    ensures low < material + 300 ==> r == Short(depth, false, false, false)
  {
    var razored := depth == 3 && material + 900 <= low;
    var d := if razored then depth - 1 else depth;
    if d == 1 && material + 300 <= low then Short(d, true, razored, false)
    else if d == 2 && material + 500 <= low then Short(d - 1, true, razored, true)
    else Short(d, false, razored, false)
  }

  // A game in which a search of the window, and every search below it, meets none of the pruning
  // guards: no null move is tried, and material is never 300 below a window.
  ghost predicate GuardsOff(g: Game, low: int, beta: int) {
    forall p: Pos :: g.endgame(p) && g.material(p) + 300 >= Max(beta, -low)
  }

  lemma GuardsOffAt(g: Game, low: int, beta: int, p: Pos)
    ensures GuardsOff(g, low, beta) ==> g.endgame(p) && g.material(p) + 300 >= Max(beta, -low)
  {}

  lemma GuardsOffWithin(g: Game, low: int, beta: int, alpha: int, high: int)
    requires Max(high, -alpha) <= Max(beta, -low)
    ensures GuardsOff(g, low, beta) ==> GuardsOff(g, alpha, high)
  {
    if GuardsOff(g, low, beta) {
      forall p: Pos ensures g.endgame(p) && g.material(p) + 300 >= Max(high, -alpha) {
        GuardsOffAt(g, low, beta, p);
      }
    }
  }

  // Where other turns a position over to the opponent, material changes sign. Such a game has its guards
  // off exactly if it is an ending in which material and window together stay within 300.
  lemma GuardsOffIff(g: Game, other: Pos -> Pos, low: int, beta: int)
    requires forall p: Pos :: g.material(other(p)) == -g.material(p)
    ensures GuardsOff(g, low, beta) <==>
            forall p: Pos :: g.endgame(p) && -300 <= g.material(p) - Max(beta, -low) && g.material(p) + Max(beta, -low) <= 300
  {
    if GuardsOff(g, low, beta) {
      forall p: Pos
        ensures g.endgame(p) && -300 <= g.material(p) - Max(beta, -low) && g.material(p) + Max(beta, -low) <= 300
      {
        GuardsOffAt(g, low, beta, p);
        GuardsOffAt(g, low, beta, other(p));
      }
    }
  }

  // What this comes to. At depth 3 a side that is 900 behind the window is searched two plies less deep, and like one
  // that is 500 behind at depth 2 or 300 at depth 1 only with moves that may make up for it.
  lemma ShortenedTo(material: int, depth: int, low: int)
    requires depth > 0
    ensures var behind, r := low - material, Shortened(material, depth, low);
            && (r.depth < depth || r.fprune <==>
                  (depth == 3 && behind >= 900) || (depth == 2 && behind >= 500) || (depth == 1 && behind >= 300))
            && (r.depth < depth || r.fprune ==> r.depth == 1 && r.fprune)
  {}

  // ---- The root ---------------------------------------------------------------------------

  // The value of the best legal move of the root, searched to a depth. No draw rule is applied to
  // the root itself.
  ghost function RootValue(g: Game, p: Pos, depth: int): int
    requires 0 < depth <= MAXDEPTH
  {
    match Best(g, p, g.all(p), depth - 1, 0)
    case Some(b) => b
    case None => MateScore(g, p, 0)
  }

  // Static values and draw scores leave room for the mate scores of every ply.
  ghost predicate Sane(g: Game) {
    && (forall p: Pos :: -INFTY + MAXPLY < g.stand(p) < INFTY - MAXPLY)
    && (forall p: Pos :: g.draw(p).Some? ==> -INFTY + MAXPLY < g.draw(p).value < INFTY - MAXPLY)
  }

  lemma {:induction false} ValueBounds(g: Game, p: Pos, depth: int, ply: nat)
    requires Sane(g) && ply + Depth(depth) < MAXPLY
    ensures -INFTY + ply <= Value(g, p, depth, ply) < INFTY - ply
    decreases Depth(depth), MAXPLY - ply
  {
    assert -INFTY + MAXPLY < g.stand(p) < INFTY - MAXPLY;
    if depth > 0 {
      var b := Best(g, p, g.moves(p), depth - 1, ply);
      if b.Some? {
        var m := BestIsAttained(g, p, g.moves(p), depth - 1, ply);
        ValueBounds(g, g.child(p, m), depth - 1, ply + 1);
      }
    } else if ply < MAXPLY - 1 {
      var b := Best(g, p, g.tactical(p), 0, ply);
      if b.Some? {
        var m := BestIsAttained(g, p, g.tactical(p), 0, ply);
        ValueBounds(g, g.child(p, m), 0, ply + 1);
      }
    }
  }

  // In every position both generators list the same legal moves.
  ghost predicate GeneratorsAgree(g: Game) {
    forall p: Pos, m: Move | LegalMove(g, p, m) :: m in g.all(p) <==> m in g.moves(p)
  }

  // Where the general generator and the check-escape generator list the same legal moves, the root
  // value is the value of the root as an inner node.
  lemma RootValueIsValue(g: Game, p: Pos, depth: int)
    requires 0 < depth <= MAXDEPTH && g.draw(p) == None
    requires forall m :: LegalMove(g, p, m) ==> (m in g.all(p) <==> m in g.moves(p))
    ensures RootValue(g, p, depth) == Value(g, p, depth, 0)
  {
    BestOfSameLegal(g, p, g.all(p), g.moves(p), depth - 1, 0);
  }

  // The list holds the legal moves, each at least once.
  ghost predicate ListsLegal(g: Game, p: Pos, list: seq<Move>) {
    forall m :: m in list <==> m in g.all(p) && LegalMove(g, p, m)
  }

  lemma ListsLegalPermuted(g: Game, p: Pos, list: seq<Move>, other: seq<Move>)
    requires ListsLegal(g, p, list) && multiset(list) == multiset(other)
    ensures ListsLegal(g, p, other)
  {
    SameMoves(list, other);
  }

  // ---- Iterative deepening ----------------------------------------------------------------

  const WINDOW: int := 50

  // What an accepted score tells about the true value: all of it, or which side is being mated.
  predicate Verdict(score: int, value: int) {
    if score >= MATE then value >= MATE
    else if score <= -MATE then value <= -MATE
    else score == value
  }

  predicate FailsLow(score: int, low: int) {
    score <= low && score > -MATE
  }

  predicate FailsHigh(score: int, beta: int) {
    score >= beta && score < MATE
  }
}
