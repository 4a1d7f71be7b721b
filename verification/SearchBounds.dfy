// What a search shows of a position: bounds that are proved by a tree of moves and, with a transposition table,
// of positions with the same key.
module SearchBounds {
  import opened Basic
  import opened Moves
  import opened GameTree
  import opened HashTables

  // The moves of a node searched to a depth.
  function Choices(g: Game, p: Pos, depth: nat): seq<Move> {
    if depth == 0 then g.tactical(p) else g.moves(p)
  }

  function Below(depth: nat): nat {
    if depth == 0 then 0 else depth - 1
  }

  // The end of a line: the ply cap, or a draw by rule.
  predicate Rests(g: Game, p: Pos, depth: nat, ply: nat) {
    if depth == 0 then ply >= MAXPLY - 1 else g.draw(p).Some?
  }

  ghost predicate HasLegal(g: Game, p: Pos, depth: nat) {
    exists m :: m in Choices(g, p, depth) && LegalMove(g, p, m)
  }

  // No move is left, and that ends the game.
  ghost predicate Over(g: Game, p: Pos, depth: nat) {
    (depth > 0 || g.inCheck(p)) && !HasLegal(g, p, depth)
  }

  // A result for q, searched d plies deep at ply i, may stand for p.
  ghost predicate MayStandFor(g: Game, q: Pos, d: nat, i: nat, p: Pos, depth: nat) {
    g.key(q) == g.key(p) && d >= depth && i + d < MAXPLY
  }

  // Shown by a tree of height n: searched at least depth plies deep, the position is worth at least s, by
  // standing pat at depth 0, by a draw, by a legal move, by the score of mate and stalemate, or, if results are
  // shared, because a position with the same key is, searched no less deep.
  ghost predicate AtLeastBy(n: nat, g: Game, shared: bool, p: Pos, depth: nat, ply: nat, s: int)
    decreases n, 0
  {
    || (depth == 0 && s <= g.stand(p))
    || (depth > 0 && g.draw(p).Some? && s <= g.draw(p).value)
    || (!Rests(g, p, depth, ply) && Over(g, p, depth) && s <= MateScore(g, p, ply))
    || (n > 0 && !Rests(g, p, depth, ply) && LeastByMove(n - 1, g, shared, p, depth, ply, s))
    || (n > 0 && shared && s <= MATE && LeastByKey(n - 1, g, p, depth, s))
  }

  ghost predicate LeastByMove(n: nat, g: Game, shared: bool, p: Pos, depth: nat, ply: nat, s: int)
    decreases n, 1
  {
    exists m :: m in Choices(g, p, depth) && LegalMove(g, p, m) && AtMostBy(n, g, shared, g.child(p, m), Below(depth), ply + 1, -s)
  }

  ghost predicate LeastByKey(n: nat, g: Game, p: Pos, depth: nat, s: int)
    decreases n, 1
  {
    exists q: Pos, d: nat, i: nat :: MayStandFor(g, q, d, i, p, depth) && AtLeastBy(n, g, true, q, d, i, s)
  }

  // It is worth at most s: standing pat and a draw are, and so is every legal move.
  ghost predicate AtMostBy(n: nat, g: Game, shared: bool, p: Pos, depth: nat, ply: nat, s: int)
    decreases n, 0
  {
    || (&& (depth == 0 ==> g.stand(p) <= s)
        && (depth > 0 && g.draw(p).Some? ==> g.draw(p).value <= s)
        && (!Rests(g, p, depth, ply) && Over(g, p, depth) ==> MateScore(g, p, ply) <= s)
        && (!Rests(g, p, depth, ply) && HasLegal(g, p, depth) ==> n > 0 && MostByMoves(n - 1, g, shared, p, depth, ply, s)))
    || (n > 0 && shared && s >= -MATE && MostByKey(n - 1, g, p, depth, s))
  }

  ghost predicate MostByMoves(n: nat, g: Game, shared: bool, p: Pos, depth: nat, ply: nat, s: int)
    decreases n, 1
  {
    forall m :: m in Choices(g, p, depth) && LegalMove(g, p, m) ==> AtLeastBy(n, g, shared, g.child(p, m), Below(depth), ply + 1, -s)
  }

  ghost predicate MostByKey(n: nat, g: Game, p: Pos, depth: nat, s: int)
    decreases n, 1
  {
    exists q: Pos, d: nat, i: nat :: MayStandFor(g, q, d, i, p, depth) && AtMostBy(n, g, true, q, d, i, s)
  }

  ghost predicate LeastShown(g: Game, shared: bool, p: Pos, depth: nat, ply: nat, s: int) {
    exists n: nat :: AtLeastBy(n, g, shared, p, depth, ply, s)
  }

  ghost predicate MostShown(g: Game, shared: bool, p: Pos, depth: nat, ply: nat, s: int) {
    exists n: nat :: AtMostBy(n, g, shared, p, depth, ply, s)
  }

  // The position is worth at least every score up to s.
  ghost predicate AtLeast(g: Game, shared: bool, p: Pos, depth: nat, ply: nat, s: int) {
    forall t: int | t <= s :: LeastShown(g, shared, p, depth, ply, t)
  }

  // It is worth at most every score from s on.
  ghost predicate AtMost(g: Game, shared: bool, p: Pos, depth: nat, ply: nat, s: int) {
    forall t: int | t >= s :: MostShown(g, shared, p, depth, ply, t)
  }

  // ---- Weaker bounds and higher trees -----------------------------------------------------

  lemma {:induction false} LessBy(n: nat, k: nat, g: Game, shared: bool, p: Pos, depth: nat, ply: nat, s: int, t: int)
    requires AtLeastBy(n, g, shared, p, depth, ply, s) && n <= k && t <= s
    ensures AtLeastBy(k, g, shared, p, depth, ply, t)
    decreases n
  {
    if n > 0 && LeastByMove(n - 1, g, shared, p, depth, ply, s) {
      var m :| m in Choices(g, p, depth) && LegalMove(g, p, m)
               && AtMostBy(n - 1, g, shared, g.child(p, m), Below(depth), ply + 1, -s);
      MoreBy(n - 1, k - 1, g, shared, g.child(p, m), Below(depth), ply + 1, -s, -t);
      assert LeastByMove(k - 1, g, shared, p, depth, ply, t);
    }
    if n > 0 && shared && LeastByKey(n - 1, g, p, depth, s) {
      var q: Pos, d: nat, i: nat :| MayStandFor(g, q, d, i, p, depth) && AtLeastBy(n - 1, g, true, q, d, i, s);
      LessBy(n - 1, k - 1, g, true, q, d, i, s, t);
      assert LeastByKey(k - 1, g, p, depth, t);
    }
  }

  lemma {:induction false} MoreBy(n: nat, k: nat, g: Game, shared: bool, p: Pos, depth: nat, ply: nat, s: int, t: int)
    requires AtMostBy(n, g, shared, p, depth, ply, s) && n <= k && s <= t
    ensures AtMostBy(k, g, shared, p, depth, ply, t)
    decreases n
  {
    if n > 0 && MostByMoves(n - 1, g, shared, p, depth, ply, s) {
      forall m | m in Choices(g, p, depth) && LegalMove(g, p, m)
        ensures AtLeastBy(k - 1, g, shared, g.child(p, m), Below(depth), ply + 1, -t)
      {
        LessBy(n - 1, k - 1, g, shared, g.child(p, m), Below(depth), ply + 1, -s, -t);
      }
      assert MostByMoves(k - 1, g, shared, p, depth, ply, t);
    }
    if n > 0 && shared && MostByKey(n - 1, g, p, depth, s) {
      var q: Pos, d: nat, i: nat :| MayStandFor(g, q, d, i, p, depth) && AtMostBy(n - 1, g, true, q, d, i, s);
      MoreBy(n - 1, k - 1, g, true, q, d, i, s, t);
      assert MostByKey(k - 1, g, p, depth, t);
    }
  }

  lemma LeastFrom(n: nat, g: Game, shared: bool, p: Pos, depth: nat, ply: nat, s: int)
    requires AtLeastBy(n, g, shared, p, depth, ply, s)
    ensures AtLeast(g, shared, p, depth, ply, s)
  {
    forall t: int | t <= s ensures LeastShown(g, shared, p, depth, ply, t) {
      LessBy(n, n, g, shared, p, depth, ply, s, t);
    }
  }

  lemma MostFrom(n: nat, g: Game, shared: bool, p: Pos, depth: nat, ply: nat, s: int)
    requires AtMostBy(n, g, shared, p, depth, ply, s)
    ensures AtMost(g, shared, p, depth, ply, s)
  {
    forall t: int | t >= s ensures MostShown(g, shared, p, depth, ply, t) {
      MoreBy(n, n, g, shared, p, depth, ply, s, t);
    }
  }

  lemma LeastHeight(g: Game, shared: bool, p: Pos, depth: nat, ply: nat, s: int) returns (n: nat)
    requires AtLeast(g, shared, p, depth, ply, s)
    ensures AtLeastBy(n, g, shared, p, depth, ply, s)
  {
    assert LeastShown(g, shared, p, depth, ply, s);
    n :| AtLeastBy(n, g, shared, p, depth, ply, s);
  }

  lemma MostHeight(g: Game, shared: bool, p: Pos, depth: nat, ply: nat, s: int) returns (n: nat)
    requires AtMost(g, shared, p, depth, ply, s)
    ensures AtMostBy(n, g, shared, p, depth, ply, s)
  {
    assert MostShown(g, shared, p, depth, ply, s);
    n :| AtMostBy(n, g, shared, p, depth, ply, s);
  }

  // ---- Bounds from the moves --------------------------------------------------------------

  // The move is worth at least s.
  ghost predicate Reaches(g: Game, shared: bool, p: Pos, m: Move, depth: nat, ply: nat, s: int) {
    LegalMove(g, p, m) && AtMost(g, shared, g.child(p, m), depth, ply + 1, -s)
  }

  // None of the first n moves of a list is worth more than s.
  ghost predicate NoneAbove(g: Game, shared: bool, p: Pos, list: seq<Move>, n: nat, depth: nat, ply: nat, s: int)
    requires n <= |list|
  {
    forall k :: 0 <= k < n && LegalMove(g, p, list[k]) ==> AtLeast(g, shared, g.child(p, list[k]), depth, ply + 1, -s)
  }

  lemma ByMove(g: Game, shared: bool, p: Pos, depth: nat, ply: nat, m: Move, s: int)
    requires !Rests(g, p, depth, ply) && m in Choices(g, p, depth) && Reaches(g, shared, p, m, Below(depth), ply, s)
    ensures AtLeast(g, shared, p, depth, ply, s)
  {
    var n := MostHeight(g, shared, g.child(p, m), Below(depth), ply + 1, -s);
    LeastFrom(n + 1, g, shared, p, depth, ply, s);
  }

  // One height for all moves.
  lemma {:induction false} OneHeight(g: Game, shared: bool, p: Pos, list: seq<Move>, k: nat, depth: nat, ply: nat, s: int)
    returns (n: nat)
    requires k <= |list| && NoneAbove(g, shared, p, list, k, depth, ply, s)
    ensures forall j :: 0 <= j < k && LegalMove(g, p, list[j]) ==> AtLeastBy(n, g, shared, g.child(p, list[j]), depth, ply + 1, -s)
    decreases k
  {
    n := 0;
    if k > 0 {
      n := OneHeight(g, shared, p, list, k - 1, depth, ply, s);
      if LegalMove(g, p, list[k - 1]) {
        var i := LeastHeight(g, shared, g.child(p, list[k - 1]), depth, ply + 1, -s);
        var was := n;
        n := Max(n, i);
        forall j | 0 <= j < k && LegalMove(g, p, list[j])
          ensures AtLeastBy(n, g, shared, g.child(p, list[j]), depth, ply + 1, -s)
        {
          LessBy(if j == k - 1 then i else was, n, g, shared, g.child(p, list[j]), depth, ply + 1, -s, -s);
        }
      }
    }
  }

  lemma ByAllMoves(g: Game, shared: bool, p: Pos, depth: nat, ply: nat, list: seq<Move>, s: int)
    requires multiset(list) == multiset(Choices(g, p, depth)) && NoneAbove(g, shared, p, list, |list|, Below(depth), ply, s)
    requires (depth == 0 ==> g.stand(p) <= s) && !(depth > 0 && g.draw(p).Some?)
    requires !Rests(g, p, depth, ply) && Over(g, p, depth) ==> MateScore(g, p, ply) <= s
    ensures AtMost(g, shared, p, depth, ply, s)
  {
    SameMoves(list, Choices(g, p, depth));
    var n := OneHeight(g, shared, p, list, |list|, Below(depth), ply, s);
    MostFrom(n + 1, g, shared, p, depth, ply, s);
  }

  // ---- What the bounds mean ---------------------------------------------------------------

  lemma NoneIsOver(g: Game, p: Pos, depth: nat, ply: nat)
    requires ply + 1 + Below(depth) < MAXPLY
    ensures Over(g, p, depth) <==> Best(g, p, Choices(g, p, depth), Below(depth), ply) == None && (depth > 0 || g.inCheck(p))
  {
    var list := Choices(g, p, depth);
    if Best(g, p, list, Below(depth), ply).Some? {
      var m := BestIsAttained(g, p, list, Below(depth), ply);
    }
    forall m | m in list && LegalMove(g, p, m) ensures Best(g, p, list, Below(depth), ply).Some? {
      BestIsUpperBound(g, p, list, Below(depth), ply, m);
    }
  }

  // The value of a node from its moves, at every depth.
  lemma ValueIs(g: Game, p: Pos, depth: nat, ply: nat)
    requires ply + depth < MAXPLY
    ensures Rests(g, p, depth, ply) ==> Value(g, p, depth, ply) == if depth == 0 then g.stand(p) else g.draw(p).value
    ensures !Rests(g, p, depth, ply) ==>
              var b := Best(g, p, Choices(g, p, depth), Below(depth), ply);
              && (b.None? ==>
                    Value(g, p, depth, ply) == if Over(g, p, depth) && (depth > 0 || g.stand(p) < MateScore(g, p, ply))
                                               then MateScore(g, p, ply) else g.stand(p))
              && (b.Some? ==> Value(g, p, depth, ply) == if depth == 0 then Max(g.stand(p), b.value) else b.value)
  {
    if !Rests(g, p, depth, ply) { NoneIsOver(g, p, depth, ply); }
  }

  lemma {:induction false} LeastIsBelow(n: nat, g: Game, p: Pos, depth: nat, ply: nat, s: int)
    requires ply + depth < MAXPLY && AtLeastBy(n, g, false, p, depth, ply, s)
    ensures s <= Value(g, p, depth, ply)
    decreases n
  {
    var list, d := Choices(g, p, depth), Below(depth);
    ValueIs(g, p, depth, ply);
    if !Rests(g, p, depth, ply) {
      NoneIsOver(g, p, depth, ply);
      if n > 0 {
        if m :| m in list && LegalMove(g, p, m) && AtMostBy(n - 1, g, false, g.child(p, m), d, ply + 1, -s) {
          MostIsAbove(n - 1, g, g.child(p, m), d, ply + 1, -s);
          BestIsUpperBound(g, p, list, d, ply, m);
        }
      }
    }
  }

  lemma {:induction false} MostIsAbove(n: nat, g: Game, p: Pos, depth: nat, ply: nat, s: int)
    requires ply + depth < MAXPLY && AtMostBy(n, g, false, p, depth, ply, s)
    ensures Value(g, p, depth, ply) <= s
    decreases n
  {
    var list, d := Choices(g, p, depth), Below(depth);
    ValueIs(g, p, depth, ply);
    if !Rests(g, p, depth, ply) { NoneIsOver(g, p, depth, ply); }
    if !Rests(g, p, depth, ply) && Best(g, p, list, d, ply).Some? {
      var m := BestIsAttained(g, p, list, d, ply);
      LeastIsBelow(n - 1, g, g.child(p, m), d, ply + 1, -s);
    }
  }

  lemma ValueFromMoves(g: Game, p: Pos, depth: nat, ply: nat)
    requires ply + depth < MAXPLY && !Rests(g, p, depth, ply)
    requires forall m | m in Choices(g, p, depth) && LegalMove(g, p, m) ::
               var v := ChildScore(g, p, m, Below(depth), ply);
               && AtLeast(g, false, g.child(p, m), Below(depth), ply + 1, -v)
               && AtMost(g, false, g.child(p, m), Below(depth), ply + 1, -v)
    ensures AtLeast(g, false, p, depth, ply, Value(g, p, depth, ply)) && AtMost(g, false, p, depth, ply, Value(g, p, depth, ply))
  {
    var v, list, d := Value(g, p, depth, ply), Choices(g, p, depth), Below(depth);
    var b := Best(g, p, list, d, ply);
    ValueIs(g, p, depth, ply);
    NoneIsOver(g, p, depth, ply);
    forall k | 0 <= k < |list| && LegalMove(g, p, list[k])
      ensures AtLeast(g, false, g.child(p, list[k]), d, ply + 1, -v)
    {
      BestIsUpperBound(g, p, list, d, ply, list[k]);
    }
    ByAllMoves(g, false, p, depth, ply, list, v);
    if b.Some? && v == b.value {
      var m := BestIsAttained(g, p, list, d, ply);
      ByMove(g, false, p, depth, ply, m, v);
    } else {
      LeastFrom(0, g, false, p, depth, ply, v);
    }
  }

  lemma {:induction false} ValueIsShown(g: Game, p: Pos, depth: nat, ply: nat)
    requires ply + depth < MAXPLY
    ensures AtLeast(g, false, p, depth, ply, Value(g, p, depth, ply)) && AtMost(g, false, p, depth, ply, Value(g, p, depth, ply))
    decreases depth, MAXPLY - ply
  {
    if Rests(g, p, depth, ply) {
      ValueIs(g, p, depth, ply);
      LeastFrom(0, g, false, p, depth, ply, Value(g, p, depth, ply));
      MostFrom(0, g, false, p, depth, ply, Value(g, p, depth, ply));
    } else {
      forall m | m in Choices(g, p, depth) && LegalMove(g, p, m)
        ensures var v := ChildScore(g, p, m, Below(depth), ply);
                && AtLeast(g, false, g.child(p, m), Below(depth), ply + 1, -v)
                && AtMost(g, false, g.child(p, m), Below(depth), ply + 1, -v)
      {
        ValueIsShown(g, g.child(p, m), Below(depth), ply + 1);
      }
      ValueFromMoves(g, p, depth, ply);
    }
  }

  // Where nothing is shared, these are the bounds of the negamax value.
  lemma BoundsOfValue(g: Game, p: Pos, depth: nat, ply: nat, s: int)
    requires ply + depth < MAXPLY
    ensures AtLeast(g, false, p, depth, ply, s) <==> s <= Value(g, p, depth, ply)
    ensures AtMost(g, false, p, depth, ply, s) <==> Value(g, p, depth, ply) <= s
  {
    ValueIsShown(g, p, depth, ply);
    if AtLeast(g, false, p, depth, ply, s) {
      var n := LeastHeight(g, false, p, depth, ply, s);
      LeastIsBelow(n, g, p, depth, ply, s);
    }
    if AtMost(g, false, p, depth, ply, s) {
      var n := MostHeight(g, false, p, depth, ply, s);
      MostIsAbove(n, g, p, depth, ply, s);
    }
  }

  // No bound goes beyond the mate scores of the ply, shared or not.
  lemma {:induction false} LeastInRange(n: nat, g: Game, shared: bool, p: Pos, depth: nat, ply: nat, s: int)
    requires Sane(g) && ply + depth < MAXPLY && AtLeastBy(n, g, shared, p, depth, ply, s)
    ensures s < INFTY - ply
    decreases n
  {
    assert -INFTY + MAXPLY < g.stand(p) < INFTY - MAXPLY;
    if n > 0 && !Rests(g, p, depth, ply) && LeastByMove(n - 1, g, shared, p, depth, ply, s) {
      var m :| m in Choices(g, p, depth) && LegalMove(g, p, m)
               && AtMostBy(n - 1, g, shared, g.child(p, m), Below(depth), ply + 1, -s);
      MostInRange(n - 1, g, shared, g.child(p, m), Below(depth), ply + 1, -s);
    }
  }

  lemma {:induction false} MostInRange(n: nat, g: Game, shared: bool, p: Pos, depth: nat, ply: nat, s: int)
    requires Sane(g) && ply + depth < MAXPLY && AtMostBy(n, g, shared, p, depth, ply, s)
    ensures s >= -INFTY + ply
    decreases n
  {
    assert -INFTY + MAXPLY < g.stand(p) < INFTY - MAXPLY;
    if !Rests(g, p, depth, ply) && HasLegal(g, p, depth) && n > 0 && MostByMoves(n - 1, g, shared, p, depth, ply, s) {
      var m :| m in Choices(g, p, depth) && LegalMove(g, p, m);
      LeastInRange(n - 1, g, shared, g.child(p, m), Below(depth), ply + 1, -s);
    }
  }

  // Bounds for keys that hold where a line ends and pass through a legal move.
  ghost predicate Consistent(g: Game, lo: nat -> int, hi: nat -> int) {
    forall p: Pos :: ConsistentAt(g, lo, hi, p)
  }

  ghost predicate ConsistentAt(g: Game, lo: nat -> int, hi: nat -> int, p: Pos) {
    && lo(g.key(p)) <= g.stand(p) <= hi(g.key(p)) && (g.draw(p).Some? ==> lo(g.key(p)) <= g.draw(p).value <= hi(g.key(p)))
    && (forall depth: nat, ply: nat | Over(g, p, depth) && ply < MAXPLY :: lo(g.key(p)) <= MateScore(g, p, ply) <= hi(g.key(p)))
    && (forall m | LegalMove(g, p, m) && (m in g.moves(p) || m in g.tactical(p)) :: -lo(g.key(g.child(p, m))) <= hi(g.key(p)))
    && ((exists m :: m in g.moves(p) && LegalMove(g, p, m)) ==>
          exists m :: m in g.moves(p) && LegalMove(g, p, m) && lo(g.key(p)) <= -hi(g.key(g.child(p, m))))
  }

  lemma EndsWithin(g: Game, lo: nat -> int, hi: nat -> int, p: Pos, depth: nat, ply: nat)
    requires Consistent(g, lo, hi) && ply < MAXPLY
    ensures lo(g.key(p)) <= g.stand(p) <= hi(g.key(p)) && (g.draw(p).Some? ==> lo(g.key(p)) <= g.draw(p).value <= hi(g.key(p)))
    ensures Over(g, p, depth) ==> lo(g.key(p)) <= MateScore(g, p, ply) <= hi(g.key(p))
  {
    assert ConsistentAt(g, lo, hi, p);
  }

  lemma MoveWithin(g: Game, lo: nat -> int, hi: nat -> int, p: Pos, depth: nat, m: Move)
    requires Consistent(g, lo, hi) && m in Choices(g, p, depth) && LegalMove(g, p, m)
    ensures -lo(g.key(g.child(p, m))) <= hi(g.key(p))
  {
    assert ConsistentAt(g, lo, hi, p);
  }

  lemma SomeMoveWithin(g: Game, lo: nat -> int, hi: nat -> int, p: Pos, depth: nat) returns (m: Move)
    requires Consistent(g, lo, hi) && HasLegal(g, p, depth) && depth > 0
    ensures m in g.moves(p) && LegalMove(g, p, m) && lo(g.key(p)) <= -hi(g.key(g.child(p, m)))
  {
    assert ConsistentAt(g, lo, hi, p);
    m :| m in g.moves(p) && LegalMove(g, p, m) && lo(g.key(p)) <= -hi(g.key(g.child(p, m)));
  }

  // Nothing that is shown, with a table or without, goes beyond such bounds.
  lemma {:induction false} LeastIsConsistent(n: nat, g: Game, shared: bool, p: Pos, depth: nat, ply: nat, s: int,
                                              lo: nat -> int, hi: nat -> int)
    requires Consistent(g, lo, hi) && ply + depth < MAXPLY && AtLeastBy(n, g, shared, p, depth, ply, s)
    ensures s <= hi(g.key(p))
    decreases n
  {
    EndsWithin(g, lo, hi, p, depth, ply);
    if n > 0 && !Rests(g, p, depth, ply) && LeastByMove(n - 1, g, shared, p, depth, ply, s) {
      var m :| m in Choices(g, p, depth) && LegalMove(g, p, m)
               && AtMostBy(n - 1, g, shared, g.child(p, m), Below(depth), ply + 1, -s);
      MoveWithin(g, lo, hi, p, depth, m);
      MostIsConsistent(n - 1, g, shared, g.child(p, m), Below(depth), ply + 1, -s, lo, hi);
    } else if n > 0 && shared && LeastByKey(n - 1, g, p, depth, s) {
      var q: Pos, d: nat, i: nat :| MayStandFor(g, q, d, i, p, depth) && AtLeastBy(n - 1, g, true, q, d, i, s);
      LeastIsConsistent(n - 1, g, true, q, d, i, s, lo, hi);
    }
  }

  lemma {:induction false} MostIsConsistent(n: nat, g: Game, shared: bool, p: Pos, depth: nat, ply: nat, s: int,
                                             lo: nat -> int, hi: nat -> int)
    requires Consistent(g, lo, hi) && ply + depth < MAXPLY && AtMostBy(n, g, shared, p, depth, ply, s)
    ensures lo(g.key(p)) <= s
    decreases n
  {
    EndsWithin(g, lo, hi, p, depth, ply);
    if n > 0 && shared && MostByKey(n - 1, g, p, depth, s) {
      var q: Pos, d: nat, i: nat :| MayStandFor(g, q, d, i, p, depth) && AtMostBy(n - 1, g, true, q, d, i, s);
      MostIsConsistent(n - 1, g, true, q, d, i, s, lo, hi);
    } else if depth > 0 && g.draw(p) == None && HasLegal(g, p, depth) {
      var m := SomeMoveWithin(g, lo, hi, p, depth);
      LeastIsConsistent(n - 1, g, shared, g.child(p, m), Below(depth), ply + 1, -s, lo, hi);
    }
  }

  // ---- What a result shows ----------------------------------------------------------------

  // The result of a search of a window: a lower bound unless it failed low, an upper one unless it failed high.
  ghost predicate Shown(g: Game, shared: bool, p: Pos, depth: nat, ply: nat, low: int, beta: int, score: int) {
    && (score > low ==> AtLeast(g, shared, p, depth, ply, if score > beta then beta else score))
    && (score < beta ==> AtMost(g, shared, p, depth, ply, Max(low, score)))
  }

  // Without sharing: the value bounded to the window.
  lemma ShownIsValue(g: Game, p: Pos, depth: nat, ply: nat, low: int, beta: int, score: int)
    requires ply + depth < MAXPLY && low < beta
    ensures Shown(g, false, p, depth, ply, low, beta, score)
       <==> Clamp(score, low, beta) == Clamp(Value(g, p, depth, ply), low, beta)
  {
    BoundsOfValue(g, p, depth, ply, if score > beta then beta else score);
    BoundsOfValue(g, p, depth, ply, Max(low, score));
  }

  // The same for a move, seen from the node.
  ghost predicate MoveShown(g: Game, shared: bool, p: Pos, m: Move, depth: nat, ply: nat, alpha: int, beta: int, score: int) {
    Shown(g, shared, g.child(p, m), depth, ply + 1, -beta, -alpha, -score)
  }

  // ---- The move loop ----------------------------------------------------------------------

  // One more move has been searched, or skipped as illegal.
  lemma OneMoreShown(g: Game, shared: bool, p: Pos, list: seq<Move>, n: nat, depth: nat, ply: nat, low: int, beta: int, score: int)
    requires n < |list| && low < beta && NoneAbove(g, shared, p, list, n, depth, ply, low)
    requires LegalMove(g, p, list[n]) ==> MoveShown(g, shared, p, list[n], depth, ply, low, beta, score)
    ensures !LegalMove(g, p, list[n]) ==> NoneAbove(g, shared, p, list, n + 1, depth, ply, low)
    ensures LegalMove(g, p, list[n]) && score < beta ==> NoneAbove(g, shared, p, list, n + 1, depth, ply, Max(low, score))
    ensures LegalMove(g, p, list[n]) && score > low ==>
              Reaches(g, shared, p, list[n], depth, ply, if score > beta then beta else score)
  {
    if LegalMove(g, p, list[n]) && score < beta {
      NoneAboveMore(g, shared, p, list, n, depth, ply, low, Max(low, score));
    }
  }

  lemma NoneAboveMore(g: Game, shared: bool, p: Pos, list: seq<Move>, n: nat, depth: nat, ply: nat, s: int, t: int)
    requires n <= |list| && NoneAbove(g, shared, p, list, n, depth, ply, s) && s <= t
    ensures NoneAbove(g, shared, p, list, n, depth, ply, t)
  {
    forall k | 0 <= k < n && LegalMove(g, p, list[k]) ensures AtLeast(g, shared, g.child(p, list[k]), depth, ply + 1, -t) {
      assert AtLeast(g, shared, g.child(p, list[k]), depth, ply + 1, -s);
    }
  }

  lemma SameStart(g: Game, shared: bool, p: Pos, list: seq<Move>, other: seq<Move>, n: nat, depth: nat, ply: nat, s: int)
    requires n <= |list| && n <= |other| && list[..n] == other[..n] && NoneAbove(g, shared, p, list, n, depth, ply, s)
    ensures NoneAbove(g, shared, p, other, n, depth, ply, s)
  {
    forall k | 0 <= k < n ensures other[k] == list[k] {
      assert other[..n][k] == list[..n][k];
    }
  }

  // A full-width node whose loop was not cut off.
  lemma FullShown(g: Game, shared: bool, p: Pos, list: seq<Move>, depth: nat, ply: nat, low: int, alpha: int, beta: int,
                  best: Option<Move>)
    requires depth > 0 && g.draw(p) == None && low <= alpha < beta && multiset(list) == multiset(g.moves(p))
    requires NoneAbove(g, shared, p, list, |list|, depth - 1, ply, alpha)
    requires alpha > low ==> best.Some? && best.value in list && Reaches(g, shared, p, best.value, depth - 1, ply, alpha)
    ensures !Over(g, p, depth) ==> Shown(g, shared, p, depth, ply, low, beta, alpha)
    ensures Over(g, p, depth) ==> Shown(g, shared, p, depth, ply, low, beta, Clamp(MateScore(g, p, ply), alpha, beta))
  {
    SameMoves(list, g.moves(p));
    if alpha > low { ByMove(g, shared, p, depth, ply, best.value, alpha); }
    if Over(g, p, depth) {
      var score := Clamp(MateScore(g, p, ply), alpha, beta);
      if score < beta {
        NoneAboveMore(g, shared, p, list, |list|, depth - 1, ply, alpha, score);
        ByAllMoves(g, shared, p, depth, ply, list, score);
      }
      if score > low { LeastFrom(0, g, shared, p, depth, ply, score); }
    } else {
      ByAllMoves(g, shared, p, depth, ply, list, alpha);
    }
  }

  lemma CutShown(g: Game, shared: bool, p: Pos, depth: nat, ply: nat, low: int, beta: int, m: Move, score: int)
    requires !Rests(g, p, depth, ply) && m in Choices(g, p, depth) && Reaches(g, shared, p, m, Below(depth), ply, beta)
    requires low < beta <= score
    ensures Shown(g, shared, p, depth, ply, low, beta, score)
  {
    ByMove(g, shared, p, depth, ply, m, beta);
  }

  lemma DrawShown(g: Game, shared: bool, p: Pos, depth: nat, ply: nat, low: int, beta: int)
    requires depth > 0 && g.draw(p).Some? && low < beta
    ensures Shown(g, shared, p, depth, ply, low, beta, Clamp(g.draw(p).value, low, beta))
  {
    var s := Clamp(g.draw(p).value, low, beta);
    if s > low { LeastFrom(0, g, shared, p, depth, ply, s); }
    if s < beta { MostFrom(0, g, shared, p, depth, ply, s); }
  }

  // ---- Entries of the table ---------------------------------------------------------------

  // What a table entry claims has been shown of some position with its key, searched to its depth.
  ghost predicate EntryShown(g: Game, e: HashEntry) {
    exists q: Pos, i: nat :: EntryShownAt(g, e, q, i)
  }

  ghost predicate EntryShownAt(g: Game, e: HashEntry, q: Pos, i: nat) {
    && g.key(q) == e.key && e.depth >= 0 && i + e.depth < MAXPLY && -MATE <= e.score <= MATE
    && (e.bound != Alpha ==> AtLeast(g, true, q, e.depth, i, e.score))
    && (e.bound != Beta ==> AtMost(g, true, q, e.depth, i, e.score))
  }

  ghost predicate AllShown(t: HashTable, g: Game)
    reads t.table
  {
    forall i | 0 <= i < t.table.Length && t.table[i].Some? :: EntryShown(g, t.table[i].value)
  }

  // An entry is used only if it was searched deep enough and its bound decides the window.
  lemma HitShown(g: Game, p: Pos, depth: nat, ply: nat, low: int, beta: int, e: HashEntry)
    requires EntryShown(g, e) && e.key == g.key(p) && Decides(e, depth, low, beta) && low < beta
    ensures Shown(g, true, p, depth, ply, low, beta, Clamp(e.score, low, beta))
  {
    var q: Pos, i: nat :| EntryShownAt(g, e, q, i);
    assert MayStandFor(g, q, e.depth, i, p, depth);
    var s := Clamp(e.score, low, beta);
    if s > low {
      var n := LeastHeight(g, true, q, e.depth, i, s);
      LeastFrom(n + 1, g, true, p, depth, ply, s);
    }
    if s < beta {
      var n := MostHeight(g, true, q, e.depth, i, s);
      MostFrom(n + 1, g, true, p, depth, ply, s);
    }
  }

  // Sharing shows no less.
  lemma {:induction false} LeastWithShared(n: nat, g: Game, p: Pos, depth: nat, ply: nat, s: int)
    requires AtLeastBy(n, g, false, p, depth, ply, s)
    ensures AtLeastBy(n, g, true, p, depth, ply, s)
    decreases n
  {
    if n > 0 && LeastByMove(n - 1, g, false, p, depth, ply, s) {
      var m :| m in Choices(g, p, depth) && LegalMove(g, p, m) && AtMostBy(n - 1, g, false, g.child(p, m), Below(depth), ply + 1, -s);
      MostWithShared(n - 1, g, g.child(p, m), Below(depth), ply + 1, -s);
      assert LeastByMove(n - 1, g, true, p, depth, ply, s);
    }
  }

  lemma {:induction false} MostWithShared(n: nat, g: Game, p: Pos, depth: nat, ply: nat, s: int)
    requires AtMostBy(n, g, false, p, depth, ply, s)
    ensures AtMostBy(n, g, true, p, depth, ply, s)
    decreases n
  {
    if n > 0 && MostByMoves(n - 1, g, false, p, depth, ply, s) {
      forall m | m in Choices(g, p, depth) && LegalMove(g, p, m)
        ensures AtLeastBy(n - 1, g, true, g.child(p, m), Below(depth), ply + 1, -s)
      {
        LeastWithShared(n - 1, g, g.child(p, m), Below(depth), ply + 1, -s);
      }
      assert MostByMoves(n - 1, g, true, p, depth, ply, s);
    }
  }

  // An entry that says the truth of the negamax value at its depth, for some position with its key, is shown.
  lemma TrueEntryIsShown(g: Game, e: HashEntry, q: Pos, i: nat)
    requires g.key(q) == e.key && e.depth >= 0 && i + e.depth < MAXPLY && -MATE <= e.score <= MATE
    requires Truth(e.bound, e.score, Value(g, q, e.depth, i))
    ensures EntryShown(g, e)
  {
    BoundsOfValue(g, q, e.depth, i, e.score);
    if e.bound != Alpha {
      var n := LeastHeight(g, false, q, e.depth, i, e.score);
      LeastWithShared(n, g, q, e.depth, i, e.score);
      LeastFrom(n, g, true, q, e.depth, i, e.score);
    }
    if e.bound != Beta {
      var n := MostHeight(g, false, q, e.depth, i, e.score);
      MostWithShared(n, g, q, e.depth, i, e.score);
      MostFrom(n, g, true, q, e.depth, i, e.score);
    }
    assert EntryShownAt(g, e, q, i);
  }

  // A hit on an entry that says the truth of this position at its depth is the bounded negamax value at that depth,
  // which is no less than the depth asked for.
  lemma DeepHit(g: Game, p: Pos, depth: nat, ply: nat, low: int, beta: int, e: HashEntry)
    requires low < beta && Decides(e, depth, low, beta) && ply + e.depth < MAXPLY
    requires Truth(e.bound, e.score, Value(g, p, e.depth, ply))
    ensures e.depth >= depth && Clamp(e.score, low, beta) == Clamp(Value(g, p, e.depth, ply), low, beta)
  {}

  lemma StoreShown(g: Game, p: Pos, depth: nat, ply: nat, low: int, beta: int, score: int, e: HashEntry)
    requires Shown(g, true, p, depth, ply, low, beta, score) && ply + depth < MAXPLY
    requires low < MATE && beta > -MATE && low < beta && low <= score <= beta
    requires e.key == g.key(p) && e.score == StoredScore(score) && e.bound == StoredBound(low, beta, score) && e.depth == depth
    ensures EntryShown(g, e)
  {
    assert EntryShownAt(g, e, p, ply);
  }

  // ---- A quiescence node ------------------------------------------------------------------

  // Some legal tactical move is worth at least s.
  ghost predicate SomeReaches(g: Game, shared: bool, p: Pos, ply: nat, s: int) {
    exists m :: m in g.tactical(p) && Reaches(g, shared, p, m, 0, ply, s)
  }

  // Standing pat at the ply cap or beyond beta.
  lemma StandShown(g: Game, shared: bool, p: Pos, ply: nat, low: int, beta: int, stand: int, score: int)
    requires low < beta && Clamp(stand, low, beta) == Clamp(g.stand(p), low, beta)
    requires if stand >= beta then score == beta else ply == MAXPLY - 1 && score == stand
    ensures Shown(g, shared, p, 0, ply, low, beta, score)
  {
    var s, t := if score > beta then beta else score, Max(low, score);
    if score > low { LeastFrom(0, g, shared, p, 0, ply, s); }
    if score < beta { MostFrom(0, g, shared, p, 0, ply, t); }
  }

  // A quiescence node whose loop was not cut off.
  lemma QuietShown(g: Game, shared: bool, p: Pos, list: seq<Move>, ply: nat, low: int, stand: int, alpha: int, beta: int)
    requires ply < MAXPLY - 1 && low < beta && stand < beta && Clamp(stand, low, beta) == Clamp(g.stand(p), low, beta)
    requires multiset(list) == multiset(g.tactical(p)) && Max(low, stand) <= alpha < beta
    requires NoneAbove(g, shared, p, list, |list|, 0, ply, alpha)
    requires alpha > Max(low, stand) ==> SomeReaches(g, shared, p, ply, alpha)
    ensures !Over(g, p, 0) ==> Shown(g, shared, p, 0, ply, low, beta, alpha)
    ensures Over(g, p, 0) ==> Shown(g, shared, p, 0, ply, low, beta, Clamp(-INFTY + ply, alpha, beta))
  {
    SameMoves(list, g.tactical(p));
    if alpha > Max(low, stand) {
      var m :| m in g.tactical(p) && Reaches(g, shared, p, m, 0, ply, alpha);
      ByMove(g, shared, p, 0, ply, m, alpha);
    } else if alpha > low {
      LeastFrom(0, g, shared, p, 0, ply, alpha);
    }
    var score := if Over(g, p, 0) then Clamp(-INFTY + ply, alpha, beta) else alpha;
    if score < beta {
      NoneAboveMore(g, shared, p, list, |list|, 0, ply, alpha, score);
      ByAllMoves(g, shared, p, 0, ply, list, score);
    }
    if score > alpha { LeastFrom(0, g, shared, p, 0, ply, score); }
  }

  // ---- The root ---------------------------------------------------------------------------

  // Some legal move of the root is worth at least s.
  ghost predicate RootLeast(g: Game, shared: bool, p: Pos, depth: nat, s: int)
    requires depth > 0
  {
    exists m :: m in g.all(p) && Reaches(g, shared, p, m, depth - 1, 0, s)
  }

  // No legal move of the root is worth more than s.
  ghost predicate RootMost(g: Game, shared: bool, p: Pos, depth: nat, s: int)
    requires depth > 0
  {
    forall m | m in g.all(p) && LegalMove(g, p, m) :: AtLeast(g, shared, g.child(p, m), depth - 1, 1, -s)
  }

  ghost predicate RootShown(g: Game, shared: bool, p: Pos, depth: nat, low: int, beta: int, score: int)
    requires depth > 0
  {
    (score > low ==> RootLeast(g, shared, p, depth, score)) && (score < beta ==> RootMost(g, shared, p, depth, score))
  }

  // What an accepted score shows of the root: all of it, or which side is being mated.
  ghost predicate RootVerdict(g: Game, shared: bool, p: Pos, depth: nat, score: int)
    requires depth > 0
  {
    if score >= MATE then RootLeast(g, shared, p, depth, MATE)
    else if score <= -MATE then RootMost(g, shared, p, depth, -MATE)
    else RootLeast(g, shared, p, depth, score) && RootMost(g, shared, p, depth, score)
  }

  lemma AcceptedIsShown(g: Game, shared: bool, p: Pos, depth: nat, low: int, beta: int, score: int)
    requires depth > 0 && low < beta && low < MATE && beta > -MATE && low <= score <= beta
    requires RootShown(g, shared, p, depth, low, beta, score) && !FailsLow(score, low) && !FailsHigh(score, beta)
    ensures RootVerdict(g, shared, p, depth, score) && (-MATE < score < MATE ==> low < score < beta)
  {
    if score >= MATE {
      var m :| m in g.all(p) && Reaches(g, shared, p, m, depth - 1, 0, score);
      assert Reaches(g, shared, p, m, depth - 1, 0, MATE);
    } else if score <= -MATE {
      forall m | m in g.all(p) && LegalMove(g, p, m) ensures AtLeast(g, shared, g.child(p, m), depth - 1, 1, MATE) {
        assert AtLeast(g, shared, g.child(p, m), depth - 1, 1, -score);
      }
    }
  }

  // Where nothing is shared, these are the bounds of the root value.
  lemma RootBounds(g: Game, p: Pos, depth: nat, s: int)
    requires 0 < depth <= MAXDEPTH && exists m :: m in g.all(p) && LegalMove(g, p, m)
    ensures RootLeast(g, false, p, depth, s) <==> s <= RootValue(g, p, depth)
    ensures RootMost(g, false, p, depth, s) <==> RootValue(g, p, depth) <= s
  {
    var m :| m in g.all(p) && LegalMove(g, p, m);
    BestIsUpperBound(g, p, g.all(p), depth - 1, 0, m);
    var best := BestIsAttained(g, p, g.all(p), depth - 1, 0);
    forall k | k in g.all(p) && LegalMove(g, p, k)
      ensures ChildScore(g, p, k, depth - 1, 0) <= RootValue(g, p, depth)
      ensures Reaches(g, false, p, k, depth - 1, 0, s) <==> s <= ChildScore(g, p, k, depth - 1, 0)
      ensures AtLeast(g, false, g.child(p, k), depth - 1, 1, -s) <==> ChildScore(g, p, k, depth - 1, 0) <= s
    {
      BestIsUpperBound(g, p, g.all(p), depth - 1, 0, k);
      BoundsOfValue(g, g.child(p, k), depth - 1, 1, -s);
    }
  }

  // The score of a move is one that pick can see.
  lemma ScoreIsSeen(g: Game, shared: bool, p: Pos, m: Move, depth: nat, ply: nat, low: int, beta: int, score: int)
    requires Sane(g) && ply + 1 + depth < MAXPLY && -INFTY <= low < beta && low <= score
    requires MoveShown(g, shared, p, m, depth, ply, low, beta, score)
    ensures score > -INFTY
  {
    if score == -INFTY {
      var n := LeastHeight(g, shared, g.child(p, m), depth, ply + 1, INFTY);
      LeastInRange(n, g, shared, g.child(p, m), depth, ply + 1, INFTY);
    }
  }
}
