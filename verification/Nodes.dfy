// Nodes of the search tree and their LIFO pool (src/common/node.h, src/common/node.cc).
module Nodes {
  import opened Basic
  import opened Moves
  import opened GameTree
  import opened MoveLists

  datatype NodeType = Unknown | Root | FullWidth | Quiesce

  // The i-th score is the highest from the n-th on.
  ghost predicate Tops(scores: seq<int>, n: int, i: int) {
    0 <= n <= i < |scores| && forall k :: n <= k < |scores| ==> scores[k] <= scores[i]
  }

  ghost predicate Above(scores: seq<int>) {
    forall i :: 0 <= i < |scores| ==> scores[i] > -INFTY
  }

  lemma TopSwapped(scores: seq<int>, n: nat, i: nat)
    requires Tops(scores, n, i)
    ensures Tops(Swap(scores, n, i), n, n) && (Above(scores) ==> Above(Swap(scores, n, i)))
  {}

  class Node {
    var parent: Node?
    var pos: Pos
    var kind: NodeType
    var movelist: seq<Move>
    var scores: seq<int>
    var current: int
    var pvline: seq<Move>
    var hashmv: Option<Move>
    var bestLine: seq<Move>
    var played: Option<Move>

    constructor ()
    {
      parent, kind, movelist, scores, current := null, Unknown, [], [], -1;
      pvline, hashmv, bestLine, played := [], None, [], None;
    }

    // What the generators list for this kind of node.
    function Generated(g: Game): seq<Move>
      reads this
    {
      if kind == Quiesce then g.tactical(pos) else g.moves(pos)
    }

    ghost predicate Sized()
      reads this
    {
      |scores| == |movelist| && -1 <= current < |movelist|
    }

    // Every move has a score that pick can see.
    ghost predicate Scored()
      reads this
    {
      Above(scores)
    }

    ghost predicate Listed()
      reads this
    {
      Sized() && Scored()
    }

    ghost predicate Pointed(mov: Option<Move>)
      reads this
    {
      && Sized()
      && match mov
         case Some(m) => 0 <= current && movelist[current] == m
         case None => forall k :: current < k < |scores| ==> scores[k] <= -INFTY
    }

    ghost predicate Picked(mov: Option<Move>)
      reads this
    {
      && Listed()
      && match mov
         case Some(m) => 0 <= current && movelist[current] == m
         case None => current == |movelist| - 1
    }

    // The moves of a full-width node are listed at most once, and then kept in some order.
    ghost predicate Relistable(g: Game)
      reads this
    {
      |scores| == |movelist| && (movelist != [] ==> multiset(movelist) == multiset(g.moves(pos)))
    }

    function BestMove(): Option<Move>
      reads this
    {
      if bestLine == [] then None else Some(bestLine[0])
    }

    // The move with the highest score among those not yet returned, if any is above the score that the
    // scan starts from.
    method Highest() returns (m: int)
      requires Sized()
      ensures m == -1 || current < m < |movelist|
      ensures m == -1 ==> forall k :: current < k < |scores| ==> scores[k] <= -INFTY
      ensures m != -1 ==> Tops(scores, current + 1, m)
    {
      var score := -INFTY;
      m := -1;
      for i := current + 1 to |movelist|
        invariant m == -1 || current < m < i
        invariant m == -1 ==> score == -INFTY && forall k :: current < k < i ==> scores[k] <= -INFTY
        invariant m != -1 ==> score == scores[m] > -INFTY && forall k :: current < k < i ==> scores[k] <= score
      {
        if scores[i] > score {
          score := scores[i];
          m := i;
        }
      }
    }

    // Step on, and exchange the move there for the m-th, which has the highest score of those ahead.
    method StepTo(m: nat)
      requires Sized() && current < m < |movelist| && Tops(scores, current + 1, m)
      modifies `movelist, `scores, `current
      ensures Sized() && current == old(current) + 1 && movelist[current] == old(movelist[m])
      ensures movelist == Swap(old(movelist), current, m) && Tops(scores, current, current)
      ensures Above(old(scores)) ==> Above(scores)
    {
      current := current + 1;
      TopSwapped(scores, current, m);
      if current != m {
        movelist, scores := Swap(movelist, current, m), Swap(scores, current, m);
      }
    }

    // Node::pick: the move with the highest score among those not yet returned, swapped to the front.
    // A move with the score that the scan starts from would never be returned.
    method Pick() returns (mov: Option<Move>)
      requires Sized()
      modifies `movelist, `scores, `current
      ensures Pointed(mov) && (old(Scored()) ==> Scored() && Picked(mov))
      ensures current == if mov.Some? then old(current) + 1 else old(current)
      ensures multiset(movelist) == multiset(old(movelist))
      ensures movelist[..old(current) + 1] == old(movelist)[..old(current) + 1]
      ensures mov.Some? ==> forall k :: current <= k < |scores| ==> scores[k] <= scores[current]
    {
      var m := Highest();
      if m == -1 {
        assert current + 1 < |scores| ==> scores[current + 1] <= -INFTY;
        return None;
      }
      mov := Some(movelist[m]);
      Swapped(movelist, current + 1, m);
      StepTo(m);
    }

    // Node::score_moves: whatever the scores are, they are above the value pick starts from. The
    // scores of a root node were set by the search.
    method ScoreMoves()
      requires |scores| == |movelist| && current == -1
      modifies `scores
      ensures |scores| == |movelist| && (kind == Root ==> scores == old(scores)) && (kind != Root ==> Scored())
    {
      if kind == Root {
        return;
      }
      for i := current + 1 to |movelist|
        invariant |scores| == |movelist| && forall k :: 0 <= k < i ==> scores[k] > -INFTY
      {
        var score: int := *;
        scores := scores[i := if score > -INFTY then score else 0];
      }
    }

    // Node::first.
    method First(g: Game) returns (mov: Option<Move>)
      requires kind != Unknown && (kind != Quiesce ==> |scores| == |movelist|)
      requires kind == FullWidth && movelist != [] ==> multiset(movelist) == multiset(g.moves(pos))
      modifies `movelist, `scores, `current
      ensures Pointed(mov) && current == if mov.Some? then 0 else -1
      ensures kind != Root || old(Scored()) ==> Scored() && Picked(mov)
      ensures multiset(movelist) == if kind == Root then multiset(old(movelist)) else multiset(Generated(g))
    {
      current := -1;
      if kind == Quiesce || (kind == FullWidth && movelist == []) {
        movelist := Generated(g);
        scores := seq(|movelist|, _ => 0);
      }
      ScoreMoves();
      mov := Pick();
    }

    method Next() returns (mov: Option<Move>)
      requires Sized()
      modifies `movelist, `scores, `current
      ensures Pointed(mov) && (old(Scored()) ==> Scored() && Picked(mov))
      ensures current == if mov.Some? then old(current) + 1 else old(current)
      ensures multiset(movelist) == multiset(old(movelist))
      ensures movelist[..old(current) + 1] == old(movelist)[..old(current) + 1]
    {
      mov := Pick();
    }

    // Legal moves occur in the list as often as in another.
    ghost predicate KeepsLegalOf(g: Game, was: seq<Move>)
      reads this
    {
      forall m | LegalMove(g, pos, m) :: multiset(movelist)[m] == multiset(was)[m]
    }

    // And no other moves occur in it.
    ghost predicate HoldsLegalOf(g: Game, was: seq<Move>)
      reads this
    {
      KeepsLegalOf(g, was) && forall m | m in movelist :: LegalMove(g, pos, m)
    }

    lemma DropKeepsLegal(g: Game, was: seq<Move>, before: seq<Move>, m: Move)
      requires multiset(movelist) == multiset(before) - multiset{m} && !LegalMove(g, pos, m)
      requires forall k | LegalMove(g, pos, k) :: multiset(before)[k] == multiset(was)[k]
      ensures KeepsLegalOf(g, was)
    {}

    // Movelist::filter_illegal: an illegal move is overwritten by the last of the list.
    method FilterIllegal(g: Game)
      requires |scores| == |movelist|
      modifies `movelist, `scores
      ensures |scores| == |movelist| && (old(Scored()) ==> Scored())
      ensures HoldsLegalOf(g, old(movelist))
    {
      var i := 0;
      while i < |movelist|
        invariant |scores| == |movelist| && i <= |movelist| && (old(Scored()) ==> Scored())
        invariant forall k :: 0 <= k < i ==> LegalMove(g, pos, movelist[k])
        invariant KeepsLegalOf(g, old(movelist))
        decreases |movelist| - i
      {
        if LegalMove(g, pos, movelist[i]) {
          i := i + 1;
        } else {
          DropAt(g, i, old(movelist));
        }
      }
    }

    method DropAt(g: Game, i: nat, ghost was: seq<Move>)
      requires |scores| == |movelist| && i < |movelist| && !LegalMove(g, pos, movelist[i]) && KeepsLegalOf(g, was)
      modifies `movelist, `scores
      ensures |scores| == |movelist| == |old(movelist)| - 1 && (old(Scored()) ==> Scored()) && movelist[..i] == old(movelist)[..i]
      ensures KeepsLegalOf(g, was)
    {
      ghost var before := movelist;
      DroppedOne(movelist, i);
      movelist, scores := Dropped(movelist, i), Dropped(scores, i);
      DropKeepsLegal(g, was, before, before[i]);
    }

    // Node::generate_all_moves: all legal moves, by the general generator.
    method GenerateAllMoves(g: Game)
      modifies `movelist, `scores
      ensures |scores| == |movelist| && Scored()
      ensures HoldsLegalOf(g, g.all(pos))
    {
      movelist := g.all(pos);
      scores := seq(|movelist|, _ => 0);
      FilterIllegal(g);
    }

    lemma HeldAreLegal(g: Game, was: seq<Move>)
      requires HoldsLegalOf(g, was)
      ensures forall m :: m in movelist <==> m in was && LegalMove(g, pos, m)
    {
      forall m ensures m in movelist <==> m in was && LegalMove(g, pos, m) {
        assert m in movelist <==> multiset(movelist)[m] > 0;
        assert m in was <==> multiset(was)[m] > 0;
      }
    }

    // Node::init_root, for a position with a legal move: one of them is the best so far.
    method InitRoot(g: Game)
      requires exists m :: m in g.all(pos) && LegalMove(g, pos, m)
      modifies this
      ensures pos == old(pos) && parent == old(parent) && kind == Root && |scores| == |movelist| > 0 && Scored()
      ensures HoldsLegalOf(g, g.all(pos)) && forall m :: m in movelist <==> m in g.all(pos) && LegalMove(g, pos, m)
      ensures BestMove().Some? && BestMove().value in movelist
    {
      ghost var m :| m in g.all(pos) && LegalMove(g, pos, m);
      GenerateAllMoves(g);
      HeldAreLegal(g, g.all(pos));
      assert m in movelist;
      kind := Root;
      pvline, hashmv, played := [], None, None;
      bestLine := [movelist[0]];
    }

    // Node::set_best.
    method SetBest(mov: Move, child: Node)
      modifies `bestLine
      ensures bestLine != [] && bestLine[0] == mov && |bestLine| <= MAXPLY && bestLine[1..] <= old(child.bestLine)
      ensures |old(child.bestLine)| < MAXPLY ==> bestLine[1..] == old(child.bestLine)
    {
      var n := if |child.bestLine| < MAXPLY - 1 then |child.bestLine| else MAXPLY - 1;
      bestLine := [mov] + child.bestLine[..n];
    }

    // Node::make_move: the pool must not be exhausted.
    method MakeMove(g: Game, mov: Move, pool: NodeAllocator) returns (child: Node)
      requires pool.Valid() && pool.next < |pool.pool| && this !in pool.Unused()
      modifies pool, pool.pool[pool.next]
      ensures child == old(pool.pool[pool.next]) && pool.Valid() && pool.next == old(pool.next) + 1
      ensures child.pos == g.child(pos, mov) && child.movelist == [] && child.scores == [] && child.kind == Unknown
      ensures child.parent == this
    {
      var n := pool.Alloc();
      child := n;
      child.parent := this;
      child.pos := g.child(pos, mov);
      child.movelist, child.scores, child.current := [], [], -1;
      child.kind := Unknown;
      child.pvline := if |pvline| > 1 && pvline[0] == mov then pvline[1..] else [];
      child.hashmv := None;
      child.bestLine := [];
      child.played := Some(mov);
    }
  }

  // A stack of nodes: allocation and release move one pointer.
  class NodeAllocator {
    const pool: seq<Node>
    var next: nat

    ghost predicate Distinct() {
      forall i, j :: 0 <= i < j < |pool| ==> pool[i] != pool[j]
    }

    ghost predicate Valid()
      reads this
    {
      next <= |pool| && Distinct()
    }

    ghost function Unused(): (s: set<Node>)
      reads this
      ensures forall i :: next <= i < |pool| ==> pool[i] in s
    {
      set i | next <= i < |pool| :: pool[i]
    }

    constructor (count: nat)
      ensures Valid() && next == 0 && |pool| == count
      ensures forall i :: 0 <= i < |pool| ==> fresh(pool[i])
    {
      var nodes: seq<Node> := [];
      for i := 0 to count
        invariant |nodes| == i && (forall k :: 0 <= k < i ==> fresh(nodes[k]))
        invariant forall j, k :: 0 <= j < k < i ==> nodes[j] != nodes[k]
      {
        var n := new Node();
        nodes := nodes + [n];
      }
      pool := nodes;
      next := 0;
    }

    method Alloc() returns (node: Node?)
      requires Valid()
      modifies this
      ensures Valid()
      ensures if old(next) < |pool| then node == pool[old(next)] && next == old(next) + 1 else node == null && next == old(next)
    {
      if next == |pool| {
        return null;
      }
      node := pool[next];
      next := next + 1;
    }

    // Nodes are released in the reverse order of their allocation.
    method Free(node: Node)
      requires Valid() && 0 < next && pool[next - 1] == node
      modifies this
      ensures Valid() && next == old(next) - 1
    {
      next := next - 1;
    }
  }
}
