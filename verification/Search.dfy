// Fail-hard principal variation search (src/common/search.cc).
module Searching {
  import opened Basic
  import opened Moves
  import opened GameTree
  import opened Nodes
  import opened HashTables
  import opened SearchBounds

  datatype Job = Job(p: Pos, ply: nat, low: int, beta: int)

  // Counts the calls of search_root.
  class Tally {
    ghost var rootSearches: nat

    constructor ()
      ensures rootSearches == 0
    {
      rootSearches := 0;
    }
  }

  function Total(counts: seq<nat>): nat {
    if counts == [] then 0 else Total(counts[..|counts| - 1]) + counts[|counts| - 1]
  }

  lemma TotalMore(counts: seq<nat>, n: nat)
    ensures Total(counts + [n]) == Total(counts) + n
  {
    assert (counts + [n])[..|counts|] == counts;
  }

  class Search {
    const g: Game
    const tally: Tally
    const nodealloc: NodeAllocator
    const hashtable: HashTable?
    const pvsMode: int
    // How many plies above its own pool this search starts.
    const base: nat

    var nodesFullwidth: nat
    var nodesQuiesce: nat
    var maxplyFullwidth: nat
    var maxplyQuiesce: nat
    var statCut: nat
    var statNullcut: nat
    var statFutcut: nat
    var statXfutcut: nat
    var statRazcut: nat
    // How many results have been stored that the entries cannot hold: of a window beyond mate, or outside it.
    ghost var oddStores: nat

    constructor (g: Game, hashtable: HashTable?, pvsMode: int, base: nat)
      requires hashtable != null ==> hashtable.Valid()
      ensures Valid() && this.g == g && this.hashtable == hashtable && this.pvsMode == pvsMode && this.base == base
      ensures fresh(tally) && fresh(nodealloc)
      ensures (forall i :: 0 <= i < MAXPLY ==> fresh(nodealloc.pool[i])) && nodealloc.next == 0
      ensures statNullcut == statFutcut == statXfutcut == statRazcut == 0
    {
      this.g, this.hashtable, this.pvsMode, this.base := g, hashtable, pvsMode, base;
      nodealloc := new NodeAllocator(MAXPLY);
      tally := new Tally();
      nodesFullwidth, nodesQuiesce, maxplyFullwidth, maxplyQuiesce := 0, 0, 0, 0;
      statCut, statNullcut, statFutcut, statXfutcut, statRazcut, oddStores := 0, 0, 0, 0, 0, 0;
    }

    ghost predicate Valid()
      reads nodealloc
    {
      && nodealloc.Valid() && |nodealloc.pool| == MAXPLY && (hashtable != null ==> hashtable.Valid())
    }

    // Node node is searched at ply with exactly the nodes of the plies above it in use.
    ghost predicate Ready(node: Node, ply: nat)
      reads nodealloc
    {
      && Valid() && node !in nodealloc.Unused() && ply < MAXPLY && nodealloc.next + base == ply
    }

    ghost function TableFrame(): set<object> {
      if hashtable == null then {} else {hashtable, hashtable.table}
    }

    // How often a heuristic has cut something off that plain negamax would have searched.
    function Pruned(): nat
      reads this
    {
      statNullcut + statFutcut + statXfutcut + statRazcut
    }

    // The same, and how often something has been stored that an entry cannot hold.
    ghost function Flaws(): nat
      reads this
    {
      Pruned() + if hashtable == null then 0 else oddStores
    }

    // Every entry of the table has been shown of a position with its key, searched to its depth.
    ghost predicate TableFair()
      reads TableFrame()
    {
      hashtable != null ==> AllShown(hashtable, g)
    }

    // The count to start from; no count if the table is not fair.
    ghost function Start(): int
      reads this, TableFrame()
    {
      if TableFair() then Flaws() else -1
    }

    // An evaluation that agrees with the static value, a fair table to start from, and no flaw since.
    ghost predicate Clean(start: int)
      reads this
    {
      EvalOk(g) && Flaws() == start
    }

    // What a search of a window shows, by its own moves and by the table, if there is one.
    ghost predicate Shows(p: Pos, depth: nat, ply: nat, low: int, beta: int, score: int) {
      Shown(g, hashtable != null, p, depth, ply, low, beta, score)
    }

    // ---- Transposition table ----------------------------------------------------------------

    // A hit is an entry of the position that was searched deep enough and whose bound decides the window.
    method ProbeHashtable(node: Node, depth: nat, alpha: int, beta: int, ghost ply: nat) returns (hit: bool, score: int)
      requires Valid() && alpha < beta
      modifies node`hashmv, hashtable
      ensures hit <==> hashtable != null && hashtable.Held(g, node.pos).Some?
                       && Decides(hashtable.Held(g, node.pos).value, depth, alpha, beta)
      ensures hit ==> score == Clamp(hashtable.Held(g, node.pos).value.score, alpha, beta)
      ensures hit && TableFair() ==> Shows(node.pos, depth, ply, alpha, beta, score)
      ensures hit && hashtable.Truthful(g) && KeysIdentify(g) && StandSmall(g) && ply <= MAXPLY - 2 ==>
                (Settled(g, node.pos, MAXPLY - 2 - ply) ==> score == Clamp(Quiet(g, node.pos, ply), alpha, beta))
    {
      if hashtable == null {
        return false, 0;
      }
      var r := hashtable.Probe(g, node.pos);
      if r == None {
        return false, 0;
      }
      var entry := r.value;
      node.hashmv := entry.move;
      if hashtable.Truthful(g) && KeysIdentify(g) && StandSmall(g) && ply <= MAXPLY - 2 && Settled(g, node.pos, MAXPLY - 2 - ply) {
        ProbeIsTrue(hashtable, g, node.pos, ply, alpha, beta, entry);
      }
      if TableFair() && Decides(entry, depth, alpha, beta) { HitShown(g, node.pos, depth, ply, alpha, beta, entry); }
      hit, score := false, 0;
      if entry.depth >= depth {
        var s := entry.score;
        match entry.bound {
          case Exact => return true, Clamp(s, alpha, beta);
          case Alpha => if s <= alpha { return true, Clamp(s, alpha, beta); }
          case Beta => if s >= beta { return true, Clamp(s, alpha, beta); }
        }
      }
    }

    ghost function Entry(node: Node, depth: int, alpha: int, beta: int, score: int): HashEntry
      reads node
    {
      HashEntry(g.key(node.pos), StoredScore(score), node.BestMove(), depth, StoredBound(alpha, beta, score))
    }

    // A window that reaches below mate and above being mated, and a result inside it.
    predicate Storable(alpha: int, beta: int, score: int) {
      alpha < MATE && beta > -MATE && alpha <= score <= beta
    }

    method StoreHashtable(node: Node, depth: nat, alpha: int, beta: int, score: int, ghost ply: nat)
      requires Valid() && alpha < beta && ply + depth < MAXPLY
      modifies `oddStores, if hashtable == null then {} else {hashtable.table}
      ensures oddStores == old(oddStores) + if hashtable == null || Storable(alpha, beta, score) then 0 else 1
      ensures old(TableFair()) && Shows(node.pos, depth, ply, alpha, beta, score) && Storable(alpha, beta, score) ==> TableFair()
      ensures hashtable != null ==>
                && hashtable.table.Length > 0
                && hashtable.table[..]
                   == old(hashtable.table[..])[g.key(node.pos) % hashtable.table.Length := Some(Entry(node, depth, alpha, beta, score))]
      ensures hashtable != null && old(hashtable.Truthful(g)) && EntryTrue(g, Entry(node, depth, alpha, beta, score))
              ==> hashtable.Truthful(g)
    {
      if hashtable != null {
        if !Storable(alpha, beta, score) {
          oddStores := oddStores + 1;
        } else if Shows(node.pos, depth, ply, alpha, beta, score) {
          StoreShown(g, node.pos, depth, ply, alpha, beta, score, Entry(node, depth, alpha, beta, score));
        }
        hashtable.Put(HashEntry(g.key(node.pos), StoredScore(score), node.BestMove(), depth, StoredBound(alpha, beta, score)));
        ghost var slots := hashtable.table[..];
        assert forall i :: 0 <= i < |slots| ==> hashtable.table[i] == slots[i];
      }
    }

    // The slot of a position is empty.
    ghost predicate SlotEmpty(p: Pos)
      reads TableFrame()
    {
      hashtable != null && hashtable.Valid() && hashtable.table[g.key(p) % hashtable.table.Length] == None
    }

    // The slot of a position holds a quiescence result.
    ghost predicate SlotHolds(p: Pos, alpha: int, beta: int, score: int)
      reads TableFrame()
    {
      && hashtable != null && hashtable.Valid()
      && match hashtable.table[g.key(p) % hashtable.table.Length]
         case None => false
         case Some(e) =>
           && e.key == g.key(p) && e.score == StoredScore(score) && e.bound == StoredBound(alpha, beta, score) && e.depth == 0
    }

    // ---- Quiescence search ------------------------------------------------------------------

    ghost predicate TableTrue()
      reads TableFrame()
    {
      hashtable != null && hashtable.Truthful(g)
    }

    // No table, or a true one where it has to be.
    ghost predicate Trusted(p: Pos, ply: nat, alpha: int, beta: int)
      reads TableFrame()
    {
      EvalOk(g) && (hashtable == null || (TableTrue() && CalmWindow(g, p, ply, alpha, beta)))
    }

    // The same for a search that may still end by standing pat.
    ghost predicate TrustedFrom(p: Pos, ply: nat, alpha: int)
      reads TableFrame()
    {
      EvalOk(g) && (hashtable == null || (TableTrue() && CalmFrom(g, p, ply, alpha)))
    }

    method QuiesceChild(child: Node, ply: nat, alpha: int, beta: int, ghost trusted: bool) returns (score: int)
      requires Ready(child, ply + 1) && alpha < beta && ply < MAXPLY - 1
      requires trusted ==> Trusted(child.pos, ply + 1, -beta, -alpha)
      modifies `nodesQuiesce, `maxplyQuiesce, `statCut, `oddStores, nodealloc, child, nodealloc.Unused(), TableFrame()
      ensures Ready(child, ply + 1)
      ensures ply != MAXPLY - 3 ==> alpha <= score
      ensures ply != MAXPLY - 2 ==> score <= beta
      ensures trusted && hashtable != null ==> TableTrue()
      ensures trusted ==> Clamp(score, alpha, beta) == Clamp(-Quiet(g, old(child.pos), ply + 1), alpha, beta)
      ensures oddStores >= old(oddStores)
      ensures Clean(old(Start())) ==> TableFair() && Shows(old(child.pos), 0, ply + 1, -beta, -alpha, -score)
      decreases MAXPLY - ply, 0
    {
      score := QuiescenceSearch(child, ply + 1, -beta, -alpha);
      score := -score;
    }

    // One move of the quiescence loop: make it, search the child, keep it if it is the best.
    method QuiesceMove(node: Node, mov: Move, ply: nat, bestscore: int, alpha: int, beta: int, ghost trusted: bool)
      returns (legal: bool, score: int)
      requires Ready(node, ply) && alpha < beta && ply < MAXPLY - 1
      requires trusted ==> Trusted(node.pos, ply, alpha, beta) && mov in g.tactical(node.pos)
      modifies `nodesQuiesce, `maxplyQuiesce, `statCut, `oddStores, nodealloc, node`bestLine, nodealloc.Unused(), TableFrame()
      ensures Ready(node, ply) && legal == LegalMove(g, node.pos, mov)
      ensures legal && ply != MAXPLY - 3 ==> alpha <= score
      ensures legal && ply != MAXPLY - 2 ==> score <= beta
      ensures trusted && hashtable != null ==> TableTrue()
      ensures trusted && legal ==> Clamp(score, alpha, beta) == Clamp(ChildScore(g, node.pos, mov, 0, ply), alpha, beta)
      ensures node.bestLine == old(node.bestLine) || node.BestMove() == Some(mov)
      ensures oddStores >= old(oddStores)
      ensures Clean(old(Start())) ==>
                TableFair() && (legal ==> MoveShown(g, hashtable != null, node.pos, mov, 0, ply, alpha, beta, score))
      decreases MAXPLY - ply, 2
    {
      ghost var start := Start();
      var child := node.MakeMove(g, mov, nodealloc);
      assert Start() == start;
      legal, score := LegalMove(g, node.pos, mov), 0;
      if legal {
        if trusted && hashtable != null { CalmChild(g, node.pos, mov, ply, alpha, beta); }
        score := QuiesceMade(node, child, mov, ply, bestscore, alpha, beta, trusted);
      }
      nodealloc.Free(child);
    }

    // The child has been made: search it, and keep it if it is the best.
    method QuiesceMade(node: Node, child: Node, mov: Move, ply: nat, bestscore: int, alpha: int, beta: int, ghost trusted: bool)
      returns (score: int)
      requires Ready(child, ply + 1) && node !in nodealloc.Unused() && node != child && alpha < beta && ply < MAXPLY - 1
      requires trusted ==> Trusted(child.pos, ply + 1, -beta, -alpha)
      modifies `nodesQuiesce, `maxplyQuiesce, `statCut, `oddStores, nodealloc, node`bestLine, child, nodealloc.Unused(), TableFrame()
      ensures Ready(child, ply + 1)
      ensures ply != MAXPLY - 3 ==> alpha <= score
      ensures ply != MAXPLY - 2 ==> score <= beta
      ensures trusted && hashtable != null ==> TableTrue()
      ensures trusted ==> Clamp(score, alpha, beta) == Clamp(-Quiet(g, old(child.pos), ply + 1), alpha, beta)
      ensures node.bestLine == old(node.bestLine) || node.BestMove() == Some(mov)
      ensures oddStores >= old(oddStores)
      ensures Clean(old(Start())) ==> TableFair() && Shows(old(child.pos), 0, ply + 1, -beta, -alpha, -score)
      decreases MAXPLY - ply, 1
    {
      score := QuiesceChild(child, ply, alpha, beta, trusted);
      if score > bestscore {
        node.SetBest(mov, child);
      }
    }

    // The immediate results of quiescence_search: a hit, standing pat beyond beta, and the ply cap. Otherwise the
    // score is that of standing pat.
    method QuiesceEarly(node: Node, ply: nat, low: int, beta: int) returns (done: bool, score: int)
      requires Valid() && ply < MAXPLY && low < beta
      modifies `nodesQuiesce, `maxplyQuiesce, node`hashmv, hashtable
      ensures !done ==> score == g.eval(node.pos, low, beta) < beta && ply < MAXPLY - 1
      ensures done ==> score <= beta && (ply != MAXPLY - 1 ==> low <= score)
      ensures done && TrustedFrom(node.pos, ply, low) ==> Clamp(score, low, beta) == Clamp(Quiet(g, node.pos, ply), low, beta)
      ensures done && EvalOk(g) && TableFair() ==> Shows(node.pos, 0, ply, low, beta, score)
      ensures SlotEmpty(node.pos) && g.eval(node.pos, low, beta) < beta && ply < MAXPLY - 1 ==> !done
    {
      nodesQuiesce := nodesQuiesce + 1;
      if ply > maxplyQuiesce {
        maxplyQuiesce := ply;
      }
      done, score := ProbeHashtable(node, 0, low, beta, ply);
      if done {
        return;
      }
      score := g.eval(node.pos, low, beta);
      if score >= beta {
        if EvalOk(g) { StandShown(g, hashtable != null, node.pos, ply, low, beta, score, beta); }
        return true, beta;
      }
      if ply == MAXPLY - 1 {
        if EvalOk(g) { StandShown(g, hashtable != null, node.pos, ply, low, beta, score, score); }
        return true, score;
      }
    }

    method QuiescenceSearch(node: Node, ply: nat, low: int, beta: int) returns (score: int)
      requires Ready(node, ply) && low < beta
      modifies `nodesQuiesce, `maxplyQuiesce, `statCut, `oddStores, nodealloc, node, nodealloc.Unused(), TableFrame()
      ensures Ready(node, ply) && node.pos == old(node.pos) && node.parent == old(node.parent)
      ensures ply != MAXPLY - 1 ==> low <= score
      ensures ply != MAXPLY - 2 ==> score <= beta
      ensures old(TrustedFrom(node.pos, ply, low)) ==> Clamp(score, low, beta) == Clamp(Quiet(g, node.pos, ply), low, beta)
      ensures EvalOk(g) && old(TableTrue()) && CalmFrom(g, node.pos, ply, low) ==> TableTrue()
      ensures oddStores >= old(oddStores)
      ensures Clean(old(Start())) ==> TableFair() && Shows(node.pos, 0, ply, low, beta, score)
      ensures old(SlotEmpty(node.pos)) && g.eval(node.pos, low, beta) < beta && ply < MAXPLY - 1 ==>
                SlotHolds(node.pos, low, beta, score)
      decreases MAXPLY - ply, 9
    {
      var done;
      done, score := QuiesceEarly(node, ply, low, beta);
      if done {
        return;
      }
      var stand := score;
      if EvalOk(g) && CalmFrom(g, node.pos, ply, low) { CalmBelow(g, node.pos, ply, stand, low, beta); }
      score := QuiesceOn(node, ply, low, stand, beta);
    }

    // The part of quiescence_search after its immediate results.
    method QuiesceOn(node: Node, ply: nat, low: int, stand: int, beta: int) returns (score: int)
      requires Ready(node, ply) && low < beta && ply < MAXPLY - 1 && stand == g.eval(node.pos, low, beta) < beta
      modifies `nodesQuiesce, `maxplyQuiesce, `statCut, `oddStores, nodealloc, node, nodealloc.Unused(), TableFrame()
      ensures Ready(node, ply) && node.pos == old(node.pos) && node.parent == old(node.parent)
      ensures low <= score && (ply != MAXPLY - 2 ==> score <= beta)
      ensures old(Trusted(node.pos, ply, low, beta)) ==>
                Clamp(score, low, beta) == Clamp(Quiet(g, node.pos, ply), low, beta) && (hashtable != null ==> TableTrue())
      ensures hashtable != null ==> SlotHolds(node.pos, low, beta, score)
      ensures oddStores >= old(oddStores)
      ensures Clean(old(Start())) ==> TableFair() && Shows(node.pos, 0, ply, low, beta, score)
      decreases MAXPLY - ply, 8
    {
      node.kind := Quiesce;
      score := QuiesceMoves(node, ply, low, stand, beta);
      StoreQuiet(node, ply, low, beta, score, old(Trusted(node.pos, ply, low, beta)));
    }

    // The moves of a quiescence node, and its mate test.
    method QuiesceMoves(node: Node, ply: nat, low: int, stand: int, beta: int) returns (alpha: int)
      requires Ready(node, ply) && low < beta && ply < MAXPLY - 1 && node.kind == Quiesce
      requires stand == g.eval(node.pos, low, beta) < beta
      modifies `nodesQuiesce, `maxplyQuiesce, `statCut, `oddStores, nodealloc, node, nodealloc.Unused(), TableFrame()
      ensures Ready(node, ply) && node.pos == old(node.pos) && node.parent == old(node.parent)
      ensures low <= alpha && (ply != MAXPLY - 2 ==> alpha <= beta)
      ensures old(Trusted(node.pos, ply, low, beta)) ==>
                Clamp(alpha, low, beta) == Clamp(Quiet(g, node.pos, ply), low, beta)
                && (hashtable != null ==> TableTrue() && alpha <= beta)
      ensures oddStores >= old(oddStores)
      ensures Clean(old(Start())) ==> TableFair() && Shows(node.pos, 0, ply, low, beta, alpha)
      decreases MAXPLY - ply, 7
    {
      ghost var trusted, start := Trusted(node.pos, ply, low, beta), Start();
      if trusted && hashtable != null { CalmStart(g, node.pos, ply, stand, low, beta); }
      var mov := node.First(g);
      alpha := QuiesceAll(node, mov, ply, low, stand, beta, trusted, start);
    }

    method QuiesceAll(node: Node, first: Option<Move>, ply: nat, low: int, stand: int, beta: int, ghost trusted: bool, ghost start: int)
      returns (alpha: int)
      requires Ready(node, ply) && low < beta && ply < MAXPLY - 1 && stand == g.eval(node.pos, low, beta) < beta
      requires node.Picked(first) && (if first.Some? then node.current == 0 else node.movelist == [])
      requires multiset(node.movelist) == multiset(g.tactical(node.pos))
      requires trusted ==> Trusted(node.pos, ply, low, beta) && Trusted(node.pos, ply, Max(low, stand), beta)
      requires start <= Flaws() && (Clean(start) ==> TableFair())
      modifies `nodesQuiesce, `maxplyQuiesce, `statCut, `oddStores, nodealloc, node`movelist, node`scores, node`current,
               node`bestLine, nodealloc.Unused(), TableFrame()
      ensures Ready(node, ply) && low <= alpha && (ply != MAXPLY - 2 ==> alpha <= beta) && oddStores >= old(oddStores)
      ensures trusted ==>
                Clamp(alpha, low, beta) == Clamp(Quiet(g, node.pos, ply), low, beta)
                && (hashtable != null ==> TableTrue() && alpha <= beta)
      ensures Clean(start) ==> TableFair() && Shows(node.pos, 0, ply, low, beta, alpha)
      decreases MAXPLY - ply, 6
    {
      var moves;
      alpha, moves := QuiesceLoop(node, first, ply, Max(low, stand), beta, trusted, start);
      if trusted && alpha < beta {
        QuietAtEnd(g, node.pos, node.movelist, ply, stand, low, alpha, beta);
      }
      if Clean(start) { QuietLoopShown(node, ply, low, stand, alpha, beta, moves); }
      if moves == 0 && g.inCheck(node.pos) {
        alpha := Clamp(-INFTY + ply, alpha, beta);
      }
    }

    // The move loop of a quiescence node and its mate test show what the result says.
    lemma QuietLoopShown(node: Node, ply: nat, low: int, stand: int, alpha: int, beta: int, moves: nat)
      requires ply < MAXPLY - 1 && low < beta && stand == g.eval(node.pos, low, beta) < beta && EvalOk(g) && Max(low, stand) <= alpha
      requires alpha >= beta ==> moves > 0 && SomeReaches(g, hashtable != null, node.pos, ply, beta)
      requires alpha < beta ==>
                 && multiset(node.movelist) == multiset(g.tactical(node.pos))
                 && (moves == 0 <==> NoneLegal(g, node.pos, node.movelist, |node.movelist|, 0, ply))
                 && QuietLoop(node, |node.movelist|, ply, Max(low, stand), alpha)
      ensures Shows(node.pos, 0, ply, low, beta,
                    if moves == 0 && g.inCheck(node.pos) then Clamp(-INFTY + ply, alpha, beta) else alpha)
    {
      var p, list := node.pos, node.movelist;
      if alpha >= beta {
        var m :| m in g.tactical(p) && Reaches(g, hashtable != null, p, m, 0, ply, beta);
        CutShown(g, hashtable != null, p, 0, ply, low, beta, m, alpha);
      } else {
        NoneIsOver(g, p, 0, ply);
        SearchedToEnd(g, p, list, g.tactical(p), 0, ply);
        QuietShown(g, hashtable != null, p, list, ply, low, stand, alpha, beta);
      }
    }

    // The first n moves of the list have raised alpha to what the best of them is worth.
    ghost predicate QuietLoop(node: Node, n: nat, ply: nat, floor: int, alpha: int)
      requires n <= |node.movelist|
      reads node
    {
      && NoneAbove(g, hashtable != null, node.pos, node.movelist, n, 0, ply, alpha)
      && (alpha > floor ==> SomeReaches(g, hashtable != null, node.pos, ply, alpha))
    }

    method StoreQuiet(node: Node, ply: nat, low: int, beta: int, score: int, ghost trusted: bool)
      requires Valid() && ply < MAXPLY && low < beta
      requires trusted && hashtable != null ==>
                 TableTrue() && CalmWindow(g, node.pos, ply, low, beta) && score == Clamp(Quiet(g, node.pos, ply), low, beta)
      modifies `oddStores, if hashtable == null then {} else {hashtable.table}
      ensures trusted && hashtable != null ==> TableTrue()
      ensures hashtable != null ==> SlotHolds(node.pos, low, beta, score)
      ensures oddStores >= old(oddStores)
      ensures Flaws() == old(Flaws()) && old(TableFair()) && Shows(node.pos, 0, ply, low, beta, score) ==> TableFair()
    {
      if trusted && hashtable != null {
        StoreIsTrue(g, node.pos, ply, low, beta, Entry(node, 0, low, beta, score));
      }
      StoreHashtable(node, 0, low, beta, score, ply);
    }

    // One round of the move loop of quiescence_search: alpha is raised, or a cutoff is found.
    method QuiesceRound(node: Node, mov: Move, ply: nat, best: int, was: nat, floor: int, low: int, beta: int,
                        ghost trusted: bool, ghost start: int)
      returns (cut: bool, alpha: int, bestscore: int, moves: nat)
      requires Ready(node, ply) && low < beta && ply < MAXPLY - 1 && node.Picked(Some(mov))
      requires multiset(node.movelist) == multiset(g.tactical(node.pos))
      requires was == 0 <==> NoneLegal(g, node.pos, node.movelist, node.current, 0, ply)
      requires trusted ==>
                 Trusted(node.pos, ply, low, beta) && low == Raised(g, node.pos, node.movelist, node.current, 0, ply, floor)
      requires start <= Flaws() && floor <= low && (Clean(start) ==> TableFair() && QuietLoop(node, node.current, ply, floor, low))
      modifies `nodesQuiesce, `maxplyQuiesce, `statCut, `oddStores, nodealloc, node`bestLine, nodealloc.Unused(), TableFrame()
      ensures Ready(node, ply) && low <= alpha && (ply != MAXPLY - 2 ==> alpha <= beta) && cut == (alpha >= beta)
      ensures trusted && hashtable != null ==> TableTrue() && alpha <= beta
      ensures moves == 0 <==> NoneLegal(g, node.pos, node.movelist, node.current + 1, 0, ply)
      ensures cut ==> moves > 0 && (trusted ==> Quiet(g, node.pos, ply) >= beta)
      ensures !cut && trusted ==>
                Trusted(node.pos, ply, alpha, beta) && alpha == Raised(g, node.pos, node.movelist, node.current + 1, 0, ply, floor)
      ensures oddStores >= old(oddStores)
      ensures Clean(start) ==> TableFair() && if cut then SomeReaches(g, hashtable != null, node.pos, ply, beta)
                                              else QuietLoop(node, node.current + 1, ply, floor, alpha)
      decreases MAXPLY - ply, 3
    {
      ghost var p, list, n := node.pos, node.movelist, node.current;
      alpha, bestscore, moves := low, best, was;
      assert mov in list;
      SameMoves(list, g.tactical(p));
      LegalOneMore(g, p, list, n, 0, ply);
      var legal, score := QuiesceMove(node, mov, ply, best, low, beta, trusted);
      if Clean(start) { QuietRoundShown(node, n, ply, floor, low, beta, score); }
      if trusted { QuietRoundTrue(p, list, n, ply, floor, low, beta, legal, score); }
      if legal {
        moves := moves + 1;
        bestscore := Max(bestscore, score);
        alpha := Max(alpha, score);
        if score >= beta {
          statCut := statCut + 1;
        }
      }
      cut := alpha >= beta;
    }

    lemma QuietRoundShown(node: Node, n: nat, ply: nat, floor: int, low: int, beta: int, score: int)
      requires n < |node.movelist| && floor <= low < beta && ply < MAXPLY - 1 && node.movelist[n] in g.tactical(node.pos)
      requires QuietLoop(node, n, ply, floor, low)
      requires LegalMove(g, node.pos, node.movelist[n]) ==>
                 MoveShown(g, hashtable != null, node.pos, node.movelist[n], 0, ply, low, beta, score)
      ensures var alpha := if LegalMove(g, node.pos, node.movelist[n]) then Max(low, score) else low;
              if alpha >= beta then SomeReaches(g, hashtable != null, node.pos, ply, beta) else QuietLoop(node, n + 1, ply, floor, alpha)
    {
      OneMoreShown(g, hashtable != null, node.pos, node.movelist, n, 0, ply, low, beta, score);
    }

    lemma QuietRoundTrue(p: Pos, list: seq<Move>, n: nat, ply: nat, floor: int, low: int, beta: int, legal: bool, score: int)
      requires n < |list| && low < beta && ply < MAXPLY - 1 && multiset(list) == multiset(g.tactical(p))
      requires legal == LegalMove(g, p, list[n]) && low == Raised(g, p, list, n, 0, ply, floor)
      requires hashtable != null ==> CalmWindow(g, p, ply, low, beta)
      requires legal ==> Clamp(score, low, beta) == Clamp(ChildScore(g, p, list[n], 0, ply), low, beta)
      ensures legal && score >= beta ==> Quiet(g, p, ply) >= beta
      ensures var alpha := if legal then Max(low, score) else low;
              alpha < beta ==>
                && alpha == Raised(g, p, list, n + 1, 0, ply, floor)
                && (hashtable != null ==> CalmWindow(g, p, ply, alpha, beta))
    {
      SearchedOneMore(g, p, list, n, 0, ply, floor, low, beta, score);
      if legal && hashtable != null { CalmNext(g, p, list[n], ply, low, beta, score); }
      if legal && score >= beta { QuietAtCut(g, p, list, n, ply, low, beta, score); }
    }

    // How many moves of the list have been dealt with when mov is the move picked last.
    ghost function Done(node: Node, mov: Option<Move>): (n: nat)
      requires node.Picked(mov)
      reads node
      ensures n <= |node.movelist| && (mov.Some? ==> n < |node.movelist|)
    {
      if mov.Some? then node.current else |node.movelist|
    }

    // The state of the move loop of quiescence_search before a round.
    ghost predicate QuietSoFar(node: Node, mov: Option<Move>, ply: nat, floor: int, alpha: int, moves: nat, trusted: bool,
                               start: int)
      requires node.Picked(mov) && ply < MAXPLY - 1
      reads this, node
    {
      && (moves == 0 <==> NoneLegal(g, node.pos, node.movelist, Done(node, mov), 0, ply))
      && (trusted ==> alpha == Raised(g, node.pos, node.movelist, Done(node, mov), 0, ply, floor))
      && (Clean(start) ==> QuietLoop(node, Done(node, mov), ply, floor, alpha))
    }

    method QuiesceStep(node: Node, mov0: Move, ply: nat, best: int, was: nat, floor: int, low: int, beta: int,
                       ghost trusted: bool, ghost start: int)
      returns (cut: bool, alpha: int, bestscore: int, moves: nat, mov: Option<Move>)
      requires Ready(node, ply) && low < beta && ply < MAXPLY - 1 && node.Picked(Some(mov0))
      requires multiset(node.movelist) == multiset(g.tactical(node.pos))
      requires QuietSoFar(node, Some(mov0), ply, floor, low, was, trusted, start)
      requires trusted ==> Trusted(node.pos, ply, low, beta)
      requires start <= Flaws() && floor <= low && (Clean(start) ==> TableFair())
      modifies `nodesQuiesce, `maxplyQuiesce, `statCut, `oddStores, nodealloc, node`movelist, node`scores, node`current, node`bestLine,
               nodealloc.Unused(), TableFrame()
      ensures Ready(node, ply) && low <= alpha && (ply != MAXPLY - 2 ==> alpha <= beta) && cut == (alpha >= beta)
      ensures trusted && hashtable != null ==> TableTrue() && alpha <= beta
      ensures node.Picked(mov) && multiset(node.movelist) == multiset(g.tactical(node.pos))
      ensures cut ==> moves > 0 && (trusted ==> Quiet(g, node.pos, ply) >= beta)
      ensures !cut ==> QuietSoFar(node, mov, ply, floor, alpha, moves, trusted, start)
      ensures !cut && trusted ==> Trusted(node.pos, ply, alpha, beta)
      ensures oddStores >= old(oddStores)
      ensures Clean(start) ==> TableFair() && (cut ==> SomeReaches(g, hashtable != null, node.pos, ply, beta))
      ensures !cut ==> |node.movelist| - Done(node, mov) < old(|node.movelist| - Done(node, Some(mov0)))
      decreases MAXPLY - ply, 4
    {
      cut, alpha, bestscore, moves := QuiesceRound(node, mov0, ply, best, was, floor, low, beta, trusted, start);
      mov := Some(mov0);
      if !cut {
        mov := QuiesceNext(node, ply, floor, alpha, moves, trusted, start);
      }
    }

    method QuiesceNext(node: Node, ply: nat, floor: int, alpha: int, moves: nat, ghost trusted: bool, ghost start: int)
      returns (mov: Option<Move>)
      requires node.Listed() && 0 <= node.current < |node.movelist| && ply < MAXPLY - 1
      requires moves == 0 <==> NoneLegal(g, node.pos, node.movelist, node.current + 1, 0, ply)
      requires trusted ==> alpha == Raised(g, node.pos, node.movelist, node.current + 1, 0, ply, floor)
      requires Clean(start) ==> QuietLoop(node, node.current + 1, ply, floor, alpha)
      modifies node`movelist, node`scores, node`current
      ensures node.Picked(mov) && multiset(node.movelist) == old(multiset(node.movelist))
      ensures QuietSoFar(node, mov, ply, floor, alpha, moves, trusted, start)
      ensures |node.movelist| - Done(node, mov) == old(|node.movelist| - node.current) - 1
    {
      ghost var list, n := node.movelist, node.current + 1;
      mov := node.Next();
      assert |node.movelist| == |list| by { assert |multiset(list)| == |multiset(node.movelist)|; }
      assert node.movelist[..n] == list[..n];
      if Clean(start) { SameStart(g, hashtable != null, node.pos, list, node.movelist, n, 0, ply, alpha); }
    }

    method QuiesceLoop(node: Node, first: Option<Move>, ply: nat, floor: int, beta: int, ghost trusted: bool, ghost start: int)
      returns (alpha: int, moves: nat)
      requires Ready(node, ply) && floor < beta && ply < MAXPLY - 1
      requires node.Picked(first) && (if first.Some? then node.current == 0 else node.movelist == [])
      requires multiset(node.movelist) == multiset(g.tactical(node.pos))
      requires trusted ==> Trusted(node.pos, ply, floor, beta)
      requires start <= Flaws() && (Clean(start) ==> TableFair())
      modifies `nodesQuiesce, `maxplyQuiesce, `statCut, `oddStores, nodealloc, node`movelist, node`scores, node`current, node`bestLine,
               nodealloc.Unused(), TableFrame()
      ensures Ready(node, ply) && floor <= alpha && (ply != MAXPLY - 2 ==> alpha <= beta)
      ensures trusted && hashtable != null ==> TableTrue() && alpha <= beta
      ensures alpha >= beta ==> moves > 0 && (trusted ==> Quiet(g, node.pos, ply) >= beta)
      ensures alpha < beta ==> multiset(node.movelist) == multiset(g.tactical(node.pos))
      ensures alpha < beta ==> (moves == 0 <==> NoneLegal(g, node.pos, node.movelist, |node.movelist|, 0, ply))
      ensures alpha < beta && trusted ==> alpha == Raised(g, node.pos, node.movelist, |node.movelist|, 0, ply, floor)
      ensures oddStores >= old(oddStores)
      ensures Clean(start) ==> TableFair() && if alpha >= beta then SomeReaches(g, hashtable != null, node.pos, ply, beta)
                                              else QuietLoop(node, |node.movelist|, ply, floor, alpha)
      decreases MAXPLY - ply, 5
    {
      alpha := floor;
      var bestscore := -INFTY;
      moves := 0;
      var mov := first;
      var cut := false;
      NothingSearched(g, node.pos, node.movelist, 0, ply, alpha);
      while mov.Some? && !cut
        invariant Ready(node, ply) && node.Picked(mov) && multiset(node.movelist) == multiset(g.tactical(node.pos))
        invariant floor <= alpha && (ply != MAXPLY - 2 ==> alpha <= beta) && cut == (alpha >= beta)
        invariant trusted && hashtable != null ==> TableTrue() && alpha <= beta
        invariant cut ==> moves > 0 && (trusted ==> Quiet(g, node.pos, ply) >= beta)
        invariant !cut ==> QuietSoFar(node, mov, ply, floor, alpha, moves, trusted, start)
        invariant oddStores >= old(oddStores)
        invariant Clean(start) ==> TableFair() && (cut ==> SomeReaches(g, hashtable != null, node.pos, ply, beta))
        invariant !cut && trusted ==> Trusted(node.pos, ply, alpha, beta)
        decreases !cut, |node.movelist| - Done(node, mov)
      {
        cut, alpha, bestscore, moves, mov := QuiesceStep(node, mov.value, ply, bestscore, moves, floor, alpha, beta, trusted, start);
      }
    }

    // The nodes of the plies above a search are in use.
    method Reserve(count: nat)
      requires Valid() && nodealloc.next + count <= MAXPLY
      modifies nodealloc
      ensures Valid() && nodealloc.next == old(nodealloc.next) + count
    {
      for i := 0 to count
        invariant Valid() && nodealloc.next == old(nodealloc.next) + i
      {
        var _ := nodealloc.Alloc();
      }
    }

    method GiveBack(count: nat)
      requires Valid() && count <= nodealloc.next
      modifies nodealloc
      ensures Valid() && nodealloc.next == old(nodealloc.next) - count
    {
      for i := 0 to count
        invariant Valid() && nodealloc.next == old(nodealloc.next) - i
      {
        nodealloc.Free(nodealloc.pool[nodealloc.next - 1]);
      }
    }

    // The bounded quiescence value; at the last two plies only what it tells in the window.
    ghost predicate Right(job: Job, score: int)
      requires job.ply < MAXPLY
    {
      && Clamp(score, job.low, job.beta) == Clamp(Quiet(g, job.p, job.ply), job.low, job.beta)
      && (job.ply < MAXPLY - 2 ==> score == Clamp(Quiet(g, job.p, job.ply), job.low, job.beta))
    }

    // One search of a series, at its own ply.
    method QuiesceJob(job: Job) returns (score: int)
      requires Valid() && nodealloc.next == 0 && EvalOk(g) && base <= job.ply < MAXPLY && job.low < job.beta
      requires TrustedFrom(job.p, job.ply, job.low)
      modifies `nodesQuiesce, `maxplyQuiesce, `statCut, `oddStores, nodealloc, nodealloc.pool, TableFrame()
      ensures Valid() && nodealloc.next == 0 && (hashtable != null ==> TableTrue())
      ensures Right(job, score)
    {
      var node := new Node();
      node.pos := job.p;
      Reserve(job.ply - base);
      score := QuiescenceSearch(node, job.ply, job.low, job.beta);
      GiveBack(job.ply - base);
    }

    // Over any sequence of quiescence searches at any plies, with a table that starts empty, or true,
    // every result is the one a search without a table would give.
    method QuiesceSeries(jobs: seq<Job>) returns (results: seq<int>)
      requires Valid() && nodealloc.next == 0 && EvalOk(g)
      requires forall i :: 0 <= i < |jobs| ==> jobs[i].low < jobs[i].beta && base <= jobs[i].ply < MAXPLY
      requires hashtable != null ==>
                 TableTrue() && forall i :: 0 <= i < |jobs| ==> CalmFrom(g, jobs[i].p, jobs[i].ply, jobs[i].low)
      modifies `nodesQuiesce, `maxplyQuiesce, `statCut, `oddStores, nodealloc, nodealloc.pool, TableFrame()
      ensures |results| == |jobs|
      ensures forall i :: 0 <= i < |jobs| ==> Right(jobs[i], results[i])
      ensures hashtable != null ==> TableTrue()
    {
      results := [];
      for k := 0 to |jobs|
        invariant Valid() && nodealloc.next == 0 && |results| == k && (hashtable != null ==> TableTrue())
        invariant forall i :: 0 <= i < k ==> Right(jobs[i], results[i])
      {
        var score := QuiesceJob(jobs[k]);
        results := results + [score];
      }
    }

    // ---- Full-width search ------------------------------------------------------------------

    // No table, an evaluation that agrees with the static value, and nothing pruned since.
    ghost predicate PlainSince(was: int)
      reads this
    {
      hashtable == null && EvalOk(g) && Pruned() == was
    }

    method SearchBelow(child: Node, ply: nat, depth: int, alpha: int, beta: int) returns (score: int)
      requires Ready(child, ply + 1) && Window(alpha, beta) && depth > 0 && ply + depth <= MAXDEPTH
      requires (depth > 1 ==> child.Relistable(g)) && child.parent != null
      modifies this, nodealloc, child, nodealloc.Unused(), TableFrame()
      ensures GuardsOff(g, alpha, beta) ==> Pruned() == old(Pruned())
      ensures Ready(child, ply + 1) && child.pos == old(child.pos)
      ensures child.parent == old(child.parent) && (depth > 1 ==> child.Relistable(g))
      ensures alpha <= score <= beta && Pruned() >= old(Pruned())
      ensures oddStores >= old(oddStores)
      ensures Clean(old(Start())) ==> TableFair() && Shows(child.pos, depth - 1, ply + 1, -beta, -alpha, -score)
      decreases Depth(depth), 0
    {
      GuardsOffWithin(g, alpha, beta, -beta, -alpha);
      score := SearchNode(child, ply + 1, depth - 1, -beta, -alpha);
      score := -score;
    }

    // The principal variation search of one child: a null window first, if asked to, and the full
    // window if that fails high.
    method SearchChild(child: Node, ply: nat, depth: int, alpha: int, beta: int, nullwin: bool) returns (score: int)
      requires Ready(child, ply + 1) && Window(alpha, beta) && depth > 0 && ply + depth <= MAXDEPTH
      requires child.Relistable(g) && child.parent != null
      modifies this, nodealloc, child, nodealloc.Unused(), TableFrame()
      ensures GuardsOff(g, alpha, beta) ==> Pruned() == old(Pruned())
      ensures Ready(child, ply + 1) && alpha <= score <= beta && Pruned() >= old(Pruned())
      ensures oddStores >= old(oddStores)
      ensures Clean(old(Start())) ==> TableFair() && Shows(old(child.pos), depth - 1, ply + 1, -beta, -alpha, -score)
      ensures PlainSince(old(Pruned())) ==> score == Clamp(-Value(g, old(child.pos), depth - 1, ply + 1), alpha, beta)
      decreases Depth(depth), 1
    {
      if nullwin {
        GuardsOffWithin(g, alpha, beta, alpha, alpha + 1);
        score := SearchBelow(child, ply, depth, alpha, alpha + 1);
        if alpha < score < beta {
          score := SearchBelow(child, ply, depth, alpha, beta);
        }
      } else {
        score := SearchBelow(child, ply, depth, alpha, beta);
      }
      ShownIsValue(g, child.pos, depth - 1, ply + 1, -beta, -alpha, -score);
    }

    // Make one move, search the child unless it is futile, keep it if it is the best.
    method FullMove(node: Node, mov: Move, ply: nat, depth: int, bestscore: int, alpha: int, beta: int, nullwin: bool,
                    fprune: bool)
      returns (legal: bool, searched: bool, score: int)
      requires Ready(node, ply) && Window(alpha, beta) && depth > 0 && ply + depth <= MAXDEPTH
      modifies this, nodealloc, node`bestLine, nodealloc.Unused(), TableFrame()
      ensures GuardsOff(g, alpha, beta) && !fprune ==> Pruned() == old(Pruned())
      ensures Ready(node, ply) && legal == LegalMove(g, node.pos, mov) && (searched ==> legal && alpha <= score <= beta)
      ensures Pruned() >= old(Pruned()) + if legal && !searched then 1 else 0
      ensures legal && !searched <==> legal && fprune && !g.inCheck(node.pos) && !g.inCheck(g.child(node.pos, mov))
                                      && !mov.IsCapture() && !mov.EnPassant? && !mov.IsPromotion()
      ensures oddStores >= old(oddStores)
      ensures Clean(old(Start())) ==>
                TableFair() && (searched ==> MoveShown(g, hashtable != null, node.pos, mov, depth - 1, ply, alpha, beta, score))
      ensures if searched && score > bestscore then node.BestMove() == Some(mov) else node.bestLine == old(node.bestLine)
      decreases Depth(depth), 2
    {
      var child := node.MakeMove(g, mov, nodealloc);
      legal, searched, score := LegalMove(g, node.pos, mov), false, 0;
      if legal {
        if fprune && !g.inCheck(node.pos) && !g.inCheck(child.pos) && !mov.IsCapture() && !mov.EnPassant? && !mov.IsPromotion() {
          statFutcut := statFutcut + 1;
        } else {
          searched := true;
          score := SearchChild(child, ply, depth, alpha, beta, nullwin);
          if score > bestscore {
            node.SetBest(mov, child);
          }
        }
      }
      nodealloc.Free(child);
    }

    // The best move recorded at a node is worth at least s.
    ghost predicate BestShown(node: Node, all: seq<Move>, depth: nat, ply: nat, s: int)
      reads node
    {
      && node.BestMove().Some? && node.BestMove().value in all
      && Reaches(g, hashtable != null, node.pos, node.BestMove().value, depth, ply, s)
    }

    // The first n moves of the list have raised alpha to what the best of them is worth, and that one is recorded.
    ghost predicate LoopShown(node: Node, n: nat, depth: nat, ply: nat, floor: int, alpha: int, bestscore: int)
      requires n <= |node.movelist|
      reads node
    {
      && NoneAbove(g, hashtable != null, node.pos, node.movelist, n, depth, ply, alpha)
      && (alpha > floor ==> bestscore == alpha && BestShown(node, g.moves(node.pos), depth, ply, alpha))
    }

    // One round of the move loop of search.
    method FullRound(node: Node, mov: Move, ply: nat, depth: int, best: int, was: nat, first: bool, fprune: bool, floor: int,
                     low: int, beta: int, ghost start: int)
      returns (cut: bool, alpha: int, bestscore: int, moves: nat, next: bool)
      requires Ready(node, ply) && Window(low, beta) && depth > 0 && ply + depth <= MAXDEPTH
      requires node.Picked(Some(mov)) && g.draw(node.pos) == None && multiset(node.movelist) == multiset(g.moves(node.pos))
      requires best <= low && floor <= low && start <= Flaws()
      requires was == 0 <==> NoneLegal(g, node.pos, node.movelist, node.current, depth - 1, ply)
      requires Clean(start) ==> TableFair() && LoopShown(node, node.current, depth - 1, ply, floor, low, best)
      modifies this, nodealloc, node`bestLine, nodealloc.Unused(), TableFrame()
      ensures GuardsOff(g, low, beta) && !fprune ==> Pruned() == old(Pruned())
      ensures Ready(node, ply) && low <= alpha <= beta && cut == (alpha >= beta)
      ensures bestscore <= alpha && Pruned() >= old(Pruned())
      ensures oddStores >= old(oddStores)
      ensures moves == 0 <==> NoneLegal(g, node.pos, node.movelist, node.current + 1, depth - 1, ply)
      ensures Clean(start) ==> TableFair() && if cut then BestShown(node, g.moves(node.pos), depth - 1, ply, beta)
                                              else LoopShown(node, node.current + 1, depth - 1, ply, floor, alpha, bestscore)
      ensures cut ==> moves > 0
      decreases Depth(depth), 3
    {
      ghost var p, list, n := node.pos, node.movelist, node.current;
      alpha, bestscore, moves, next := low, best, was, first;
      assert mov in list;
      SameMoves(list, g.moves(p));
      LegalOneMore(g, p, list, n, depth - 1, ply);
      var nullwin := (pvsMode == 1 && !first) || (pvsMode == 2 && alpha > floor);
      var legal, searched, score := FullMove(node, mov, ply, depth, best, low, beta, nullwin, fprune);
      if Clean(start) { OneMoreShown(g, hashtable != null, p, list, n, depth - 1, ply, low, beta, score); }
      if legal {
        moves := moves + 1;
      }
      if searched {
        next := false;
        bestscore := Max(bestscore, score);
        alpha := Max(alpha, score);
        if score >= beta {
          statCut := statCut + 1;
        }
      }
      cut := alpha >= beta;
    }

    // The state of the move loop of search before a round.
    ghost predicate FullSoFar(node: Node, mov: Option<Move>, ply: nat, depth: int, floor: int, alpha: int, bestscore: int,
                              moves: nat, start: int)
      requires node.Picked(mov) && depth > 0 && ply + depth < MAXPLY
      reads this, node
    {
      var p, list, n := node.pos, node.movelist, Done(node, mov);
      && (moves == 0 <==> NoneLegal(g, p, list, n, depth - 1, ply))
      && (Clean(start) ==> LoopShown(node, n, depth - 1, ply, floor, alpha, bestscore))
    }

    method FullStep(node: Node, mov0: Move, ply: nat, depth: int, best: int, was: nat, first0: bool, fprune: bool, floor: int,
                    low: int, beta: int, ghost start: int)
      returns (cut: bool, alpha: int, bestscore: int, moves: nat, first: bool, mov: Option<Move>)
      requires Ready(node, ply) && Window(low, beta) && depth > 0 && ply + depth <= MAXDEPTH
      requires node.Picked(Some(mov0)) && g.draw(node.pos) == None && multiset(node.movelist) == multiset(g.moves(node.pos))
      requires best <= low && floor <= low && start <= Flaws()
      requires FullSoFar(node, Some(mov0), ply, depth, floor, low, best, was, start) && (Clean(start) ==> TableFair())
      modifies this, nodealloc, node`movelist, node`scores, node`current, node`bestLine, nodealloc.Unused(), TableFrame()
      ensures GuardsOff(g, low, beta) && !fprune ==> Pruned() == old(Pruned())
      ensures Ready(node, ply) && low <= alpha <= beta && cut == (alpha >= beta)
      ensures bestscore <= alpha && Pruned() >= old(Pruned())
      ensures oddStores >= old(oddStores)
      ensures node.Picked(mov) && multiset(node.movelist) == multiset(g.moves(node.pos))
      ensures cut ==> moves > 0
      ensures Clean(start) ==> TableFair() && (cut ==> BestShown(node, g.moves(node.pos), depth - 1, ply, beta))
      ensures !cut ==> FullSoFar(node, mov, ply, depth, floor, alpha, bestscore, moves, start)
      ensures !cut ==> |node.movelist| - Done(node, mov) < old(|node.movelist| - Done(node, Some(mov0)))
      decreases Depth(depth), 4
    {
      cut, alpha, bestscore, moves, first := FullRound(node, mov0, ply, depth, best, was, first0, fprune, floor, low, beta, start);
      mov := Some(mov0);
      if !cut {
        mov := FullNext(node, ply, depth, floor, alpha, bestscore, moves, start);
      }
    }

    method FullNext(node: Node, ply: nat, depth: int, floor: int, alpha: int, bestscore: int, moves: nat, ghost start: int)
      returns (mov: Option<Move>)
      requires node.Listed() && 0 <= node.current < |node.movelist| && depth > 0 && ply + depth <= MAXDEPTH
      requires moves == 0 <==> NoneLegal(g, node.pos, node.movelist, node.current + 1, depth - 1, ply)
      requires Clean(start) ==> LoopShown(node, node.current + 1, depth - 1, ply, floor, alpha, bestscore)
      modifies node`movelist, node`scores, node`current
      ensures node.Picked(mov) && multiset(node.movelist) == old(multiset(node.movelist))
      ensures FullSoFar(node, mov, ply, depth, floor, alpha, bestscore, moves, start)
      ensures |node.movelist| - Done(node, mov) == old(|node.movelist| - node.current) - 1
    {
      ghost var list, n := node.movelist, node.current + 1;
      mov := node.Next();
      assert |node.movelist| == |list| by { assert |multiset(list)| == |multiset(node.movelist)|; }
      assert node.movelist[..n] == list[..n];
      if Clean(start) { SameStart(g, hashtable != null, node.pos, list, node.movelist, n, depth - 1, ply, alpha); }
    }

    method FullLoop(node: Node, mov0: Option<Move>, ply: nat, depth: int, floor: int, beta: int, fprune: bool, ghost start: int)
      returns (alpha: int, moves: nat)
      requires Ready(node, ply) && Window(floor, beta) && depth > 0 && ply + depth <= MAXDEPTH
      requires node.Picked(mov0) && (if mov0.Some? then node.current == 0 else node.movelist == [])
      requires g.draw(node.pos) == None && multiset(node.movelist) == multiset(g.moves(node.pos)) && start <= Flaws()
      requires Clean(start) ==> TableFair()
      modifies this, nodealloc, node`movelist, node`scores, node`current, node`bestLine, nodealloc.Unused(), TableFrame()
      ensures GuardsOff(g, floor, beta) && !fprune ==> Pruned() == old(Pruned())
      ensures Ready(node, ply) && floor <= alpha <= beta && Pruned() >= old(Pruned())
      ensures oddStores >= old(oddStores)
      ensures node.Relistable(g) && multiset(node.movelist) == multiset(g.moves(node.pos))
      ensures alpha >= beta ==> moves > 0
      ensures alpha < beta ==> (moves == 0 <==> NoneLegal(g, node.pos, node.movelist, |node.movelist|, depth - 1, ply))
      ensures Clean(start) ==>
                && TableFair() && (alpha > floor ==> BestShown(node, g.moves(node.pos), depth - 1, ply, alpha))
                && (alpha < beta ==> NoneAbove(g, hashtable != null, node.pos, node.movelist, |node.movelist|, depth - 1, ply, alpha))
      decreases Depth(depth), 5
    {
      alpha, moves := floor, 0;
      var bestscore := -INFTY;
      var first, cut := true, false;
      var mov := mov0;
      NothingSearched(g, node.pos, node.movelist, depth - 1, ply, alpha);
      while mov.Some? && !cut
        invariant Ready(node, ply) && node.Picked(mov) && multiset(node.movelist) == multiset(g.moves(node.pos))
        invariant GuardsOff(g, floor, beta) && !fprune ==> Pruned() == old(Pruned())
        invariant floor <= alpha <= beta && cut == (alpha >= beta) && bestscore <= alpha && Pruned() >= old(Pruned())
        invariant oddStores >= old(oddStores)
        invariant cut ==> moves > 0
        invariant Clean(start) ==> TableFair() && (cut ==> BestShown(node, g.moves(node.pos), depth - 1, ply, beta))
        invariant !cut ==> FullSoFar(node, mov, ply, depth, floor, alpha, bestscore, moves, start)
        decreases !cut, |node.movelist| - Done(node, mov)
      {
        cut, alpha, bestscore, moves, first, mov :=
          FullStep(node, mov.value, ply, depth, bestscore, moves, first, fprune, floor, alpha, beta, start);
      }
    }

    ghost predicate NullTried(node: Node)
      requires node.parent != null
      reads node, node.parent
    {
      !g.inCheck(node.pos) && node.parent.played != Some(NullMove) && !g.endgame(node.pos)
    }

    // When the side to move passes, what follows is worth at least beta, or less than beta, searched three plies
    // less deep.
    ghost predicate NullShown(node: Node, depth: nat, ply: nat, beta: int, cut: bool)
      reads node
    {
      var q := g.child(node.pos, NullMove);
      if cut then AtMost(g, hashtable != null, q, Depth(depth - 3), ply + 1, -beta)
      else AtLeast(g, hashtable != null, q, Depth(depth - 3), ply + 1, -beta + 1)
    }

    // Null-move pruning: let the opponent move twice, at reduced depth.
    method NullMoveCuts(node: Node, ply: nat, depth: int, low: int, beta: int) returns (cut: bool)
      requires Ready(node, ply) && Window(low, beta) && depth > 0 && ply + depth <= MAXDEPTH && node.parent != null
      modifies this, nodealloc, nodealloc.Unused(), TableFrame()
      ensures GuardsOff(g, low, beta) ==> Pruned() == old(Pruned())
      ensures Ready(node, ply) && Pruned() >= old(Pruned()) + if cut then 1 else 0
      ensures oddStores >= old(oddStores) && (cut ==> old(NullTried(node)))
      ensures Clean(old(Start()) + if cut then 1 else 0) && old(TableFair()) ==>
                TableFair() && (old(NullTried(node)) ==> NullShown(node, depth, ply, beta, cut))
      decreases Depth(depth), 2
    {
      cut := false;
      GuardsOffAt(g, low, beta, node.pos);
      var nullOk := node.parent.played != Some(NullMove) && !g.endgame(node.pos);
      if !g.inCheck(node.pos) && nullOk {
        var child := node.MakeMove(g, NullMove, nodealloc);
        var score := SearchNode(child, ply + 1, depth - 2 - 1, -beta, -beta + 1);
        score := -score;
        nodealloc.Free(child);
        if score >= beta {
          statNullcut := statNullcut + 1;
          cut := true;
        }
      }
    }

    // Internal iterative deepening: a shallower search for a move to begin with.
    method DeepenInternally(node: Node, ply: nat, depth: int, low: int, beta: int)
      requires Ready(node, ply) && Window(low, beta) && depth > 0 && ply + depth <= MAXDEPTH && node.parent != null
      requires node.Relistable(g)
      modifies this, nodealloc, node, nodealloc.Unused(), TableFrame()
      ensures GuardsOff(g, low, beta) ==> Pruned() == old(Pruned())
      ensures Ready(node, ply) && Pruned() >= old(Pruned())
      ensures oddStores >= old(oddStores) && node.Relistable(g)
      ensures node.pos == old(node.pos) && node.parent == old(node.parent)
      ensures Clean(old(Start())) ==> TableFair()
      decreases Depth(depth), 2
    {
      if node.pvline == [] && node.hashmv == None && depth > 2 {
        var _ := SearchNode(node, ply, depth - 2, low, beta);
        node.hashmv := node.BestMove();
      }
    }

    // Razoring and futility pruning.
    method Shorten(node: Node, depth0: int, low: int) returns (depth: int, fprune: bool)
      requires depth0 > 0
      modifies `statRazcut, `statXfutcut
      ensures low < g.material(node.pos) + 300 ==> !fprune && Pruned() == old(Pruned())
      ensures depth == Shortened(g.material(node.pos), depth0, low).depth
      ensures fprune == Shortened(g.material(node.pos), depth0, low).fprune
      ensures 0 < depth <= depth0 && Pruned() >= old(Pruned()) + if depth < depth0 then 1 else 0
    {
      var r := Shortened(g.material(node.pos), depth0, low);
      if r.razored {
        statRazcut := statRazcut + 1;
      }
      if r.extended {
        statXfutcut := statXfutcut + 1;
      }
      depth, fprune := r.depth, r.fprune;
    }

    // The move loop of a full-width node and its test for mate and stalemate show what the result says.
    lemma FullLoopShown(node: Node, ply: nat, depth: nat, low: int, alpha: int, beta: int, moves: nat)
      requires depth > 0 && ply + depth < MAXPLY && g.draw(node.pos) == None && low <= alpha <= beta && low < beta
      requires multiset(node.movelist) == multiset(g.moves(node.pos))
      requires (alpha >= beta ==> moves > 0) && (alpha > low ==> BestShown(node, g.moves(node.pos), depth - 1, ply, alpha))
      requires alpha < beta ==>
                 && (moves == 0 <==> NoneLegal(g, node.pos, node.movelist, |node.movelist|, depth - 1, ply))
                 && NoneAbove(g, hashtable != null, node.pos, node.movelist, |node.movelist|, depth - 1, ply, alpha)
      ensures Shows(node.pos, depth, ply, low, beta,
                    if moves == 0 then Clamp(if g.inCheck(node.pos) then -INFTY + ply else DRAW, alpha, beta) else alpha)
      ensures moves == 0 ==> Over(g, node.pos, depth)
    {
      var p, list := node.pos, node.movelist;
      SameMoves(list, g.moves(p));
      NoneIsOver(g, p, depth, ply);
      SearchedToEnd(g, p, list, g.moves(p), depth - 1, ply);
      if alpha >= beta {
        CutShown(g, hashtable != null, p, depth, ply, low, beta, node.BestMove().value, alpha);
      } else {
        FullShown(g, hashtable != null, p, list, depth, ply, low, alpha, beta, node.BestMove());
      }
    }

    // The moves of a full-width node searched to a depth, and its test for checkmate and stalemate.
    method FullMovesAt(node: Node, ply: nat, depth: int, low: int, beta: int, fprune: bool, ghost start: int) returns (alpha: int)
      requires Ready(node, ply) && Window(low, beta) && depth > 0 && ply + depth <= MAXDEPTH
      requires node.Relistable(g) && node.kind == FullWidth && g.draw(node.pos) == None
      requires start <= Flaws() && (Clean(start) ==> TableFair())
      modifies this, nodealloc, node, nodealloc.Unused(), TableFrame()
      ensures GuardsOff(g, low, beta) && !fprune ==> Pruned() == old(Pruned())
      ensures Ready(node, ply) && node.pos == old(node.pos) && node.parent == old(node.parent) && node.Relistable(g)
      ensures low <= alpha <= beta && Pruned() >= old(Pruned())
      ensures oddStores >= old(oddStores)
      ensures Clean(start) ==>
                && TableFair() && Shows(node.pos, depth, ply, low, beta, alpha)
                && (low < alpha < beta && !Over(g, node.pos, depth) ==> BestShown(node, g.moves(node.pos), depth - 1, ply, alpha))
      decreases Depth(depth), 6
    {
      var mov := node.First(g);
      var moves;
      alpha, moves := FullLoop(node, mov, ply, depth, low, beta, fprune, start);
      if Clean(start) { FullLoopShown(node, ply, depth, low, alpha, beta, moves); }
      if moves == 0 {
        var matescore := if g.inCheck(node.pos) then -INFTY + ply else DRAW;
        alpha := Clamp(matescore, alpha, beta);
      }
    }

    // The slot of the node holds its result, as one of a search of this depth.
    ghost predicate StoredFor(node: Node, low: int, beta: int, score: int, depth: int)
      reads node, TableFrame()
    {
      && hashtable != null && hashtable.Valid()
      && hashtable.table[g.key(node.pos) % hashtable.table.Length] == Some(Entry(node, depth, low, beta, score))
    }

    // The result is stored with the depth that is left after shortening.
    method FullMoves(node: Node, ply: nat, depth0: int, low: int, beta: int, ghost start: int) returns (alpha: int)
      requires Ready(node, ply) && Window(low, beta) && depth0 > 0 && ply + depth0 <= MAXDEPTH
      requires node.Relistable(g) && node.kind == FullWidth && g.draw(node.pos) == None
      requires start <= Flaws() && (Clean(start) ==> TableFair())
      modifies this, nodealloc, node, nodealloc.Unused(), TableFrame()
      ensures GuardsOff(g, low, beta) ==> Pruned() == old(Pruned())
      ensures Ready(node, ply) && node.pos == old(node.pos) && node.parent == old(node.parent) && node.Relistable(g)
      ensures low <= alpha <= beta && Pruned() >= old(Pruned())
      ensures oddStores >= old(oddStores)
      ensures hashtable != null ==> StoredFor(node, low, beta, alpha, Shortened(g.material(node.pos), depth0, low).depth)
      ensures Clean(start) ==>
                && TableFair() && Shows(node.pos, depth0, ply, low, beta, alpha)
                && (low < alpha < beta && !Over(g, node.pos, depth0) ==> BestShown(node, g.moves(node.pos), depth0 - 1, ply, alpha))
      decreases Depth(depth0), 7
    {
      GuardsOffAt(g, low, beta, node.pos);
      var depth, fprune := Shorten(node, depth0, low);
      alpha := FullMovesAt(node, ply, depth, low, beta, fprune, start);
      StoreHashtable(node, depth, low, beta, alpha, ply);
    }

    // Fail-hard principal variation search. The result is always inside the window. Without a
    // table, and when nothing was pruned, it is the negamax value bounded to the window, in every
    // PVS mode and whatever the order of the moves; and if it lies strictly inside the window, the
    // best move recorded at the node has exactly this score.
    method SearchNode(node: Node, ply: nat, depth: int, low: int, beta: int) returns (score: int)
      requires Ready(node, ply) && Window(low, beta) && ply + Depth(depth) <= MAXDEPTH
      requires (depth > 0 ==> node.Relistable(g)) && node.parent != null
      modifies this, nodealloc, node, nodealloc.Unused(), TableFrame()
      ensures GuardsOff(g, low, beta) ==> Pruned() == old(Pruned())
      ensures Ready(node, ply) && node.pos == old(node.pos) && node.parent == old(node.parent)
      ensures depth > 0 ==> node.Relistable(g)
      ensures low <= score <= beta && Pruned() >= old(Pruned())
      ensures oddStores >= old(oddStores)
      ensures Clean(old(Start())) ==> TableFair() && Shows(node.pos, Depth(depth), ply, low, beta, score)
      ensures PlainSince(old(Pruned())) ==> score == Clamp(Value(g, node.pos, depth, ply), low, beta)
      ensures PlainSince(old(Pruned())) && depth > 0 && g.draw(node.pos) == None && low < score < beta
              && Best(g, node.pos, g.moves(node.pos), depth - 1, ply).Some?
              ==> BestAttains(g, node.pos, node.BestMove(), depth - 1, ply, score)
      decreases Depth(depth), 10
    {
      if depth <= 0 {
        score := QuiescenceSearch(node, ply, low, beta);
      } else {
        score := SearchFull(node, ply, depth, low, beta);
      }
      ShownIsValue(g, node.pos, Depth(depth), ply, low, beta, score);
    }

    // search above depth 0.
    method SearchFull(node: Node, ply: nat, depth: int, low: int, beta: int) returns (score: int)
      requires Ready(node, ply) && Window(low, beta) && depth > 0 && ply + depth <= MAXDEPTH
      requires node.Relistable(g) && node.parent != null
      modifies this, nodealloc, node, nodealloc.Unused(), TableFrame()
      ensures GuardsOff(g, low, beta) ==> Pruned() == old(Pruned())
      ensures Ready(node, ply) && node.pos == old(node.pos) && node.parent == old(node.parent) && node.Relistable(g)
      ensures low <= score <= beta && Pruned() >= old(Pruned()) && oddStores >= old(oddStores)
      ensures Clean(old(Start())) ==> TableFair() && Shows(node.pos, depth, ply, low, beta, score)
      ensures PlainSince(old(Pruned())) && g.draw(node.pos) == None && low < score < beta
              && Best(g, node.pos, g.moves(node.pos), depth - 1, ply).Some?
              ==> BestAttains(g, node.pos, node.BestMove(), depth - 1, ply, score)
      decreases Depth(depth), 9
    {
      if g.draw(node.pos).Some? {
        DrawShown(g, hashtable != null, node.pos, depth, ply, low, beta);
        return Clamp(g.draw(node.pos).value, low, beta);
      }
      nodesFullwidth := nodesFullwidth + 1;
      if ply > maxplyFullwidth {
        maxplyFullwidth := ply;
      }
      var hit;
      hit, score := ProbeHashtable(node, depth, low, beta, ply);
      if hit {
        return;
      }
      score := SearchOn(node, ply, depth, low, beta);
    }

    // Without a table, the best move attains a result strictly inside the window.
    lemma BestShownAttains(node: Node, ply: nat, depth: nat, low: int, beta: int, score: int)
      requires depth > 0 && ply + depth < MAXPLY && g.draw(node.pos) == None && low < score < beta && hashtable == null
      requires BestShown(node, g.moves(node.pos), depth - 1, ply, score)
      requires Shows(node.pos, depth, ply, low, beta, score)
      ensures BestAttains(g, node.pos, node.BestMove(), depth - 1, ply, score)
    {
      var p, m := node.pos, node.BestMove().value;
      ShownIsValue(g, p, depth, ply, low, beta, score);
      BoundsOfValue(g, g.child(p, m), depth - 1, ply + 1, -score);
      BestIsUpperBound(g, p, g.moves(p), depth - 1, ply, m);
    }

    // The part of search after its immediate results.
    method SearchOn(node: Node, ply: nat, depth: int, low: int, beta: int) returns (score: int)
      requires Ready(node, ply) && Window(low, beta) && depth > 0 && ply + depth <= MAXDEPTH
      requires node.Relistable(g) && node.parent != null && g.draw(node.pos) == None
      modifies this, nodealloc, node, nodealloc.Unused(), TableFrame()
      ensures GuardsOff(g, low, beta) ==> Pruned() == old(Pruned())
      ensures Ready(node, ply) && node.pos == old(node.pos) && node.parent == old(node.parent) && node.Relistable(g)
      ensures low <= score <= beta && Pruned() >= old(Pruned())
      ensures oddStores >= old(oddStores)
      ensures Clean(old(Start())) ==> TableFair() && Shows(node.pos, depth, ply, low, beta, score)
      ensures PlainSince(old(Pruned())) && low < score < beta && Best(g, node.pos, g.moves(node.pos), depth - 1, ply).Some?
              ==> BestAttains(g, node.pos, node.BestMove(), depth - 1, ply, score)
      decreases Depth(depth), 8
    {
      ghost var start := Start();
      NoneIsOver(g, node.pos, depth, ply);
      var cut := NullMoveCuts(node, ply, depth, low, beta);
      if cut {
        return beta;
      }
      DeepenInternally(node, ply, depth, low, beta);
      node.kind := FullWidth;
      score := FullMoves(node, ply, depth, low, beta, start);
      if PlainSince(old(Pruned())) && low < score < beta && !Over(g, node.pos, depth) {
        BestShownAttains(node, ply, depth, low, beta, score);
      }
    }

    // ---- The root ---------------------------------------------------------------------------

    // The same, where static values also leave room for the mate scores.
    ghost predicate PlainRoot(was: int)
      reads this
    {
      Sane(g) && PlainSince(was)
    }

    ghost predicate CleanRoot(start: int)
      reads this
    {
      Sane(g) && Clean(start)
    }

    // The root node holds exactly the legal moves, as init_root left them, and one of them is the best so far.
    ghost predicate RootReady(node: Node)
      reads nodealloc, node
    {
      && Ready(node, 0) && node.kind == Root && node.parent != null && |node.scores| == |node.movelist| > 0
      && ListsLegal(g, node.pos, node.movelist) && node.BestMove().Some? && node.BestMove().value in node.movelist
    }

    // Make and search one move of the root, and keep its score for the next iteration.
    method RootMove(node: Node, mov: Move, depth: int, best: int, low: int, beta: int, nullwin: bool) returns (score: int)
      requires RootReady(node) && Window(low, beta) && 0 < depth <= MAXDEPTH && node.Pointed(Some(mov))
      modifies this, nodealloc, node`bestLine, node`scores, nodealloc.Unused(), TableFrame()
      ensures GuardsOff(g, low, beta) ==> Pruned() == old(Pruned())
      ensures RootReady(node) && low <= score <= beta && Pruned() >= old(Pruned())
      ensures oddStores >= old(oddStores)
      ensures node.scores == old(node.scores)[node.current := score]
      ensures if score > best then node.BestMove() == Some(mov) else node.bestLine == old(node.bestLine)
      ensures Clean(old(Start())) ==> TableFair() && MoveShown(g, hashtable != null, node.pos, mov, depth - 1, 0, low, beta, score)
    {
      var child := node.MakeMove(g, mov, nodealloc);
      score := SearchChild(child, 0, depth, low, beta, nullwin);
      node.scores := node.scores[node.current := score];
      if score > best {
        node.SetBest(mov, child);
      }
      nodealloc.Free(child);
    }

    // The state of the move loop of search_root after n moves.
    ghost predicate RootSoFar(node: Node, n: nat, depth: int, floor: int, alpha: int, bestscore: int)
      requires n <= |node.movelist| && 0 < depth <= MAXDEPTH
      reads node
    {
      && node.Scored() && NoneAbove(g, hashtable != null, node.pos, node.movelist, n, depth - 1, 0, alpha)
      && (alpha > floor ==> bestscore == alpha && BestShown(node, g.all(node.pos), depth - 1, 0, alpha))
    }

    ghost predicate RootAfter(node: Node, n: nat, depth: int, floor: int, alpha: int, bestscore: int, beta: int, cut: bool)
      requires n <= |node.movelist| && 0 < depth <= MAXDEPTH
      reads node
    {
      if cut then node.Scored() && BestShown(node, g.all(node.pos), depth - 1, 0, beta)
      else RootSoFar(node, n, depth, floor, alpha, bestscore)
    }

    method RootRound(node: Node, mov: Move, depth: int, best: int, first: bool, floor: int, low: int, beta: int, ghost start: int)
      returns (cut: bool, alpha: int, bestscore: int)
      requires RootReady(node) && Window(low, beta) && 0 < depth <= MAXDEPTH
      requires node.Pointed(Some(mov)) && best <= low && floor <= low && start <= Flaws()
      requires CleanRoot(start) ==> TableFair() && RootSoFar(node, node.current, depth, floor, low, best)
      modifies this, nodealloc, node`bestLine, node`scores, nodealloc.Unused(), TableFrame()
      ensures GuardsOff(g, low, beta) ==> Pruned() == old(Pruned())
      ensures RootReady(node) && node.Sized()
      ensures low <= alpha <= beta && cut == (alpha >= beta) && bestscore <= alpha && Pruned() >= old(Pruned())
      ensures oddStores >= old(oddStores)
      ensures CleanRoot(start) ==> TableFair() && RootAfter(node, node.current + 1, depth, floor, alpha, bestscore, beta, cut)
    {
      ghost var p, list, n := node.pos, node.movelist, node.current;
      assert list[n] in list;
      var nullwin := (pvsMode == 1 && !first) || (pvsMode == 2 && low > floor);
      var score := RootMove(node, mov, depth, best, low, beta, nullwin);
      if CleanRoot(start) {
        OneMoreShown(g, hashtable != null, p, list, n, depth - 1, 0, low, beta, score);
        ScoreIsSeen(g, hashtable != null, p, mov, depth - 1, 0, low, beta, score);
      }
      bestscore := Max(best, score);
      alpha := Max(low, score);
      if score >= beta {
        statCut := statCut + 1;
      }
      cut := alpha >= beta;
    }

    method RootStep(node: Node, mov0: Move, depth: int, best: int, first: bool, floor: int, low: int, beta: int, ghost start: int)
      returns (cut: bool, alpha: int, bestscore: int, mov: Option<Move>)
      requires RootReady(node) && Window(low, beta) && 0 < depth <= MAXDEPTH
      requires node.Pointed(Some(mov0)) && best <= low && floor <= low && start <= Flaws()
      requires CleanRoot(start) ==> TableFair() && RootSoFar(node, node.current, depth, floor, low, best)
      modifies this, nodealloc, node, nodealloc.Unused(), TableFrame()
      ensures GuardsOff(g, low, beta) ==> Pruned() == old(Pruned())
      ensures RootReady(node) && node.pos == old(node.pos)
      ensures low <= alpha <= beta && cut == (alpha >= beta) && bestscore <= alpha && Pruned() >= old(Pruned())
      ensures oddStores >= old(oddStores)
      ensures CleanRoot(start) ==> TableFair()
      ensures cut && CleanRoot(start) ==> node.Scored() && BestShown(node, g.all(node.pos), depth - 1, 0, beta)
      ensures !cut ==> node.Pointed(mov) && |node.movelist| == old(|node.movelist|)
      ensures !cut && mov.Some? ==> node.current == old(node.current) + 1
      ensures !cut && CleanRoot(start) ==>
                node.Picked(mov) && RootSoFar(node, Done(node, mov), depth, floor, alpha, bestscore)
    {
      cut, alpha, bestscore := RootRound(node, mov0, depth, best, first, floor, low, beta, start);
      mov := Some(mov0);
      if !cut {
        mov := RootNext(node, depth, floor, alpha, bestscore);
      }
    }

    method RootNext(node: Node, depth: int, ghost floor: int, ghost alpha: int, ghost bestscore: int) returns (mov: Option<Move>)
      requires RootReady(node) && node.Sized() && 0 <= node.current && 0 < depth <= MAXDEPTH
      modifies node`movelist, node`scores, node`current
      ensures RootReady(node) && node.Pointed(mov) && |node.movelist| == old(|node.movelist|)
      ensures mov.Some? ==> node.current == old(node.current) + 1
      ensures old(RootSoFar(node, node.current + 1, depth, floor, alpha, bestscore)) ==>
                node.Picked(mov) && RootSoFar(node, Done(node, mov), depth, floor, alpha, bestscore)
    {
      ghost var list, n := node.movelist, node.current + 1;
      mov := node.Next();
      ListsLegalPermuted(g, node.pos, list, node.movelist);
      SameMoves(list, node.movelist);
      assert |node.movelist| == |list| by { assert |multiset(list)| == |multiset(node.movelist)|; }
      assert node.movelist[..n] == list[..n];
      if NoneAbove(g, hashtable != null, node.pos, list, n, depth - 1, 0, alpha) {
        SameStart(g, hashtable != null, node.pos, list, node.movelist, n, depth - 1, 0, alpha);
      }
    }

    // The move loop of search_root.
    method RootLoop(node: Node, depth: int, low: int, beta: int, ghost start: int) returns (alpha: int)
      requires RootReady(node) && Window(low, beta) && 0 < depth <= MAXDEPTH
      requires start <= Flaws() && (CleanRoot(start) ==> TableFair() && node.Scored())
      modifies this, nodealloc, node, nodealloc.Unused(), TableFrame()
      ensures GuardsOff(g, low, beta) ==> Pruned() == old(Pruned())
      ensures RootReady(node) && node.pos == old(node.pos) && low <= alpha <= beta && Pruned() >= old(Pruned())
      ensures oddStores >= old(oddStores)
      ensures CleanRoot(start) ==>
                && TableFair() && node.Scored() && RootShown(g, hashtable != null, node.pos, depth, low, beta, alpha)
                && (alpha > low ==> BestShown(node, g.all(node.pos), depth - 1, 0, alpha))
    {
      alpha := low;
      var bestscore := -INFTY;
      var first, cut := true, false;
      ghost var list := node.movelist;
      var mov := node.First(g);
      ListsLegalPermuted(g, node.pos, list, node.movelist);
      SameMoves(list, node.movelist);
      while mov.Some? && !cut
        invariant RootReady(node) && node.pos == old(node.pos) && (!cut ==> node.Pointed(mov))
        invariant GuardsOff(g, low, beta) ==> Pruned() == old(Pruned())
        invariant low <= alpha <= beta && cut == (alpha >= beta) && bestscore <= alpha && Pruned() >= old(Pruned())
        invariant oddStores >= old(oddStores)
        invariant CleanRoot(start) ==> TableFair()
        invariant cut && CleanRoot(start) ==> node.Scored() && BestShown(node, g.all(node.pos), depth - 1, 0, beta)
        invariant !cut && CleanRoot(start) ==>
                    node.Picked(mov) && RootSoFar(node, Done(node, mov), depth, low, alpha, bestscore)
        decreases !cut, mov.Some?, |node.movelist| - node.current
      {
        cut, alpha, bestscore, mov := RootStep(node, mov.value, depth, bestscore, first, low, alpha, beta, start);
        first := false;
      }
      if CleanRoot(start) { RootLoopShown(node, depth, low, alpha, beta); }
    }

    // search_root: the result is in the window and shows what it says of the root; without table and pruning it is
    // the value of the root bounded to the window, attained by the best move if strictly inside.
    method SearchRoot(node: Node, depth: int, low: int, beta: int, ghost start: int) returns (alpha: int)
      requires RootReady(node) && Window(low, beta) && 0 < depth <= MAXDEPTH
      requires start <= Flaws() && (CleanRoot(start) ==> TableFair() && node.Scored())
      modifies this, tally, nodealloc, node, nodealloc.Unused(), TableFrame()
      ensures tally.rootSearches == old(tally.rootSearches) + 1
      ensures GuardsOff(g, low, beta) ==> Pruned() == old(Pruned())
      ensures RootReady(node) && node.pos == old(node.pos) && low <= alpha <= beta
      ensures Pruned() >= old(Pruned()) && oddStores >= old(oddStores)
      ensures CleanRoot(start) ==>
                && TableFair() && node.Scored() && RootShown(g, hashtable != null, node.pos, depth, low, beta, alpha)
                && (alpha > low ==> BestShown(node, g.all(node.pos), depth - 1, 0, alpha))
      ensures PlainRoot(start) ==> alpha == Clamp(RootValue(g, node.pos, depth), low, beta)
      ensures PlainRoot(start) && low < alpha < beta ==> BestAttains(g, node.pos, node.BestMove(), depth - 1, 0, alpha)
    {
      tally.rootSearches := tally.rootSearches + 1;
      alpha := RootLoop(node, depth, low, beta, start);
      if PlainRoot(start) { RootIsValue(node, depth, low, alpha, beta); }
    }

    lemma RootLoopShown(node: Node, depth: int, low: int, alpha: int, beta: int)
      requires 0 < depth <= MAXDEPTH && low <= alpha <= beta && low < beta && ListsLegal(g, node.pos, node.movelist)
      requires alpha > low ==> BestShown(node, g.all(node.pos), depth - 1, 0, alpha)
      requires alpha < beta ==>
                 NoneAbove(g, hashtable != null, node.pos, node.movelist, |node.movelist|, depth - 1, 0, alpha)
      ensures RootShown(g, hashtable != null, node.pos, depth, low, beta, alpha)
    {
      if alpha < beta {
        forall m | m in g.all(node.pos) && LegalMove(g, node.pos, m)
          ensures AtLeast(g, hashtable != null, g.child(node.pos, m), depth - 1, 1, -alpha)
        {
          var k :| 0 <= k < |node.movelist| && node.movelist[k] == m;
        }
      }
      if alpha > low {
        assert node.BestMove().value in g.all(node.pos);
      }
    }

    // Without a table this is the bounded value, and the best move attains it.
    lemma RootIsValue(node: Node, depth: int, low: int, alpha: int, beta: int)
      requires 0 < depth <= MAXDEPTH && low <= alpha <= beta && low < beta && hashtable == null
      requires RootShown(g, false, node.pos, depth, low, beta, alpha) && exists m :: m in g.all(node.pos) && LegalMove(g, node.pos, m)
      requires alpha > low ==> BestShown(node, g.all(node.pos), depth - 1, 0, alpha)
      ensures alpha == Clamp(RootValue(g, node.pos, depth), low, beta)
      ensures low < alpha < beta ==> BestAttains(g, node.pos, node.BestMove(), depth - 1, 0, alpha)
    {
      RootBounds(g, node.pos, depth, alpha);
      if low < alpha < beta {
        var m := node.BestMove().value;
        BoundsOfValue(g, g.child(node.pos, m), depth - 1, 1, -alpha);
        BestIsUpperBound(g, node.pos, g.all(node.pos), depth - 1, 0, m);
      }
    }

    // ---- Iterative deepening with aspiration windows ----------------------------------------

    ghost predicate Verdicts(p: Pos, scores: seq<int>)
      requires |scores| <= MAXDEPTH
    {
      forall d :: 0 <= d < |scores| ==> Verdict(scores[d], RootValue(g, p, d + 1))
    }

    // The searches of one depth.
    method Widen(node: Node, depth: int, low0: int, beta0: int, ghost start: int) returns (score: int, searches: nat)
      requires RootReady(node) && Window(low0, beta0) && 0 < depth <= MAXDEPTH
      requires low0 < MATE && beta0 > -MATE && start <= Flaws() && (CleanRoot(start) ==> TableFair() && node.Scored())
      modifies this, tally, nodealloc, node, nodealloc.Unused(), TableFrame()
      ensures GuardsOff(g, -INFTY, INFTY) ==> Pruned() == old(Pruned())
      ensures RootReady(node) && node.pos == old(node.pos) && Pruned() >= old(Pruned())
      ensures oddStores >= old(oddStores)
      ensures 1 <= searches <= 3 && tally.rootSearches == old(tally.rootSearches) + searches
      ensures CleanRoot(start) ==>
                && TableFair() && node.Scored() && RootVerdict(g, hashtable != null, node.pos, depth, score)
                && (-MATE < score < MATE ==> BestShown(node, g.all(node.pos), depth - 1, 0, score))
    {
      var low, beta := low0, beta0;
      score := SearchRoot(node, depth, low, beta, start);
      searches := 1;
      while FailsLow(score, low) || FailsHigh(score, beta)
        invariant RootReady(node) && node.pos == old(node.pos) && Window(low, beta) && low < MATE && beta > -MATE
        invariant GuardsOff(g, -INFTY, INFTY) ==> Pruned() == old(Pruned())
        invariant low <= score <= beta && Pruned() >= old(Pruned())
        invariant oddStores >= old(oddStores)
        invariant CleanRoot(start) ==>
                    && TableFair() && node.Scored() && RootShown(g, hashtable != null, node.pos, depth, low, beta, score)
                    && (score > low ==> BestShown(node, g.all(node.pos), depth - 1, 0, score))
        invariant searches <= 1 + (if low == -INFTY then 1 else 0) + (if beta == INFTY then 1 else 0)
        invariant searches >= 1 && tally.rootSearches == old(tally.rootSearches) + searches
        decreases low > -INFTY, beta < INFTY
      {
        if FailsLow(score, low) {
          low := -INFTY;
        } else {
          beta := INFTY;
        }
        score := SearchRoot(node, depth, low, beta, start);
        searches := searches + 1;
      }
      if CleanRoot(start) { AcceptedIsShown(g, hashtable != null, node.pos, depth, low, beta, score); }
    }

    // One depth: search the root, and again with a wider window on a fail-low or a fail-high. At most
    // three searches are made, whatever the results are.
    method Aspire(node: Node, depth: int, low0: int, beta0: int, ghost start: int) returns (score: int, searches: nat)
      requires RootReady(node) && Window(low0, beta0) && 0 < depth <= MAXDEPTH
      requires low0 < MATE && beta0 > -MATE && start <= Flaws() && (CleanRoot(start) ==> TableFair() && node.Scored())
      modifies this, tally, nodealloc, node, nodealloc.Unused(), TableFrame()
      ensures GuardsOff(g, -INFTY, INFTY) ==> Pruned() == old(Pruned())
      ensures RootReady(node) && node.pos == old(node.pos) && Pruned() >= old(Pruned())
      ensures oddStores >= old(oddStores)
      ensures 1 <= searches <= 3 && tally.rootSearches == old(tally.rootSearches) + searches
      ensures CleanRoot(start) ==>
                && TableFair() && node.Scored() && RootVerdict(g, hashtable != null, node.pos, depth, score)
                && (-MATE < score < MATE ==> BestShown(node, g.all(node.pos), depth - 1, 0, score))
      ensures PlainRoot(start) ==> Verdict(score, RootValue(g, node.pos, depth))
      ensures PlainRoot(start) && -MATE < score < MATE ==> BestAttains(g, node.pos, node.BestMove(), depth - 1, 0, score)
    {
      score, searches := Widen(node, depth, low0, beta0, start);
      if PlainRoot(start) { VerdictIsValue(node, node.BestMove(), depth, score); }
    }

    // Without a table an accepted score is a true verdict, and the move that is worth it attains it.
    lemma VerdictIsValue(node: Node, best: Option<Move>, depth: int, score: int)
      requires 0 < depth <= MAXDEPTH && hashtable == null && exists m :: m in g.all(node.pos) && LegalMove(g, node.pos, m)
      requires RootVerdict(g, false, node.pos, depth, score)
      requires -MATE < score < MATE ==>
                 best.Some? && best.value in g.all(node.pos) && Reaches(g, false, node.pos, best.value, depth - 1, 0, score)
      ensures Verdict(score, RootValue(g, node.pos, depth))
      ensures -MATE < score < MATE ==> BestAttains(g, node.pos, best, depth - 1, 0, score)
    {
      RootBounds(g, node.pos, depth, score);
      RootBounds(g, node.pos, depth, MATE);
      RootBounds(g, node.pos, depth, -MATE);
      if -MATE < score < MATE {
        BoundsOfValue(g, g.child(node.pos, best.value), depth - 1, 1, -score);
        BestIsUpperBound(g, node.pos, g.all(node.pos), depth - 1, 0, best.value);
      }
    }

    // What is known after the iterations with these scores: every score is a true verdict, and the best
    // move attains the last one unless it is a mate.
    ghost predicate Decided(p: Pos, best: Option<Move>, scores: seq<int>)
      requires |scores| <= MAXDEPTH
    {
      && Verdicts(p, scores)
      && (|scores| > 0 && -MATE < scores[|scores| - 1] < MATE ==> BestAttains(g, p, best, |scores| - 1, 0, scores[|scores| - 1]))
    }

    // The same in terms of what has been shown.
    ghost predicate DecidedShown(p: Pos, best: Option<Move>, scores: seq<int>)
      requires |scores| <= MAXDEPTH
    {
      && (forall d :: 0 <= d < |scores| ==> RootVerdict(g, hashtable != null, p, d + 1, scores[d]))
      && (|scores| > 0 && -MATE < scores[|scores| - 1] < MATE ==>
            && best.Some? && best.value in g.all(p)
            && Reaches(g, hashtable != null, p, best.value, |scores| - 1, 0, scores[|scores| - 1]))
    }

    lemma DecidedIsValue(node: Node, best: Option<Move>, scores: seq<int>)
      requires |scores| <= MAXDEPTH && hashtable == null && DecidedShown(node.pos, best, scores)
      requires exists m :: m in g.all(node.pos) && LegalMove(g, node.pos, m)
      ensures Decided(node.pos, best, scores)
    {
      forall d | 0 <= d < |scores| ensures Verdict(scores[d], RootValue(g, node.pos, d + 1)) {
        RootBounds(g, node.pos, d + 1, scores[d]);
        RootBounds(g, node.pos, d + 1, MATE);
        RootBounds(g, node.pos, d + 1, -MATE);
      }
      if scores != [] { VerdictIsValue(node, best, |scores|, scores[|scores| - 1]); }
    }

    lemma DecidedMore(p: Pos, was: Option<Move>, scores: seq<int>, best: Option<Move>, score: int)
      requires |scores| < MAXDEPTH && DecidedShown(p, was, scores)
      requires RootVerdict(g, hashtable != null, p, |scores| + 1, score)
      requires -MATE < score < MATE ==>
                 best.Some? && best.value in g.all(p) && Reaches(g, hashtable != null, p, best.value, |scores|, 0, score)
      ensures DecidedShown(p, best, scores + [score])
    {}

    predicate MateFound(score: int) {
      score >= MATE || score <= -MATE
    }

    // One iteration: the depth is searched, and the window for the next one set around its score.
    method Deepen(node: Node, was: Option<Move>, depth: int, low0: int, beta0: int, ghost start: int)
      returns (best: Option<Move>, score: int, searches: nat, low: int, beta: int, outOfTime: bool)
      requires RootReady(node) && Window(low0, beta0) && 0 < depth <= MAXDEPTH
      requires low0 < MATE && beta0 > -MATE && start <= Flaws() && (CleanRoot(start) ==> TableFair() && node.Scored())
      modifies this, tally, nodealloc, node, nodealloc.Unused(), TableFrame()
      ensures GuardsOff(g, -INFTY, INFTY) ==> Pruned() == old(Pruned())
      ensures RootReady(node) && node.pos == old(node.pos) && Pruned() >= old(Pruned())
      ensures oddStores >= old(oddStores)
      ensures 1 <= searches <= 3 && tally.rootSearches == old(tally.rootSearches) + searches
      ensures !MateFound(score) ==> Window(low, beta) && low < MATE && beta > -MATE
      ensures best.Some? && best.value in node.movelist && low == score - WINDOW && beta == score + WINDOW
      ensures CleanRoot(start) ==>
                && TableFair() && node.Scored() && RootVerdict(g, hashtable != null, node.pos, depth, score)
                && (-MATE < score < MATE ==> Reaches(g, hashtable != null, node.pos, best.value, depth - 1, 0, score))
    {
      score, searches := Aspire(node, depth, low0, beta0, start);
      best := if node.BestMove().Some? then node.BestMove() else was;
      outOfTime := *;
      low, beta := score - WINDOW, score + WINDOW;
    }

    // One more iteration after those with these scores.
    method DeepenMore(node: Node, was: Option<Move>, depth: int, low0: int, beta0: int, ghost scores: seq<int>, ghost start: int)
      returns (best: Option<Move>, score: int, searches: nat, low: int, beta: int, outOfTime: bool)
      requires RootReady(node) && Window(low0, beta0) && 0 < depth <= MAXDEPTH && |scores| == depth - 1
      requires low0 < MATE && beta0 > -MATE && start <= Flaws()
      requires CleanRoot(start) ==> TableFair() && node.Scored() && DecidedShown(node.pos, was, scores)
      modifies this, tally, nodealloc, node, nodealloc.Unused(), TableFrame()
      ensures GuardsOff(g, -INFTY, INFTY) ==> Pruned() == old(Pruned())
      ensures RootReady(node) && node.pos == old(node.pos) && Pruned() >= old(Pruned()) && oddStores >= old(oddStores)
      ensures 1 <= searches <= 3 && tally.rootSearches == old(tally.rootSearches) + searches
      ensures !MateFound(score) ==> Window(low, beta) && low < MATE && beta > -MATE
      ensures best.Some? && best.value in node.movelist
      ensures CleanRoot(start) ==> TableFair() && node.Scored() && DecidedShown(node.pos, best, scores + [score])
    {
      best, score, searches, low, beta, outOfTime := Deepen(node, was, depth, low0, beta0, start);
      if CleanRoot(start) { DecidedMore(node.pos, was, scores, best, score); }
    }

    // The loop of iterate.
    method DeepenAll(node: Node, maxdepth: int, ghost start: int)
      returns (best: Option<Move>, scores: seq<int>, searches: seq<nat>, outOfTime: bool)
      requires RootReady(node) && maxdepth <= MAXDEPTH && start <= Flaws() && (CleanRoot(start) ==> TableFair() && node.Scored())
      modifies this, tally, nodealloc, node, nodealloc.Unused(), TableFrame()
      ensures GuardsOff(g, -INFTY, INFTY) ==> Pruned() == old(Pruned())
      ensures RootReady(node) && node.pos == old(node.pos) && best.Some? && best.value in node.movelist
      ensures |scores| == |searches| <= Depth(maxdepth)
      ensures |scores| < maxdepth ==> scores != [] && (outOfTime || MateFound(scores[|scores| - 1]))
      ensures tally.rootSearches == old(tally.rootSearches) + Total(searches)
      ensures forall d :: 0 <= d < |searches| ==> 1 <= searches[d] <= 3
      ensures CleanRoot(start) ==> TableFair() && DecidedShown(node.pos, best, scores)
    {
      best := node.BestMove();
      scores, searches, outOfTime := [], [], false;
      var low, beta := -INFTY, INFTY;
      var rootdepth, mate := 1, false;
      while rootdepth <= maxdepth && !outOfTime && !mate
        invariant RootReady(node) && node.pos == old(node.pos) && start <= Flaws()
        invariant GuardsOff(g, -INFTY, INFTY) ==> Pruned() == old(Pruned())
        invariant |scores| == |searches| == rootdepth - 1 <= Depth(maxdepth)
        invariant if scores == [] then !outOfTime && !mate else mate == MateFound(scores[|scores| - 1])
        invariant best.Some? && best.value in node.movelist
        invariant tally.rootSearches == old(tally.rootSearches) + Total(searches)
        invariant !mate ==> Window(low, beta) && low < MATE && beta > -MATE
        invariant forall d :: 0 <= d < |searches| ==> 1 <= searches[d] <= 3
        invariant CleanRoot(start) ==> TableFair() && node.Scored() && DecidedShown(node.pos, best, scores)
        decreases maxdepth - rootdepth
      {
        var score, n;
        best, score, n, low, beta, outOfTime := DeepenMore(node, best, rootdepth, low, beta, scores, start);
        TotalMore(searches, n);
        scores, searches, mate := scores + [score], searches + [n], MateFound(score);
        rootdepth := rootdepth + 1;
      }
    }

    // iterate: aspiration windows do not change results. Every depth up to the last is searched unless time runs out
    // or a mate is found. Without table and pruning every accepted score that is not a mate equals the root value of
    // its depth, and the returned move attains the last one; with a table the same is shown as far as its entries
    // have been.
    method Iterate(node: Node, maxdepth: int)
      returns (best: Option<Move>, scores: seq<int>, searches: seq<nat>, outOfTime: bool)
      requires RootReady(node) && maxdepth <= MAXDEPTH && node.Scored()
      modifies this, tally, nodealloc, node, nodealloc.Unused(), TableFrame()
      ensures GuardsOff(g, -INFTY, INFTY) ==> Pruned() == old(Pruned())
      ensures RootReady(node) && node.pos == old(node.pos) && best.Some? && best.value in node.movelist
      ensures |scores| == |searches| <= Depth(maxdepth)
      ensures |scores| < maxdepth ==> scores != [] && (outOfTime || MateFound(scores[|scores| - 1]))
      ensures tally.rootSearches == old(tally.rootSearches) + Total(searches)
      ensures forall d :: 0 <= d < |searches| ==> 1 <= searches[d] <= 3
      ensures CleanRoot(old(Start())) ==> TableFair() && DecidedShown(node.pos, best, scores)
      ensures PlainRoot(old(Pruned())) ==> Decided(node.pos, best, scores)
      ensures PlainRoot(old(Pruned())) && maxdepth > 0 && !outOfTime && !MateFound(scores[|scores| - 1]) ==>
                BestAttains(g, node.pos, best, maxdepth - 1, 0, RootValue(g, node.pos, maxdepth))
    {
      ghost var start, was := Start(), Pruned();
      best, scores, searches, outOfTime := DeepenAll(node, maxdepth, start);
      if PlainRoot(was) { DecidedIsValue(node, best, scores); }
    }
  }
}
