// What a slave answers is what the search it runs returns.
module SlaveSearches {
  import opened Moves
  import opened GameTree
  import opened Nodes
  import opened Searching
  import opened SearchBounds
  import opened Parallel

  // Search::slave_main: a slave searches the node that the master has made, from the ply below the
  // master's. Without table and pruning the master collects exactly the answer it counts on, for a
  // null window and for a full one; with a table of its own the answer is as good as its entries. Nothing is
  // pruned where the guards are off in the master's window.
  method SlaveMain(search: Search, node: Node, ghost p: Pos, ghost m: Move, depth: int, ply: nat, alpha: int, beta: int,
                   nullwin: bool)
    returns (score: int)
    requires search.Ready(node, ply + 1) && -INFTY <= alpha < beta <= INFTY && ply + 1 + Depth(depth) <= MAXDEPTH
    requires node.pos == search.g.child(p, m) && (depth > 0 ==> node.Relistable(search.g)) && node.parent != null
    modifies search, search.nodealloc, node, search.nodealloc.Unused(), search.TableFrame()
    ensures search.Ready(node, ply + 1) && alpha <= score <= (if nullwin then alpha + 1 else beta)
    ensures GuardsOff(search.g, alpha, beta) ==> search.Pruned() == old(search.Pruned())
    ensures search.Clean(old(search.Start())) ==>
              search.TableFair()
              && MoveShown(search.g, search.hashtable != null, p, m, Depth(depth), ply, alpha,
                           if nullwin then alpha + 1 else beta, score)
    ensures search.PlainSince(old(search.Pruned())) ==> score == Answer(search.g, p, m, depth, ply, alpha, beta, nullwin)
  {
    ghost var v := Value(search.g, node.pos, depth, ply + 1);
    var high := if nullwin then alpha + 1 else beta;
    GuardsOffWithin(search.g, alpha, beta, -high, -alpha);
    score := search.SearchNode(node, ply + 1, depth, -high, -alpha);
    score := -score;
    ClampNegated(-v, alpha, high);
  }
}
