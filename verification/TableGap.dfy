// Searches that make the transposition table false: quiescence search with alpha at mate or above.
module TableGaps {
  import opened Basic
  import opened GameTree
  import opened Nodes
  import opened HashTables
  import opened Searching

  // A quiescence search of any calm position with alpha at mate or above, that finds its slot empty,
  // stores a forced mate there although there is none.
  method FalseEntry(search: Search, node: Node, low: int, beta: int) returns (score: int)
    requires search.Ready(node, 0) && search.SlotEmpty(node.pos) && MATE <= low < beta
    requires EvalOk(search.g) && StandSmall(search.g) && Calm(search.g, node.pos)
    modifies search, search.nodealloc, node, search.nodealloc.Unused(), search.TableFrame()
    ensures !search.TableTrue()
  {
    var g, p := search.g, node.pos;
    assert -MATE < g.stand(p) < MATE;
    assert Clamp(g.eval(p, low, beta), low, beta) == Clamp(g.stand(p), low, beta);
    score := search.QuiescenceSearch(node, 0, low, beta);
    QuietSmall(g, p, 0);
    var e := search.hashtable.table[g.key(p) % search.hashtable.table.Length].value;
    assert !Truth(e.bound, e.score, Quiet(g, p, 0));
  }

  // For every calm position whose slot is empty, the search keeps a true table true if and only if alpha
  // is below mate.
  method StaysTrueIff(search: Search, node: Node, low: int, beta: int) returns (score: int)
    requires search.Ready(node, 0) && search.SlotEmpty(node.pos) && low < beta && search.TableTrue()
    requires EvalOk(search.g) && StandSmall(search.g) && KeysIdentify(search.g) && Calm(search.g, node.pos)
    modifies search, search.nodealloc, node, search.nodealloc.Unused(), search.TableFrame()
    ensures search.TableTrue() <==> low < MATE
  {
    if low < MATE {
      score := search.QuiescenceSearch(node, 0, low, beta);
    } else {
      score := FalseEntry(search, node, low, beta);
    }
  }

  // One balanced position without moves.
  function Still(): Game {
    Game(_ => [], _ => [], _ => [], (p, _) => p, _ => true, _ => false, _ => None, _ => 0, (_, _, _) => 0, _ => 0, _ => true,
         _ => 0, (_, _) => true)
  }

  // Searched above mate with an empty table, it leaves a forced mate in the table.
  method GapRun() returns (search: Search)
    ensures fresh(search) && search.g == Still() && search.hashtable != null && !search.TableTrue()
  {
    var table := new HashTable(1);
    search := new Search(Still(), table, 0, 0);
    var node := new Node();
    var _ := FalseEntry(search, node, MATE, MATE + 1);
  }
}
