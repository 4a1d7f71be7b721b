// A run of the parallel search that loses the best move: null-window answers with two slaves or more.
module ParallelGaps {
  import opened Basic
  import opened Moves
  import opened GameTree
  import opened Parallel

  const FIRST: Move := Normal(A1, C1, Rook)
  const GOOD: Move := Normal(A1, D1, Rook)
  const BEST: Move := Normal(A1, E1, Rook)
  const MOVES: seq<Move> := [FIRST, GOOD, BEST]
  // The master loop begins at alpha 0.
  const O: Origin := Origin(0, 0)

  // Position 0 has three moves, which score 0, 50 and 80; they end the game.
  function Gap(): Game {
    Game(
      p => if p == 0 then MOVES else [],
      p => if p == 0 then MOVES else [],
      _ => [],
      (_, m) => if m == FIRST then 1 else if m == GOOD then 2 else 3,
      _ => true,
      _ => false,
      _ => None,
      p => if p == 2 then -50 else if p == 3 then -80 else 0,
      (p, _, _) => if p == 2 then -50 else if p == 3 then -80 else 0,
      _ => INFTY,
      _ => true,
      p => if p < 0 then 0 else p,
      (_, _) => true)
  }

  lemma GapScores()
    ensures ChildScore(Gap(), 0, FIRST, 0, 0) == 0
    ensures ChildScore(Gap(), 0, GOOD, 0, 0) == 50
    ensures ChildScore(Gap(), 0, BEST, 0, 0) == 80
  {}

  lemma GapValue()
    ensures Value(Gap(), 0, 1, 0) == 80
  {
    GapScores();
    assert MOVES[2] == BEST;
    BestIsUpperBound(Gap(), 0, MOVES, 0, 0, BEST);
    var m := BestIsAttained(Gap(), 0, MOVES, 0, 0);
    assert Gap().moves(0) == MOVES;
  }

  // The game is as well-behaved as the exact results ask for.
  lemma GapIsSane()
    ensures EvalOk(Gap()) && Sane(Gap()) && GeneratorsAgree(Gap())
    ensures GuardsOff(Gap(), -INFTY, INFTY) && ListsLegal(Gap(), 0, MOVES)
  {}

  // A slave finishes and is taken from the queue.
  method Answered(master: Master, i: nat, alpha: int, ghost o: Origin)
    requires i < |master.slaves| && !master.slaves[i].free && !master.slaves[i].finished && master.readyQueue == []
    requires master.Underway(0, MOVES, 3, 0, 0, alpha, 1000, o) && !master.Exact()
    modifies master`slaves, master`readyQueue
    ensures master.slaves == old(master.slaves)[i := old(master.slaves)[i].(finished := true)] && master.readyQueue == []
    ensures master.Taken(i, 0, MOVES, 3, 0, 0, alpha, 1000, o)
  {
    ghost var was := master.slaves;
    master.Finish(i);
    FreshOfSame(was, master.slaves, alpha);
    WorkOfSame(master.g, 0, MOVES, 3, 0, 0, was, master.slaves, alpha, 1000);
    var id := master.Take();
    assert ([id] + master.readyQueue)[0] == i;
  }

  // A slave that has found out, in the null window above 0, that the j-th move scores more than 0.
  function Promising(j: nat): Slave {
    Slave(false, false, 1, true, j, 0, 1, 1)
  }

  ghost predicate AllFreeFrom(slaves: seq<Slave>, n: nat) {
    forall i :: n <= i < |slaves| ==> slaves[i].free
  }

  // A free slave is given the next move while alpha is 0.
  method HandTo(master: Master, i: nat)
    requires master.g == Gap() && (master.pvsMode == 1 || master.pvsMode == 2) && i < 2
    requires master.Underway(0, MOVES, i + 1, 0, 0, 0, 1000, O) && i < |master.slaves| && master.slaves[i] == FREE
    modifies master`slaves, master`handed
    ensures master.Underway(0, MOVES, i + 2, 0, 0, 0, 1000, O)
    ensures master.slaves == old(master.slaves)[i := Promising(i + 1)] && master.handed == old(master.handed) + [MOVES[i + 1]]
  {
    GapScores();
    master.HandNext(i, 0, MOVES, i + 1, 0, 0, -1000, 0, 1000, O);
  }

  method Begin(pvsMode: int, nthreads: nat) returns (master: Master)
    requires nthreads > 1
    ensures fresh(master) && master.g == Gap() && master.pvsMode == pvsMode && master.nthreads == nthreads
    ensures master.Underway(0, MOVES, 1, 0, 0, 0, 1000, O) && master.slaves == seq(nthreads, _ => FREE)
    ensures master.readyQueue == [] && master.handed == [] && master.restarts == 0
  {
    master := new Master(Gap(), pvsMode, 0, 1, 1, nthreads);
    NothingHandedOut(Gap(), 0, MOVES, 0, 0, master.slaves, 0, 1000);
  }

  // One move is handed out.
  method HandFirst(pvsMode: int, nthreads: nat) returns (master: Master)
    requires (pvsMode == 1 || pvsMode == 2) && nthreads > 1
    ensures fresh(master) && master.g == Gap() && master.pvsMode == pvsMode && master.nthreads == nthreads
    ensures master.Underway(0, MOVES, 2, 0, 0, 0, 1000, O) && master.readyQueue == []
    ensures master.slaves == seq(nthreads, _ => FREE)[0 := Promising(1)] && master.handed == [GOOD] && master.restarts == 0
  {
    master := Begin(pvsMode, nthreads);
    HandTo(master, 0);
  }

  // Both moves are handed out.
  method HandBoth(pvsMode: int, nthreads: nat) returns (master: Master)
    requires (pvsMode == 1 || pvsMode == 2) && nthreads > 1
    ensures fresh(master) && master.g == Gap() && master.pvsMode == pvsMode && master.nthreads == nthreads
    ensures master.Underway(0, MOVES, 3, 0, 0, 0, 1000, O) && master.readyQueue == []
    ensures master.slaves[0] == Promising(1) && master.slaves[1] == Promising(2) && AllFreeFrom(master.slaves, 2)
    ensures master.handed == MOVES[1..] && master.restarts == 0
  {
    master := HandFirst(pvsMode, nthreads);
    HandTo(master, 1);
  }

  // The first slave answers, searches its move again and answers 50.
  method FirstAnswers(master: Master) returns (h: Found)
    requires master.g == Gap() && !master.Exact() && master.Underway(0, MOVES, 3, 0, 0, 0, 1000, O) && master.readyQueue == []
    requires master.slaves[0] == Promising(1) && |master.slaves| > 1
    modifies master`slaves, master`readyQueue, master`restarts, master`late
    ensures h == Found(50, 50, Some(GOOD)) && master.Underway(0, MOVES, 3, 0, 0, 50, 1000, O) && master.readyQueue == []
    ensures |master.slaves| == |old(master.slaves)| && master.slaves[0].free && master.slaves[1..] == old(master.slaves[1..])
    ensures master.restarts == old(master.restarts) + 1 && master.late == old(master.late)
  {
    GapScores();
    Answered(master, 0, 0, O);
    master.SearchAgain(0, 0, MOVES, 3, 0, 0, 0, 1000, O);
    Answered(master, 0, 0, O);
    h := master.Release(0, 0, MOVES, 3, 0, 0, Found(0, 0, Some(FIRST)), 1000, O);
  }

  // The second slave's answer is dropped.
  method SecondAnswers(master: Master, f: Found) returns (h: Found)
    requires master.g == Gap() && !master.Exact() && master.Underway(0, MOVES, 3, 0, 0, 50, 1000, O) && master.readyQueue == []
    requires f == Found(50, 50, Some(GOOD)) && |master.slaves| > 1 && master.slaves[0].free
    requires master.slaves[1] == Promising(2) && AllFreeFrom(master.slaves, 2)
    modifies master`slaves, master`readyQueue, master`late
    ensures h == f && master.Idle() && master.late == old(master.late) + 1
  {
    Answered(master, 1, 50, O);
    h := master.Release(1, 0, MOVES, 3, 0, 0, f, 1000, O);
  }

  // In PVS modes 1 and 2 with more than one slave: two slaves are started at alpha 0, the first answer is
  // searched again and raises alpha to 50, and the second, which came from the null window, is dropped.
  // The node is valued 50 although its value is 80.
  method LostRun(pvsMode: int, nthreads: nat) returns (master: Master, h: Found)
    requires (pvsMode == 1 || pvsMode == 2) && nthreads > 1
    ensures fresh(master) && master.g == Gap() && master.pvsMode == pvsMode && master.nthreads == nthreads
    ensures master.Idle() && master.handed == MOVES[1..] && master.restarts == 1 && master.late == 1
    ensures h == Found(50, 50, Some(GOOD)) && 50 < Clamp(Value(Gap(), 0, 1, 0), -1000, 1000)
  {
    GapValue();
    master := HandBoth(pvsMode, nthreads);
    ghost var slaves := master.slaves;
    h := FirstAnswers(master);
    forall i | 1 <= i < |slaves| ensures master.slaves[i] == slaves[i] {
      assert master.slaves[i] == master.slaves[1..][i - 1];
    }
    h := SecondAnswers(master, h);
  }
}
