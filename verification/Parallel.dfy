// Parallel search: a master hands moves to slaves and collects their results through a queue
// (src/common/parallelsearch.cc).
module Parallel {
  import opened Basic
  import opened Moves
  import opened GameTree

  // A slave: the move it was last started on, the window, whether it has finished, and the answer
  // it owes. used counts the nodes taken from its one-node pool.
  datatype Slave = Slave(
    free: bool,
    finished: bool,
    used: nat,
    nullwin: bool,
    idx: nat,
    alpha: int,
    score: int,
    calls: nat)

  const FREE: Slave := Slave(true, false, 0, false, 0, 0, 0, 0)

  // What a slave answers: the value of its node bounded to its window, seen from the master's node.
  function Answer(g: Game, p: Pos, m: Move, depth: int, ply: nat, alpha: int, beta: int, nullwin: bool): int
    requires ply + 1 + Depth(depth) < MAXPLY
  {
    Clamp(ChildScore(g, p, m, depth, ply), alpha, if nullwin then alpha + 1 else beta)
  }

  // ---- Slaves and queue -------------------------------------------------------------------

  // Every finished slave whose answer has not been collected is in the queue exactly once, and
  // nothing else is; free slaves have given their node back.
  ghost predicate QueueOk(slaves: seq<Slave>, ready: seq<nat>) {
    && (forall k :: 0 <= k < |ready| ==> ready[k] < |slaves|)
    && (forall k :: 0 <= k < |ready| ==> !slaves[ready[k]].free && slaves[ready[k]].finished)
    && (forall j, k :: 0 <= j < k < |ready| ==> ready[j] != ready[k])
    && (forall i :: 0 <= i < |slaves| && !slaves[i].free && slaves[i].finished ==> i in ready)
    && (forall i :: 0 <= i < |slaves| && slaves[i].free ==> slaves[i].used == 0 && !slaves[i].finished)
  }

  ghost predicate AllFree(slaves: seq<Slave>) {
    forall i :: 0 <= i < |slaves| ==> slaves[i].free
  }

  // The same slaves on the same work; only which of them have finished may differ.
  ghost predicate SameWork(a: seq<Slave>, b: seq<Slave>) {
    |a| == |b| && forall i :: 0 <= i < |a| ==> b[i] == a[i].(finished := b[i].finished)
  }

  lemma TakeFirst(slaves: seq<Slave>, ready: seq<nat>, s: Slave)
    requires QueueOk(slaves, ready) && |ready| > 0
    requires (s.free ==> s.used == 0) && !s.finished
    ensures ready[0] < |slaves| && QueueOk(slaves[ready[0] := s], ready[1..])
  {}

  // ---- What the busy slaves are working on ------------------------------------------------

  // The first n moves of the list have been handed out. Each busy slave works on one of them with a
  // window that was not above the present one, and no two on the same.
  ghost predicate WorkOk(g: Game, p: Pos, list: seq<Move>, n: nat, depth: int, ply: nat, slaves: seq<Slave>, alpha: int,
                         beta: int)
    requires ply + 1 + Depth(depth) < MAXPLY && n <= |list|
  {
    && (forall i :: 0 <= i < |slaves| && !slaves[i].free ==>
          && slaves[i].used == 1 && 1 <= slaves[i].idx < n && slaves[i].alpha <= alpha
          && slaves[i].score == Answer(g, p, list[slaves[i].idx], depth, ply, slaves[i].alpha, beta, slaves[i].nullwin))
    && (forall i, j :: 0 <= i < j < |slaves| && !slaves[i].free && !slaves[j].free ==> slaves[i].idx != slaves[j].idx)
  }

  ghost predicate InHand(slaves: seq<Slave>, j: nat) {
    exists i :: 0 <= i < |slaves| && !slaves[i].free && slaves[i].idx == j
  }

  // Every move handed out to a slave is in hand or does not score above alpha.
  ghost predicate Covered(g: Game, p: Pos, list: seq<Move>, n: nat, depth: int, ply: nat, slaves: seq<Slave>, alpha: int)
    requires ply + 1 + Depth(depth) < MAXPLY && n <= |list|
  {
    forall j :: 1 <= j < n ==> InHand(slaves, j) || ChildScore(g, p, list[j], depth, ply) <= alpha
  }

  // A slave searching a null window is the only one, and alpha is still what it was started with.
  ghost predicate NullWindowsFresh(slaves: seq<Slave>, alpha: int) {
    forall i :: 0 <= i < |slaves| && !slaves[i].free && slaves[i].nullwin ==> |slaves| == 1 && slaves[i].alpha == alpha
  }

  // Every slave searching a null window was started at this alpha.
  ghost predicate StartedAt(slaves: seq<Slave>, alpha: int) {
    forall i :: 0 <= i < |slaves| && !slaves[i].free && slaves[i].nullwin ==> slaves[i].alpha == alpha
  }

  lemma FreshRestarted(slaves: seq<Slave>, alpha: int, i: nat, s: Slave)
    requires i < |slaves| && (!s.free && s.nullwin ==> s.alpha == alpha)
    ensures StartedAt(slaves, alpha) ==> StartedAt(slaves[i := s], alpha)
    ensures (!s.free && s.nullwin ==> |slaves| == 1) && NullWindowsFresh(slaves, alpha) ==> NullWindowsFresh(slaves[i := s], alpha)
  {}

  lemma FreshOfSame(a: seq<Slave>, b: seq<Slave>, alpha: int)
    requires SameWork(a, b)
    ensures StartedAt(a, alpha) ==> StartedAt(b, alpha)
    ensures NullWindowsFresh(a, alpha) ==> NullWindowsFresh(b, alpha)
  {}

  // An answer that failed high in its null window but is not above the present alpha. It says nothing of the
  // move beyond the alpha it was started at, and is dropped.
  predicate Late(s: Slave, alpha: int) {
    s.nullwin && s.alpha < s.score <= alpha
  }

  // What the master loop began with.
  datatype Origin = Origin(alpha: int, late: nat)

  // What a move loop has found so far: alpha, the best score, and the move recorded with it.
  datatype Found = Found(alpha: int, bestscore: int, best: Option<Move>)

  // A score of a move: it is recorded if it is the best so far, and may raise alpha.
  function With(f: Found, score: int, m: Move): Found {
    Found(Max(f.alpha, score), Max(f.bestscore, score), if score > f.bestscore then Some(m) else f.best)
  }

  // From f to h alpha has not fallen, and has not risen above what the recorded move scores; below beta it
  // is exactly that score. The best score stays the same as alpha.
  ghost predicate Improves(g: Game, p: Pos, list: seq<Move>, depth: int, ply: nat, f: Found, h: Found, beta: int)
    requires ply + 1 + Depth(depth) < MAXPLY
  {
    && h.bestscore == h.alpha
    && (|| f == h
        || (f.alpha < h.alpha && h.best.Some? && h.best.value in list && Attains(g, p, h.best.value, depth, ply, h.alpha, beta)))
  }

  // A move's score is alpha, or at least alpha if that is no less than beta.
  ghost predicate Attains(g: Game, p: Pos, m: Move, depth: int, ply: nat, alpha: int, beta: int)
    requires ply + 1 + Depth(depth) < MAXPLY
  {
    ChildScore(g, p, m, depth, ply) >= alpha && (alpha < beta ==> ChildScore(g, p, m, depth, ply) == alpha)
  }

  // How much answering is still to come: two answers at most from a null window, one from a full one.
  function Load(s: Slave): nat {
    if s.free then 0 else if s.nullwin then 2 else 1
  }

  function Weight(slaves: seq<Slave>): nat {
    if slaves == [] then 0 else Load(slaves[0]) + Weight(slaves[1..])
  }

  lemma {:induction false} WeightAfter(slaves: seq<Slave>, i: nat, s: Slave)
    requires i < |slaves|
    ensures Weight(slaves[i := s]) + Load(slaves[i]) == Weight(slaves) + Load(s)
    decreases |slaves|
  {
    if i == 0 {
      assert slaves[i := s][1..] == slaves[1..];
    } else {
      assert slaves[i := s][1..] == slaves[1..][i - 1 := s];
      WeightAfter(slaves[1..], i - 1, s);
    }
  }

  // How often slaves have been started.
  function Calls(slaves: seq<Slave>): nat {
    if slaves == [] then 0 else slaves[0].calls + Calls(slaves[1..])
  }

  lemma {:induction false} CallsAfter(slaves: seq<Slave>, i: nat, s: Slave)
    requires i < |slaves|
    ensures Calls(slaves[i := s]) + slaves[i].calls == Calls(slaves) + s.calls
    decreases |slaves|
  {
    if i == 0 {
      assert slaves[i := s][1..] == slaves[1..];
    } else {
      assert slaves[i := s][1..] == slaves[1..][i - 1 := s];
      CallsAfter(slaves[1..], i - 1, s);
    }
  }

  lemma {:induction false} WeightOfSame(a: seq<Slave>, b: seq<Slave>)
    requires SameWork(a, b)
    ensures Weight(a) == Weight(b) && Calls(a) == Calls(b)
    decreases |a|
  {
    if a != [] {
      WeightOfSame(a[1..], b[1..]);
    }
  }

  lemma WorkOfSame(g: Game, p: Pos, list: seq<Move>, n: nat, depth: int, ply: nat, a: seq<Slave>, b: seq<Slave>, alpha: int,
                   beta: int)
    requires ply + 1 + Depth(depth) < MAXPLY && n <= |list| && SameWork(a, b)
    requires WorkOk(g, p, list, n, depth, ply, a, alpha, beta)
    ensures WorkOk(g, p, list, n, depth, ply, b, alpha, beta)
    ensures Covered(g, p, list, n, depth, ply, a, alpha) ==> Covered(g, p, list, n, depth, ply, b, alpha)
  {}

  // Handing the next move to a free slave.
  lemma WorkHandedOut(g: Game, p: Pos, list: seq<Move>, n: nat, depth: int, ply: nat, slaves: seq<Slave>, alpha: int, beta: int,
                      i: nat, s: Slave)
    requires ply + 1 + Depth(depth) < MAXPLY && 1 <= n < |list| && i < |slaves| && slaves[i].free
    requires WorkOk(g, p, list, n, depth, ply, slaves, alpha, beta)
    requires !s.free && s.used == 1 && s.idx == n && s.alpha == alpha
    requires s.score == Answer(g, p, list[n], depth, ply, alpha, beta, s.nullwin)
    ensures WorkOk(g, p, list, n + 1, depth, ply, slaves[i := s], alpha, beta)
    ensures Covered(g, p, list, n, depth, ply, slaves, alpha) ==> Covered(g, p, list, n + 1, depth, ply, slaves[i := s], alpha)
  {
    var after := slaves[i := s];
    forall j | 0 <= j < n + 1 && (j == n || InHand(slaves, j)) ensures InHand(after, j) {
      var k := if j == n then i else var k :| 0 <= k < |slaves| && !slaves[k].free && slaves[k].idx == j; k;
      assert !after[k].free && after[k].idx == j;
    }
  }

  // Starting a slave again on the same move, with the full window and the present alpha.
  lemma WorkRestarted(g: Game, p: Pos, list: seq<Move>, n: nat, depth: int, ply: nat, slaves: seq<Slave>, alpha: int, beta: int,
                      i: nat, s: Slave)
    requires ply + 1 + Depth(depth) < MAXPLY && n <= |list| && i < |slaves| && !slaves[i].free
    requires WorkOk(g, p, list, n, depth, ply, slaves, alpha, beta)
    requires !s.free && s.used == 1 && s.idx == slaves[i].idx && s.alpha == alpha
    requires s.score == Answer(g, p, list[s.idx], depth, ply, alpha, beta, s.nullwin)
    ensures WorkOk(g, p, list, n, depth, ply, slaves[i := s], alpha, beta)
    ensures Covered(g, p, list, n, depth, ply, slaves, alpha) ==> Covered(g, p, list, n, depth, ply, slaves[i := s], alpha)
  {
    var after := slaves[i := s];
    forall j | InHand(slaves, j) ensures InHand(after, j) {
      var k :| 0 <= k < |slaves| && !slaves[k].free && slaves[k].idx == j;
      assert !after[k].free && after[k].idx == j;
    }
  }

  // Collecting an answer. It bounds its move unless it is late or has to be searched again.
  lemma WorkCollected(g: Game, p: Pos, list: seq<Move>, n: nat, depth: int, ply: nat, slaves: seq<Slave>, alpha: int, beta: int,
                      i: nat, s: Slave)
    requires ply + 1 + Depth(depth) < MAXPLY && n <= |list| && i < |slaves| && !slaves[i].free && alpha < beta
    requires WorkOk(g, p, list, n, depth, ply, slaves, alpha, beta) && s.free
    ensures WorkOk(g, p, list, n, depth, ply, slaves[i := s], Max(alpha, slaves[i].score), beta)
    ensures !Late(slaves[i], alpha) && !(slaves[i].nullwin && alpha < slaves[i].score < beta) && slaves[i].score < beta
            && Covered(g, p, list, n, depth, ply, slaves, alpha) ==>
              Covered(g, p, list, n, depth, ply, slaves[i := s], Max(alpha, slaves[i].score))
  {
    var after := slaves[i := s];
    forall j | InHand(slaves, j) && j != slaves[i].idx ensures InHand(after, j) {
      var k :| 0 <= k < |slaves| && !slaves[k].free && slaves[k].idx == j;
      assert !after[k].free && after[k].idx == j;
    }
  }

  // An answer above alpha that is not from a null window inside (alpha, beta) is the score of its
  // move, or a bound at beta.
  lemma AnswerEarned(value: int, was: int, alpha: int, beta: int, nullwin: bool, score: int)
    requires was <= alpha < beta && score == Clamp(value, was, if nullwin then was + 1 else beta)
    requires !(nullwin && alpha < score < beta)
    ensures score > alpha ==> value >= score && (score < beta ==> value == score)
    ensures score <= beta
  {}

  // The state after a slave has been freed and its answer taken.
  lemma Released(g: Game, p: Pos, list: seq<Move>, n: nat, depth: int, ply: nat, slaves: seq<Slave>, id: nat, s: Slave,
                 f: Found, beta: int)
    requires ply + 1 + Depth(depth) < MAXPLY && n <= |list| && id < |slaves| && !slaves[id].free && f.bestscore == f.alpha < beta
    requires WorkOk(g, p, list, n, depth, ply, slaves, f.alpha, beta) && s.free
    requires !(slaves[id].nullwin && f.alpha < slaves[id].score < beta)
    ensures var h, after := With(f, slaves[id].score, list[slaves[id].idx]), slaves[id := s];
            && WorkOk(g, p, list, n, depth, ply, after, h.alpha, beta) && h.alpha <= beta
            && Improves(g, p, list, depth, ply, f, h, beta)
            && (!Late(slaves[id], f.alpha) && h.alpha < beta && Covered(g, p, list, n, depth, ply, slaves, f.alpha) ==>
                  Covered(g, p, list, n, depth, ply, after, h.alpha))
            && (StartedAt(slaves, f.alpha) ==> !Late(slaves[id], f.alpha) && (h.alpha == f.alpha ==> StartedAt(after, h.alpha)))
            && (NullWindowsFresh(slaves, f.alpha) ==> !Late(slaves[id], f.alpha) && NullWindowsFresh(after, h.alpha))
  {
    var was := slaves[id];
    AnswerEarned(ChildScore(g, p, list[was.idx], depth, ply), was.alpha, f.alpha, beta, was.nullwin, was.score);
    assert list[was.idx] in list;
    WorkCollected(g, p, list, n, depth, ply, slaves, f.alpha, beta, id, s);
  }

  class Master {
    const g: Game
    // search_parallel_pvs_mode
    const pvsMode: int
    // search_pvs_mode, for nodes the master searches by itself
    const ownPvsMode: int
    // search_parallel_min_depth, and the least number of moves to share out
    const minDepth: int
    const minMoves: nat
    const nthreads: nat
    var slaves: seq<Slave>
    var readyQueue: seq<nat>
    // How often the master has pruned something.
    var pruned: nat
    // The moves the master loop has given to slaves, in this order, and how often it has started a slave
    // again on its move.
    ghost var handed: seq<Move>
    ghost var restarts: nat
    // How many late answers have been dropped.
    ghost var late: nat

    ghost predicate Valid()
      reads this
    {
      |slaves| == nthreads > 0 && QueueOk(slaves, readyQueue)
    }

    // Between searches: all slaves free, their one-node pools empty, nothing in the queue.
    ghost predicate Idle()
      reads this
    {
      Valid() && AllFree(slaves) && readyQueue == []
    }

    constructor (g: Game, pvsMode: int, ownPvsMode: int, minDepth: int, minMoves: nat, nthreads: nat)
      requires nthreads > 0
      ensures Idle() && slaves == seq(nthreads, _ => FREE) && handed == [] && restarts == 0 && late == 0
      ensures this.g == g && this.pvsMode == pvsMode && this.nthreads == nthreads
    {
      this.nthreads := nthreads;
      this.g, this.pvsMode, this.ownPvsMode, this.minDepth, this.minMoves := g, pvsMode, ownPvsMode, minDepth, minMoves;
      pruned, handed, restarts, late := 0, [], 0, 0;
      slaves, readyQueue := seq(nthreads, _ => FREE), [];
    }

    // The number of a free slave, or none if all are busy.
    ghost predicate FreeOne(id: Option<nat>)
      reads this
    {
      match id
      case Some(i) => i < |slaves| && slaves[i].free
      case None => forall i :: 0 <= i < |slaves| ==> !slaves[i].free
    }

    method FindFreeSlave() returns (id: Option<nat>)
      ensures FreeOne(id)
    {
      for i := 0 to |slaves|
        invariant forall k :: 0 <= k < i ==> !slaves[k].free
      {
        if slaves[i].free {
          return Some(i);
        }
      }
      return None;
    }

    method AllSlavesFree() returns (all: bool)
      ensures all <==> AllFree(slaves)
    {
      for i := 0 to |slaves|
        invariant forall k :: 0 <= k < i ==> slaves[k].free
      {
        if !slaves[i].free {
          return false;
        }
      }
      return true;
    }

    // start_slave_thread, on a free slave or again on one whose answer has been taken.
    method Start(id: nat, s: Slave)
      requires id < |slaves| == nthreads && QueueOk(slaves[id := s], readyQueue) && !s.free && !s.finished
      modifies `slaves
      ensures Valid() && slaves == old(slaves)[id := s]
    {
      slaves := slaves[id := s];
    }

    // slave_ready: a running slave finishes and reports itself.
    method Finish(i: nat)
      requires Valid() && i < |slaves| && !slaves[i].free && !slaves[i].finished
      modifies `slaves, `readyQueue
      ensures Valid() && slaves == old(slaves)[i := old(slaves)[i].(finished := true)] && readyQueue == old(readyQueue) + [i]
      ensures SameWork(old(slaves), slaves)
    {
      slaves := slaves[i := slaves[i].(finished := true)];
      readyQueue := readyQueue + [i];
    }

    // Any running slaves finish, in any order.
    method LetFinish()
      requires Valid()
      modifies `slaves, `readyQueue
      ensures Valid() && SameWork(old(slaves), slaves) && old(readyQueue) <= readyQueue
    {
      for k := 0 to |slaves|
        invariant Valid() && SameWork(old(slaves), slaves) && old(readyQueue) <= readyQueue
      {
        var i: int := *;
        if 0 <= i < |slaves| && !slaves[i].free && !slaves[i].finished {
          Finish(i);
        }
      }
    }

    // The first slave in the queue.
    method Take() returns (id: nat)
      requires Valid() && readyQueue != []
      modifies `readyQueue
      ensures [id] + readyQueue == old(readyQueue)
      ensures id < |slaves| && !slaves[id].free && slaves[id].finished && QueueOk(slaves, [id] + readyQueue)
    {
      id := readyQueue[0];
      assert readyQueue == [id] + readyQueue[1..];
      readyQueue := readyQueue[1..];
    }

    // wait_slave_ready: while the master waits some running slaves finish, at least one if none has
    // before; the first in the queue is taken.
    method WaitSlaveReady() returns (id: nat)
      requires Valid() && !AllFree(slaves)
      modifies `slaves, `readyQueue
      ensures SameWork(old(slaves), slaves) && id < |slaves| && !slaves[id].free && slaves[id].finished
      ensures |slaves| == nthreads > 0 && QueueOk(slaves, [id] + readyQueue)
    {
      LetFinish();
      if readyQueue == [] {
        var i: int := *;
        if !(0 <= i < |slaves| && !slaves[i].free) {
          i := 0;
          while slaves[i].free
            invariant 0 <= i < |slaves| && forall k :: 0 <= k < i ==> slaves[k].free
            decreases |slaves| - i
          {
            i := i + 1;
          }
        }
        Finish(i);
      }
      id := Take();
    }

    // abort_all_slaves: busy slaves are interrupted and run to their end, so they still report
    // themselves; the queue is cleared after that.
    method AbortAllSlaves()
      requires Valid() && forall i :: 0 <= i < |slaves| && !slaves[i].free ==> slaves[i].used == 1
      modifies `slaves, `readyQueue
      ensures Idle() && Calls(slaves) == old(Calls(slaves))
    {
      for i := 0 to |slaves|
        invariant |slaves| == |old(slaves)| && Calls(slaves) == old(Calls(slaves))
        invariant forall k :: 0 <= k < i ==> slaves[k].free && slaves[k].used == 0 && !slaves[k].finished
        invariant forall k :: i <= k < |slaves| ==> slaves[k] == old(slaves)[k]
      {
        if !slaves[i].free {
          if !slaves[i].finished {
            readyQueue := readyQueue + [i];
          }
          CallsAfter(slaves, i, slaves[i].(free := true, used := slaves[i].used - 1, finished := false));
          slaves := slaves[i := slaves[i].(free := true, used := slaves[i].used - 1, finished := false)];
        }
      }
      readyQueue := [];
    }

    // ---- The master loop --------------------------------------------------------------------

    // The null window is tried in PVS mode 1, and in mode 2 once alpha has been raised.
    predicate NullWindow(alpha: int, floor: int) {
      pvsMode == 1 || (pvsMode == 2 && alpha > floor)
    }

    // Every search is with the full window.
    predicate FullWindows() {
      pvsMode != 1 && pvsMode != 2
    }

    // No null-window answer can be late: there are none, or one slave only.
    predicate Exact() {
      FullWindows() || nthreads == 1
    }

    // Starts of slaves that are neither on a move handed out nor again on the same move.
    ghost function Unaccounted(): int
      reads this
    {
      Calls(slaves) - |handed| - restarts
    }

    // The state of the master loop when the first n moves have been handed out.
    ghost predicate Underway(p: Pos, list: seq<Move>, n: nat, depth: int, ply: nat, alpha: int, beta: int, o: Origin)
      requires ply + 1 + Depth(depth) < MAXPLY && n <= |list|
      reads this
    {
      && Valid() && WorkOk(g, p, list, n, depth, ply, slaves, alpha, beta) && Punctual(alpha, o)
      && (late == o.late ==> Covered(g, p, list, n, depth, ply, slaves, alpha))
    }

    // No answer has been late if none can be, or if alpha has not been raised.
    ghost predicate Punctual(alpha: int, o: Origin)
      reads this
    {
      && late >= o.late && alpha >= o.alpha
      && (Exact() ==> late == o.late && NullWindowsFresh(slaves, alpha))
      && (alpha == o.alpha ==> late == o.late && StartedAt(slaves, alpha))
    }

    function ToDo(list: seq<Move>, n: nat): int
      reads this
    {
      3 * (|list| - n) + Weight(slaves)
    }

    // A slave started on the n-th move.
    function Given(was: Slave, p: Pos, list: seq<Move>, n: nat, depth: int, ply: nat, floor: int, alpha: int, beta: int): Slave
      requires ply + 1 + Depth(depth) < MAXPLY && n < |list|
    {
      var nullwin := NullWindow(alpha, floor);
      Slave(false, false, was.used + 1, nullwin, n, alpha, Answer(g, p, list[n], depth, ply, alpha, beta, nullwin), was.calls + 1)
    }

    method HandNext(id: nat, p: Pos, list: seq<Move>, n: nat, depth: int, ply: nat, floor: int, alpha: int, beta: int,
                    ghost o: Origin)
      requires ply + 1 + Depth(depth) < MAXPLY && 1 <= n < |list| && id < |slaves| && slaves[id].free
      requires Underway(p, list, n, depth, ply, alpha, beta, o)
      modifies `slaves, `handed
      ensures slaves == old(slaves)[id := Given(old(slaves)[id], p, list, n, depth, ply, floor, alpha, beta)]
      ensures Underway(p, list, n + 1, depth, ply, alpha, beta, o) && ToDo(list, n + 1) < old(ToDo(list, n))
      ensures handed == old(handed) + list[n..n + 1] && Unaccounted() == old(Unaccounted())
    {
      var s := Given(slaves[id], p, list, n, depth, ply, floor, alpha, beta);
      WorkHandedOut(g, p, list, n, depth, ply, slaves, alpha, beta, id, s);
      FreshRestarted(slaves, alpha, id, s);
      WeightAfter(slaves, id, s);
      CallsAfter(slaves, id, s);
      Start(id, s);
      handed := handed + list[n..n + 1];
    }

    // The moves from the n0-th to the n-th have been added to those handed out before, and each has been a start.
    ghost predicate HandedOn(before: seq<Move>, list: seq<Move>, n0: nat, n: nat, unaccounted: int)
      reads this
    {
      n0 <= n <= |list| && handed == before + list[n0..n] && Unaccounted() == unaccounted
    }

    // Give a free slave the next move, and look for another.
    method HandOne(id: nat, p: Pos, list: seq<Move>, n: nat, depth: int, ply: nat, floor: int, alpha: int, beta: int,
                   ghost before: seq<Move>, ghost n0: nat, ghost unaccounted: int, ghost o: Origin)
      returns (next: Option<nat>)
      requires ply + 1 + Depth(depth) < MAXPLY && 1 <= n < |list| && id < |slaves| && slaves[id].free
      requires Underway(p, list, n, depth, ply, alpha, beta, o) && HandedOn(before, list, n0, n, unaccounted)
      modifies `slaves, `handed
      ensures Underway(p, list, n + 1, depth, ply, alpha, beta, o) && HandedOn(before, list, n0, n + 1, unaccounted)
      ensures FreeOne(next) && ToDo(list, n + 1) < old(ToDo(list, n))
    {
      HandNext(id, p, list, n, depth, ply, floor, alpha, beta, o);
      GivenOn(before, list, n0, n, n + 1);
      next := FindFreeSlave();
    }

    // Give all free slaves a move to search.
    method HandOut(p: Pos, list: seq<Move>, n0: nat, depth: int, ply: nat, floor: int, alpha: int, beta: int,
                   ghost before: seq<Move>, ghost first: nat, ghost unaccounted: int, ghost o: Origin)
      returns (n: nat)
      requires ply + 1 + Depth(depth) < MAXPLY && 1 <= n0 <= |list| && Underway(p, list, n0, depth, ply, alpha, beta, o)
      requires HandedOn(before, list, first, n0, unaccounted)
      modifies `slaves, `handed
      ensures n0 <= n <= |list| && Underway(p, list, n, depth, ply, alpha, beta, o) && (n == |list| || FreeOne(None))
      ensures HandedOn(before, list, first, n, unaccounted) && ToDo(list, n) <= old(ToDo(list, n0))
    {
      n := n0;
      var id := FindFreeSlave();
      while n < |list| && id.Some?
        invariant n0 <= n <= |list| && Underway(p, list, n, depth, ply, alpha, beta, o) && FreeOne(id)
        invariant HandedOn(before, list, first, n, unaccounted) && ToDo(list, n) <= old(ToDo(list, n0))
        decreases |list| - n
      {
        id := HandOne(id.value, p, list, n, depth, ply, floor, alpha, beta, before, first, unaccounted, o);
        n := n + 1;
      }
    }

    // The state just after the answer of a slave has been taken from the queue.
    ghost predicate Taken(id: nat, p: Pos, list: seq<Move>, n: nat, depth: int, ply: nat, alpha: int, beta: int, o: Origin)
      requires ply + 1 + Depth(depth) < MAXPLY && n <= |list|
      reads this
    {
      && id < |slaves| == nthreads && QueueOk(slaves, [id] + readyQueue) && !slaves[id].free && slaves[id].finished
      && WorkOk(g, p, list, n, depth, ply, slaves, alpha, beta) && Punctual(alpha, o)
      && (late == o.late ==> Covered(g, p, list, n, depth, ply, slaves, alpha))
    }

    // A slave started again on its move, with the full window.
    function Again(was: Slave, p: Pos, list: seq<Move>, depth: int, ply: nat, alpha: int, beta: int): Slave
      requires ply + 1 + Depth(depth) < MAXPLY && was.idx < |list|
    {
      was.(finished := false, nullwin := false, alpha := alpha, calls := was.calls + 1,
           score := Answer(g, p, list[was.idx], depth, ply, alpha, beta, false))
    }

    // The null window failed high: search the move again with the full window.
    method SearchAgain(id: nat, p: Pos, list: seq<Move>, n: nat, depth: int, ply: nat, alpha: int, beta: int, ghost o: Origin)
      requires ply + 1 + Depth(depth) < MAXPLY && n <= |list|
      requires Taken(id, p, list, n, depth, ply, alpha, beta, o) && slaves[id].nullwin
      modifies `slaves, `restarts
      ensures slaves == old(slaves)[id := Again(old(slaves)[id], p, list, depth, ply, alpha, beta)]
      ensures Underway(p, list, n, depth, ply, alpha, beta, o) && ToDo(list, n) < old(ToDo(list, n))
      ensures restarts == old(restarts) + 1 && Unaccounted() == old(Unaccounted())
    {
      var s := Again(slaves[id], p, list, depth, ply, alpha, beta);
      WorkRestarted(g, p, list, n, depth, ply, slaves, alpha, beta, id, s);
      FreshRestarted(slaves, alpha, id, s);
      WeightAfter(slaves, id, s);
      CallsAfter(slaves, id, s);
      TakeFirst(slaves, [id] + readyQueue, s);
      Start(id, s);
      restarts := restarts + 1;
    }

    // Free the slave and raise alpha to its answer.
    method Release(id: nat, p: Pos, list: seq<Move>, n: nat, depth: int, ply: nat, f: Found, beta: int, ghost o: Origin)
      returns (h: Found)
      requires ply + 1 + Depth(depth) < MAXPLY && n <= |list| && f.bestscore == f.alpha < beta
      requires Taken(id, p, list, n, depth, ply, f.alpha, beta, o) && !(slaves[id].nullwin && f.alpha < slaves[id].score < beta)
      modifies `slaves, `late
      ensures late == old(late) + if old(Late(slaves[id], f.alpha)) then 1 else 0
      ensures slaves == old(slaves)[id := old(slaves)[id].(free := true, finished := false, used := old(slaves)[id].used - 1)]
      ensures h == With(f, old(slaves[id].score), list[old(slaves[id].idx)]) && h.alpha <= beta
      ensures Valid() && WorkOk(g, p, list, n, depth, ply, slaves, h.alpha, beta)
      ensures h.alpha < beta ==> Underway(p, list, n, depth, ply, h.alpha, beta, o)
      ensures Improves(g, p, list, depth, ply, f, h, beta)
      ensures ToDo(list, n) < old(ToDo(list, n)) && Unaccounted() == old(Unaccounted())
    {
      var was := slaves[id];
      var s := was.(free := true, finished := false, used := was.used - 1);
      Released(g, p, list, n, depth, ply, slaves, id, s, f, beta);
      WeightAfter(slaves, id, s);
      CallsAfter(slaves, id, s);
      TakeFirst(slaves, [id] + readyQueue, s);
      if Late(was, f.alpha) {
        late := late + 1;
      }
      slaves := slaves[id := s];
      h := f;
      if was.score > f.bestscore {
        h := h.(bestscore := was.score, best := Some(list[was.idx]));
      }
      if was.score > f.alpha {
        h := h.(alpha := was.score);
      }
    }

    // What is done with an answer: the move is searched again, which is so exactly for a null-window answer strictly
    // inside the window, or alpha is raised, and with a cutoff all slaves are aborted.
    method Settle(id: nat, p: Pos, list: seq<Move>, n: nat, depth: int, ply: nat, f: Found, beta: int, ghost o: Origin)
      returns (h: Found)
      requires ply + 1 + Depth(depth) < MAXPLY && n <= |list| && f.bestscore == f.alpha < beta
      requires Taken(id, p, list, n, depth, ply, f.alpha, beta, o)
      modifies `slaves, `readyQueue, `restarts, `late
      ensures if old(slaves[id].nullwin && f.alpha < slaves[id].score < beta)
              then h == f && slaves == old(slaves)[id := Again(old(slaves[id]), p, list, depth, ply, f.alpha, beta)]
                   && restarts == old(restarts) + 1 && late == old(late)
              else h == With(f, old(slaves[id].score), list[old(slaves[id].idx)]) && restarts == old(restarts)
                   && late == old(late) + if old(Late(slaves[id], f.alpha)) then 1 else 0
      ensures h.alpha <= beta && Unaccounted() == old(Unaccounted())
      ensures Improves(g, p, list, depth, ply, f, h, beta)
      ensures h.alpha >= beta ==> Idle() && (Exact() ==> late == o.late) && late >= o.late
      ensures h.alpha < beta ==> Underway(p, list, n, depth, ply, h.alpha, beta, o) && ToDo(list, n) < old(ToDo(list, n))
    {
      if slaves[id].nullwin && f.alpha < slaves[id].score < beta {
        h := f;
        SearchAgain(id, p, list, n, depth, ply, f.alpha, beta, o);
      } else {
        h := Release(id, p, list, n, depth, ply, f, beta, o);
        if h.alpha >= beta {
          AbortAllSlaves();
        }
      }
    }

    // Wait for an answer, and settle it.
    method Answered(p: Pos, list: seq<Move>, n: nat, depth: int, ply: nat, f: Found, beta: int, ghost o: Origin)
      returns (h: Found)
      requires ply + 1 + Depth(depth) < MAXPLY && n <= |list| && f.bestscore == f.alpha < beta && !AllFree(slaves)
      requires Underway(p, list, n, depth, ply, f.alpha, beta, o)
      modifies `slaves, `readyQueue, `restarts, `late
      ensures h.alpha <= beta && Unaccounted() == old(Unaccounted())
      ensures Improves(g, p, list, depth, ply, f, h, beta)
      ensures h.alpha >= beta ==> Idle() && (Exact() ==> late == o.late) && late >= o.late
      ensures h.alpha < beta ==> Underway(p, list, n, depth, ply, h.alpha, beta, o) && ToDo(list, n) < old(ToDo(list, n))
    {
      ghost var was := slaves;
      var id := WaitSlaveReady();
      WorkOfSame(g, p, list, n, depth, ply, was, slaves, f.alpha, beta);
      WeightOfSame(was, slaves);
      FreshOfSame(was, slaves, f.alpha);
      h := Settle(id, p, list, n, depth, ply, f, beta, o);
    }

    // One round: wait for an answer, take it, and hand out more moves; or cut off and abort all.
    method Round(p: Pos, list: seq<Move>, n0: nat, depth: int, ply: nat, floor: int, f: Found, beta: int,
                 ghost before: seq<Move>, ghost first: nat, ghost unaccounted: int, ghost o: Origin)
      returns (h: Found, n: nat)
      requires ply + 1 + Depth(depth) < MAXPLY && 1 <= n0 <= |list| && f.bestscore == f.alpha < beta && !AllFree(slaves)
      requires Underway(p, list, n0, depth, ply, f.alpha, beta, o) && HandedOn(before, list, first, n0, unaccounted)
      modifies `slaves, `readyQueue, `handed, `restarts, `late
      ensures h.alpha <= beta && n0 <= n <= |list| && Improves(g, p, list, depth, ply, f, h, beta)
      ensures HandedOn(before, list, first, n, unaccounted)
      ensures h.alpha >= beta ==> Idle() && (Exact() ==> late == o.late) && late >= o.late
      ensures h.alpha < beta ==> Underway(p, list, n, depth, ply, h.alpha, beta, o) && ToDo(list, n) < old(ToDo(list, n0))
      ensures h.alpha < beta ==> n == |list| || FreeOne(None)
    {
      n := n0;
      h := Answered(p, list, n, depth, ply, f, beta, o);
      if h.alpha < beta {
        n := HandOut(p, list, n, depth, ply, floor, h.alpha, beta, before, first, unaccounted, o);
      }
    }

    // The rounds of the master loop after the first move, whatever the order in which slaves finish.
    // Alpha never falls and never rises above what the recorded move scores. Slaves are started once on each
    // of the first n moves, and for no other reason than to search a move again; all moves are given out
    // unless there was a cutoff. If no null-window answer was late, no move scores above the final alpha; and no
    // answer is late unless alpha was raised, in PVS mode 0, or with one slave.
    method Remaining(p: Pos, list: seq<Move>, depth: int, ply: nat, floor: int, f: Found, beta: int)
      returns (h: Found, n: nat)
      requires Idle() && ply + 1 + Depth(depth) < MAXPLY && |list| > 0 && f.bestscore == f.alpha < beta
      modifies `slaves, `readyQueue, `handed, `restarts, `late
      ensures Idle() && h.alpha <= beta
      ensures Improves(g, p, list, depth, ply, f, h, beta)
      ensures 1 <= n <= |list| && handed == old(handed) + list[1..n] && (h.alpha < beta ==> n == |list|)
      ensures Calls(slaves) - old(Calls(slaves)) == n - 1 + restarts - old(restarts)
      ensures late >= old(late) && (Exact() || h.alpha == f.alpha ==> late == old(late))
      ensures late == old(late) && h.alpha < beta ==>
                forall j :: 1 <= j < |list| ==> ChildScore(g, p, list[j], depth, ply) <= h.alpha
    {
      h := f;
      NothingHandedOut(g, p, list, depth, ply, slaves, f.alpha, beta);
      ghost var before, unaccounted, o := handed, Unaccounted(), Origin(f.alpha, late);
      n := HandOut(p, list, 1, depth, ply, floor, f.alpha, beta, before, 1, unaccounted, o);
      var all := AllSlavesFree();
      while !all && h.alpha < beta
        invariant 1 <= n <= |list| && h.alpha <= beta
        invariant Improves(g, p, list, depth, ply, f, h, beta)
        invariant HandedOn(before, list, 1, n, unaccounted)
        invariant h.alpha >= beta ==> Idle() && (Exact() ==> late == o.late) && late >= o.late
        invariant h.alpha < beta ==> Underway(p, list, n, depth, ply, h.alpha, beta, o)
        invariant h.alpha < beta ==> n == |list| || FreeOne(None)
        invariant all <==> AllFree(slaves)
        decreases h.alpha < beta, ToDo(list, n)
      {
        h, n := Round(p, list, n, depth, ply, floor, h, beta, before, 1, unaccounted, o);
        all := AllSlavesFree();
      }
      if h.alpha < beta {
        NothingOwed(slaves, readyQueue);
        assert slaves[0].free;
        if late == o.late { AllCollected(g, p, list, depth, ply, slaves, h.alpha); }
      }
    }

    // ---- Searching a node -------------------------------------------------------------------

    // How often the master has pruned something or dropped a late answer.
    ghost function Losses(): nat
      reads this
    {
      pruned + late
    }

    // Both generators list the same legal moves, and the master has lost nothing since.
    ghost predicate Plain(was: nat)
      reads this
    {
      GeneratorsAgree(g) && Losses() == was
    }

    // The legal moves of a node, in any order.
    method PickOrder(p: Pos) returns (list: seq<Move>)
      ensures ListsLegal(g, p, list)
    {
      var all := g.all(p);
      list := [];
      for i := 0 to |all|
        invariant forall m :: m in list <==> m in all[..i] && LegalMove(g, p, m)
      {
        assert all[..i + 1] == all[..i] + [all[i]];
        if LegalMove(g, p, all[i]) {
          var k: int := *;
          k := if 0 <= k <= |list| then k else |list|;
          assert list == list[..k] + list[k..];
          list := list[..k] + [all[i]] + list[k..];
        }
      }
      assert all[..|all|] == all;
    }

    // nonparallel_search: one slave searches the whole node. A free slave is found, and the slave that
    // reports itself is the one that was started.
    method Nonparallel(p: Pos, ply: nat, depth: int, low: int, beta: int) returns (score: int)
      requires Idle() && ply + Depth(depth) < MAXPLY && low < beta
      modifies `slaves, `readyQueue
      ensures Idle() && score == Clamp(Value(g, p, depth, ply), low, beta)
    {
      if depth > 0 && g.draw(p).Some? {
        return Clamp(g.draw(p).value, low, beta);
      }
      var id := FindFreeSlave();
      assert slaves[0].free;
      assert id.Some?;
      var was := slaves[id.value];
      Start(id.value,
            was.(free := false, nullwin := false, score := Clamp(Value(g, p, depth, ply), low, beta), calls := was.calls + 1));
      assert !slaves[id.value].free;
      var id1 := WaitSlaveReady();
      assert id1 == id.value;
      score := slaves[id1].score;
      TakeFirst(slaves, [id1] + readyQueue, slaves[id1].(free := true, finished := false));
      slaves := slaves[id1 := slaves[id1].(free := true, finished := false)];
      NothingOwed(slaves, readyQueue);
    }

    // ParallelSearch::search.
    method SearchNode(p: Pos, ply: nat, depth: int, low: int, beta: int, afterNull: bool) returns (score: int)
      requires Idle() && ply + Depth(depth) <= MAXDEPTH && Window(low, beta) && minMoves > 0 && 0 < minDepth
      modifies this
      ensures Idle() && low <= score <= beta && pruned >= old(pruned)
      ensures late >= old(late) && (Exact() ==> late == old(late))
      ensures Plain(old(Losses())) ==> score == Clamp(Value(g, p, depth, ply), low, beta)
      decreases Depth(depth), 5
    {
      if depth < minDepth {
        score := Nonparallel(p, ply, depth, low, beta);
        return;
      }
      if g.draw(p).Some? {
        return Clamp(g.draw(p).value, low, beta);
      }
      var cut := NullMoveCuts(p, ply, depth, beta, afterNull);
      if cut {
        return beta;
      }
      // Internal iterative deepening, unless a move is known already.
      var known: bool := *;
      if !known && depth > 2 {
        var _ := SearchNode(p, ply, depth - 2, low, beta, afterNull);
      }
      var list := PickOrder(p);
      if |list| < minMoves {
        score := SequentialNode(p, list, ply, depth, low, beta);
      } else {
        var best;
        score, best := ParallelNode(p, list, ply, depth, low, beta);
      }
    }

    method NullMoveCuts(p: Pos, ply: nat, depth: int, beta: int, afterNull: bool) returns (cut: bool)
      requires Idle() && depth > 0 && ply + depth <= MAXDEPTH && Window(beta - 1, beta) && minMoves > 0 && 0 < minDepth
      modifies this
      ensures Idle() && pruned >= old(pruned) + if cut then 1 else 0
      ensures late >= old(late) && (Exact() ==> late == old(late))
      ensures cut ==> !g.inCheck(p) && !afterNull && !g.endgame(p)
      ensures Plain(old(Losses()) + if cut then 1 else 0) && !g.inCheck(p) && !afterNull && !g.endgame(p) ==>
                (cut <==> -Value(g, g.child(p, NullMove), Depth(depth - 3), ply + 1) >= beta)
      decreases Depth(depth), 0
    {
      cut := false;
      if !g.inCheck(p) && !afterNull && !g.endgame(p) {
        var score := SearchNode(g.child(p, NullMove), ply + 1, depth - 2 - 1, -beta, -beta + 1, true);
        if -score >= beta {
          pruned := pruned + 1;
          cut := true;
        }
      }
    }

    // A search of a child in one window.
    method SearchBelow(p: Pos, m: Move, ply: nat, depth: int, alpha: int, beta: int) returns (score: int)
      requires Idle() && depth > 0 && ply + depth <= MAXDEPTH && Window(alpha, beta) && minMoves > 0 && 0 < minDepth
      modifies this
      ensures Idle() && alpha <= score <= beta && pruned >= old(pruned)
      ensures late >= old(late) && (Exact() ==> late == old(late))
      ensures Plain(old(Losses())) ==> score == Clamp(ChildScore(g, p, m, depth - 1, ply), alpha, beta)
      decreases Depth(depth), 0
    {
      score := SearchNode(g.child(p, m), ply + 1, depth - 1, -beta, -alpha, false);
      score := -score;
      ClampNegated(ChildScore(g, p, m, depth - 1, ply), alpha, beta);
    }

    // The score of one move, searched by the master itself.
    method SearchMove(p: Pos, m: Move, ply: nat, depth: int, alpha: int, beta: int, nullwin: bool) returns (score: int)
      requires Idle() && depth > 0 && ply + depth <= MAXDEPTH && Window(alpha, beta) && minMoves > 0 && 0 < minDepth
      modifies this
      ensures Idle() && alpha <= score <= beta && pruned >= old(pruned)
      ensures late >= old(late) && (Exact() ==> late == old(late))
      ensures Plain(old(Losses())) ==> score == Clamp(ChildScore(g, p, m, depth - 1, ply), alpha, beta)
      decreases Depth(depth), 1
    {
      if nullwin {
        score := SearchBelow(p, m, ply, depth, alpha, alpha + 1);
        if alpha < score < beta {
          score := SearchBelow(p, m, ply, depth, alpha, beta);
        }
      } else {
        score := SearchBelow(p, m, ply, depth, alpha, beta);
      }
    }

    // parallel_search: the first move by the master, the others by the slaves. Unless a late answer is dropped,
    // which cannot be in PVS mode 0 and with one slave, the result is the negamax value bounded to the window, for
    // every order in which slaves finish; strictly inside the window the move recorded as best has exactly this score.
    method ParallelNode(p: Pos, list: seq<Move>, ply: nat, depth: int, low: int, beta: int)
      returns (alpha: int, best: Option<Move>)
      requires Idle() && depth > 0 && ply + depth <= MAXDEPTH && Window(low, beta) && minMoves > 0 && 0 < minDepth
      requires g.draw(p) == None && |list| > 0 && ListsLegal(g, p, list)
      modifies this
      ensures Idle() && low <= alpha <= beta && pruned >= old(pruned)
      ensures late >= old(late) && (Exact() ==> late == old(late))
      ensures Plain(old(Losses())) ==> alpha == Clamp(Value(g, p, depth, ply), low, beta)
      ensures Plain(old(Losses())) && low < alpha < beta ==> BestAttains(g, p, best, depth - 1, ply, alpha)
      decreases Depth(depth), 4
    {
      var bestscore;
      best, bestscore := None, -INFTY;
      var score := SearchMove(p, list[0], ply, depth, low, beta, false);
      if score > bestscore {
        best, bestscore := Some(list[0]), score;
      }
      alpha, best := ShareOut(p, list, ply, depth, low, Found(score, bestscore, best), beta, Plain(old(Losses())));
    }

    // The rest of a node whose first move has been searched. If the first move's score and the slaves'
    // answers are bounded values, then for every order in which slaves finish, and in every PVS mode, the
    // result never falls below the first score and never exceeds the bounded value of the node, and strictly
    // inside the window it is the score of the move recorded as best. It is the bounded value if no late answer
    // has been dropped; none is if the result is the first score, in mode 0, or with one slave.
    method ShareOut(p: Pos, list: seq<Move>, ply: nat, depth: int, low: int, f: Found, beta: int, ghost exact: bool)
      returns (alpha: int, best: Option<Move>)
      requires Idle() && depth > 0 && ply + depth <= MAXDEPTH && low <= f.alpha == f.bestscore <= beta && low < beta
      requires g.draw(p) == None && |list| > 0 && ListsLegal(g, p, list)
      requires exact ==> FirstSearched(g, p, list, depth, ply, low, f, beta)
      modifies `slaves, `readyQueue, `handed, `restarts, `late
      ensures Idle() && f.alpha <= alpha <= beta
      ensures exact ==> alpha <= Clamp(Value(g, p, depth, ply), low, beta)
      ensures exact && low < alpha < beta ==> BestAttains(g, p, best, depth - 1, ply, alpha)
      ensures late >= old(late) && (Exact() || alpha == f.alpha ==> late == old(late))
      ensures exact && late == old(late) ==> alpha == Clamp(Value(g, p, depth, ply), low, beta)
    {
      var h := f;
      if f.alpha < beta {
        var n;
        h, n := Remaining(p, list, depth - 1, ply, low, f, beta);
      }
      if exact {
        ParallelSandwich(g, p, list, depth, ply, low, f, h, beta);
        if late == old(late) { ParallelResult(g, p, list, depth, ply, low, f, h, beta); }
      }
      alpha, best := h.alpha, h.best;
    }

    // Search::search for a node with few moves.
    method SequentialNode(p: Pos, list: seq<Move>, ply: nat, depth: int, low: int, beta: int) returns (alpha: int)
      requires Idle() && depth > 0 && ply + depth <= MAXDEPTH && Window(low, beta) && minMoves > 0 && 0 < minDepth
      requires g.draw(p) == None && ListsLegal(g, p, list)
      modifies this
      ensures Idle() && low <= alpha <= beta && pruned >= old(pruned)
      ensures late >= old(late) && (Exact() ==> late == old(late))
      ensures Plain(old(Losses())) ==> alpha == Clamp(Value(g, p, depth, ply), low, beta)
      decreases Depth(depth), 4
    {
      var r := Shortened(g.material(p), depth, low);
      var d := r.depth;
      if d < depth {
        pruned := pruned + 1;
      }
      alpha := low;
      var n, moves, first := 0, 0, true;
      ghost var start := old(Losses());
      NothingSearched(g, p, list, d - 1, ply, low);
      while n < |list| && alpha < beta
        invariant Idle() && n <= |list| && low <= alpha <= beta && pruned >= old(pruned) && late >= old(late)
        invariant (d < depth ==> pruned > old(pruned)) && (Exact() ==> late == old(late))
        invariant alpha < beta ==> moves == n
        invariant alpha >= beta && Plain(start) ==> Value(g, p, depth, ply) >= beta
        invariant alpha < beta && Plain(start) ==> alpha == Raised(g, p, list, n, d - 1, ply, low)
        decreases alpha < beta, |list| - n
      {
        var searched;
        alpha, first, searched := SequentialRound(p, list, n, ply, depth, d, r.fprune, first, low, alpha, beta, start);
        if alpha < beta {
          n, moves := n + 1, moves + 1;
        }
      }
      if alpha < beta {
        if Plain(start) { SequentialResult(g, p, list, d, ply, low, alpha, beta); }
        if moves == 0 {
          alpha := Clamp(MateScore(g, p, ply), alpha, beta);
        }
      }
    }

    method SequentialRound(p: Pos, list: seq<Move>, n: nat, ply: nat, depth: int, d: int, fprune: bool, first: bool, floor: int,
                           low: int, beta: int, ghost start: nat)
      returns (alpha: int, next: bool, searched: bool)
      requires Idle() && 0 < d <= depth && ply + depth <= MAXDEPTH && Window(low, beta) && minMoves > 0 && 0 < minDepth
      requires g.draw(p) == None && ListsLegal(g, p, list) && n < |list| && floor <= low && Losses() >= start
      requires d < depth ==> Losses() > start
      requires Plain(start) ==> low == Raised(g, p, list, n, d - 1, ply, floor)
      modifies this
      ensures Idle() && low <= alpha <= beta && pruned >= old(pruned)
      ensures late >= old(late) && (Exact() ==> late == old(late))
      ensures alpha >= beta && Plain(start) ==> Value(g, p, depth, ply) >= beta
      ensures alpha < beta && Plain(start) ==> alpha == Raised(g, p, list, n + 1, d - 1, ply, floor)
      ensures searched <==> !(fprune && !g.inCheck(p) && !g.inCheck(g.child(p, list[n]))
                              && !list[n].IsCapture() && !list[n].EnPassant? && !list[n].IsPromotion())
      ensures !searched ==> alpha == low && pruned == old(pruned) + 1
      decreases Depth(depth), 2
    {
      var m := list[n];
      assert m in list;
      alpha, next, searched := low, first, false;
      if fprune && !g.inCheck(p) && !g.inCheck(g.child(p, m)) && !m.IsCapture() && !m.EnPassant? && !m.IsPromotion() {
        pruned := pruned + 1;
      } else {
        var nullwin := (ownPvsMode == 1 && !first) || (ownPvsMode == 2 && low > floor);
        var score := SearchMove(p, m, ply, d, low, beta, nullwin);
        next, searched := false, true;
        alpha := Max(low, score);
        if Plain(start) {
          SearchedOneMore(g, p, list, n, d - 1, ply, floor, low, beta, score);
          if score >= beta { SequentialCut(g, p, list, n, d, ply, low, beta, score); }
        }
      }
    }
  }

  lemma GivenOn(before: seq<Move>, list: seq<Move>, i: nat, j: nat, k: nat)
    requires i <= j <= k <= |list|
    ensures before + list[i..j] + list[j..k] == before + list[i..k]
  {
    assert list[i..j] + list[j..k] == list[i..k];
  }

  lemma QueuedIsBusy(slaves: seq<Slave>, ready: seq<nat>)
    requires QueueOk(slaves, ready) && ready != []
    ensures ready[0] < |slaves| && !slaves[ready[0]].free
  {}

  lemma NothingOwed(slaves: seq<Slave>, ready: seq<nat>)
    requires QueueOk(slaves, ready) && AllFree(slaves)
    ensures ready == []
  {
    if ready != [] {
      QueuedIsBusy(slaves, ready);
    }
  }

  lemma NothingHandedOut(g: Game, p: Pos, list: seq<Move>, depth: int, ply: nat, slaves: seq<Slave>, alpha: int, beta: int)
    requires ply + 1 + Depth(depth) < MAXPLY && |list| > 0 && AllFree(slaves)
    ensures WorkOk(g, p, list, 1, depth, ply, slaves, alpha, beta) && Covered(g, p, list, 1, depth, ply, slaves, alpha)
  {}

  lemma AllCollected(g: Game, p: Pos, list: seq<Move>, depth: int, ply: nat, slaves: seq<Slave>, alpha: int)
    requires ply + 1 + Depth(depth) < MAXPLY && AllFree(slaves)
    requires Covered(g, p, list, |list|, depth, ply, slaves, alpha)
    ensures forall j :: 1 <= j < |list| ==> ChildScore(g, p, list[j], depth, ply) <= alpha
  {}

  // The value of a node is the best score over any list of its legal moves.
  lemma ValueOfLegal(g: Game, p: Pos, list: seq<Move>, depth: int, ply: nat)
    requires depth > 0 && ply + depth < MAXPLY && g.draw(p) == None && GeneratorsAgree(g) && ListsLegal(g, p, list)
    ensures Best(g, p, list, depth - 1, ply) == Best(g, p, g.moves(p), depth - 1, ply)
  {
    forall m | LegalMove(g, p, m) ensures m in list <==> m in g.moves(p) {
      assert m in g.all(p) <==> m in g.moves(p);
    }
    BestOfSameLegal(g, p, list, g.moves(p), depth - 1, ply);
  }

  // The first move has been searched in the window, and recorded if it scores above it.
  ghost predicate FirstSearched(g: Game, p: Pos, list: seq<Move>, depth: int, ply: nat, low: int, f: Found, beta: int)
    requires depth > 0 && ply + depth < MAXPLY && |list| > 0
  {
    && GeneratorsAgree(g) && f.alpha == Clamp(ChildScore(g, p, list[0], depth - 1, ply), low, beta)
    && (f.alpha > low ==> f.best == Some(list[0]))
  }

  // The first move's bounded score and what the master loop promises make the bounded value.
  lemma ParallelResult(g: Game, p: Pos, list: seq<Move>, depth: int, ply: nat, low: int, f: Found, h: Found, beta: int)
    requires depth > 0 && ply + depth < MAXPLY && g.draw(p) == None && ListsLegal(g, p, list) && |list| > 0
    requires low < beta && FirstSearched(g, p, list, depth, ply, low, f, beta)
    requires h.alpha <= beta && Improves(g, p, list, depth - 1, ply, f, h, beta)
    requires h.alpha < beta ==> forall j :: 1 <= j < |list| ==> ChildScore(g, p, list[j], depth - 1, ply) <= h.alpha
    ensures h.alpha == Clamp(Value(g, p, depth, ply), low, beta)
  {
    ValueOfLegal(g, p, list, depth, ply);
    assert list[0] in list;
    BestIsUpperBound(g, p, list, depth - 1, ply, list[0]);
    var m := BestIsAttained(g, p, list, depth - 1, ply);
    if f != h {
      BestIsUpperBound(g, p, list, depth - 1, ply, h.best.value);
    }
  }

  // In every PVS mode: the result never exceeds the bounded value of the node and never falls below
  // the bounded score of the first move, and inside the window it is the score of the recorded move.
  lemma ParallelSandwich(g: Game, p: Pos, list: seq<Move>, depth: int, ply: nat, low: int, f: Found, h: Found, beta: int)
    requires depth > 0 && ply + depth < MAXPLY && g.draw(p) == None && ListsLegal(g, p, list) && |list| > 0
    requires low < beta && FirstSearched(g, p, list, depth, ply, low, f, beta)
    requires h.alpha <= beta && Improves(g, p, list, depth - 1, ply, f, h, beta)
    ensures f.alpha <= h.alpha <= Clamp(Value(g, p, depth, ply), low, beta)
    ensures low < h.alpha < beta ==> BestAttains(g, p, h.best, depth - 1, ply, h.alpha)
  {
    ValueOfLegal(g, p, list, depth, ply);
    assert list[0] in list;
    BestIsUpperBound(g, p, list, depth - 1, ply, list[0]);
    if f != h {
      BestIsUpperBound(g, p, list, depth - 1, ply, h.best.value);
    }
  }

  lemma SequentialResult(g: Game, p: Pos, list: seq<Move>, depth: int, ply: nat, low: int, alpha: int, beta: int)
    requires depth > 0 && ply + depth < MAXPLY && g.draw(p) == None && GeneratorsAgree(g) && ListsLegal(g, p, list)
    requires low < beta && alpha < beta && alpha == Raised(g, p, list, |list|, depth - 1, ply, low)
    ensures (if list == [] then Clamp(MateScore(g, p, ply), alpha, beta) else alpha) == Clamp(Value(g, p, depth, ply), low, beta)
  {
    ValueOfLegal(g, p, list, depth, ply);
    assert list[..|list|] == list;
    if list != [] {
      assert list[0] in list;
      BestIsUpperBound(g, p, list, depth - 1, ply, list[0]);
    }
  }

  lemma SequentialCut(g: Game, p: Pos, list: seq<Move>, n: nat, depth: int, ply: nat, alpha: int, beta: int, score: int)
    requires depth > 0 && ply + depth < MAXPLY && g.draw(p) == None && GeneratorsAgree(g) && ListsLegal(g, p, list) && n < |list|
    requires alpha < beta <= score && Clamp(score, alpha, beta) == Clamp(ChildScore(g, p, list[n], depth - 1, ply), alpha, beta)
    ensures Value(g, p, depth, ply) >= beta
  {
    ValueOfLegal(g, p, list, depth, ply);
    assert list[n] in list;
    BestIsUpperBound(g, p, list, depth - 1, ply, list[n]);
  }
}
