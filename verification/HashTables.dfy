// The transposition table (src/common/hash.cc), what search.cc stores in it, and when that is true.
module HashTables {
  import opened Basic
  import opened Moves
  import opened GameTree

  datatype Bound = Exact | Alpha | Beta

  datatype HashEntry = HashEntry(key: nat, score: int, move: Option<Move>, depth: int, bound: Bound)

  // ---- One slot per remainder, always replaced --------------------------------------------

  class HashTable {
    const table: array<Option<HashEntry>>
    var statProbes: nat
    var statHits: nat
    var statCollisions2: nat

    ghost predicate Valid() {
      table.Length > 0
    }

    constructor (size: nat)
      requires size > 0
      ensures Valid() && fresh(table) && table.Length == size && forall i :: 0 <= i < size ==> table[i] == None
    {
      table := new Option<HashEntry>[size](_ => None);
      statProbes, statHits, statCollisions2 := 0, 0, 0;
    }

    method Put(e: HashEntry)
      requires Valid()
      modifies table
      ensures table[..] == old(table[..])[e.key % table.Length := Some(e)]
    {
      table[e.key % table.Length] := Some(e);
    }

    // What a probe finds: the entry in the position's slot, if it has the position's key and its move, if any,
    // is valid and legal there.
    function Held(g: Game, p: Pos): Option<HashEntry>
      requires Valid()
      reads table
    {
      match table[g.key(p) % table.Length]
      case None => None
      case Some(e) =>
        if e.key == g.key(p) && (e.move.Some? ==> g.valid(p, e.move.value) && LegalMove(g, p, e.move.value)) then Some(e) else None
    }

    method Probe(g: Game, p: Pos) returns (r: Option<HashEntry>)
      requires Valid()
      modifies this
      ensures r == Held(g, p)
    {
      statProbes := statProbes + 1;
      var slot := table[g.key(p) % table.Length];
      if slot == None || slot.value.key != g.key(p) {
        return None;
      }
      var e := slot.value;
      if e.move.Some? {
        if !g.valid(p, e.move.value) {
          statCollisions2 := statCollisions2 + 1;
          return None;
        }
        if !LegalMove(g, p, e.move.value) {
          return None;
        }
      }
      statHits := statHits + 1;
      return slot;
    }

    // Every entry is a true statement about the quiescence value of the positions with its key.
    ghost predicate Truthful(g: Game)
      reads table
    {
      forall i | 0 <= i < table.Length && table[i].Some? :: EntryTrue(g, table[i].value)
    }
  }

  // ---- What store_hashtable writes --------------------------------------------------------

  function StoredBound(alpha: int, beta: int, score: int): Bound {
    if score >= MATE then Beta
    else if score <= -MATE then Alpha
    else if score >= beta then Beta
    else if score <= alpha then Alpha
    else Exact
  }

  function StoredScore(score: int): int {
    if score >= MATE then MATE else if score <= -MATE then -MATE else score
  }

  // An entry answers a search of a window: it was searched deep enough, and its bound decides.
  predicate Decides(e: HashEntry, depth: int, alpha: int, beta: int) {
    && e.depth >= depth
    && match e.bound
       case Exact => true
       case Alpha => e.score <= alpha
       case Beta => e.score >= beta
  }

  predicate Truth(bound: Bound, score: int, value: int) {
    match bound
    case Exact => value == score
    case Alpha => value <= score
    case Beta => value >= score
  }

  // What is stored for a fail-hard search of a position with this value is true of it.
  predicate StoredTrue(alpha: int, beta: int, value: int) {
    var score := Clamp(value, alpha, beta);
    Truth(StoredBound(alpha, beta, score), StoredScore(score), value)
  }

  // A fail-hard result is stored truthfully if and only if it is not a fail-low at an alpha beyond
  // mate, nor a fail-high at a beta beyond being mated.
  lemma StoredTruthfullyIff(alpha: int, beta: int, value: int)
    requires alpha < beta
    ensures StoredTrue(alpha, beta, value) <==> !(alpha >= MATE && value < MATE) && !(beta <= -MATE && value > -MATE)
  {}

  // Every result of a window is stored truthfully if and only if the window reaches below mate and above
  // being mated.
  lemma WindowTruthfulIff(alpha: int, beta: int)
    requires alpha < beta
    ensures (forall value: int :: StoredTrue(alpha, beta, value)) <==> alpha < MATE && beta > -MATE
  {
    StoredTruthfullyIff(alpha, beta, MATE - 1);
    StoredTruthfullyIff(alpha, beta, -MATE + 1);
    assert alpha >= MATE ==> !StoredTrue(alpha, beta, MATE - 1);
    assert beta <= -MATE ==> !StoredTrue(alpha, beta, -MATE + 1);
  }

  // ---- Quiescence values do not depend on the ply -----------------------------------------

  // No line of legal tactical moves from p is longer than h.
  ghost predicate Settled(g: Game, p: Pos, h: nat)
    decreases h
  {
    forall m | m in g.tactical(p) && LegalMove(g, p, m) :: h > 0 && Settled(g, g.child(p, m), h - 1)
  }

  // No line of tactical moves from p reaches the depth limit.
  ghost predicate Calm(g: Game, p: Pos) {
    Settled(g, p, MAXPLY - 2)
  }

  ghost predicate StandSmall(g: Game) {
    forall p: Pos :: -MATE < g.stand(p) < MATE
  }

  // Positions with equal keys have equal boards: the search can do the same from both.
  ghost predicate KeysIdentify(g: Game) {
    forall p: Pos, q: Pos | g.key(p) == g.key(q) :: SameBoard(g, p, q)
  }

  ghost predicate SameBoard(g: Game, p: Pos, q: Pos) {
    && g.stand(p) == g.stand(q) && g.tactical(p) == g.tactical(q) && g.inCheck(p) == g.inCheck(q)
    && g.legal(p) == g.legal(q)
    && forall m: Move :: g.key(g.child(p, m)) == g.key(g.child(q, m))
  }

  ghost predicate EntryTrue(g: Game, e: HashEntry) {
    forall p: Pos | g.key(p) == e.key && Calm(g, p) :: Truth(e.bound, e.score, Quiet(g, p, 0))
  }

  lemma {:induction false} SettledMore(g: Game, p: Pos, h: nat, k: nat)
    requires Settled(g, p, h) && h <= k
    ensures Settled(g, p, k)
    decreases h
  {
    forall m | m in g.tactical(p) && LegalMove(g, p, m) ensures k > 0 && Settled(g, g.child(p, m), k - 1) {
      SettledMore(g, g.child(p, m), h - 1, k - 1);
    }
  }

  lemma {:induction false} QuietSame(g: Game, p: Pos, q: Pos, i: nat, j: nat, h: nat)
    requires KeysIdentify(g) && StandSmall(g) && Settled(g, p, h) && g.key(p) == g.key(q)
    requires i + h <= MAXPLY - 2 && j + h <= MAXPLY - 2
    ensures Quiet(g, p, i) == Quiet(g, q, j) && -MATE < Quiet(g, p, i)
    decreases h, 1
  {
    assert SameBoard(g, p, q);
    BestSame(g, p, q, g.tactical(p), i, j, h);
    assert -MATE < g.stand(p);
  }

  lemma {:induction false} BestSame(g: Game, p: Pos, q: Pos, list: seq<Move>, i: nat, j: nat, h: nat)
    requires KeysIdentify(g) && StandSmall(g) && SameBoard(g, p, q)
    requires i + h <= MAXPLY - 2 && j + h <= MAXPLY - 2
    requires forall m | m in list && LegalMove(g, p, m) :: h > 0 && Settled(g, g.child(p, m), h - 1)
    ensures Best(g, p, list, 0, i) == Best(g, q, list, 0, j)
    decreases h, 0, |list|
  {
    if list != [] {
      var m := list[0];
      BestSame(g, p, q, list[1..], i, j, h);
      assert SameBoard(g, g.child(p, m), g.child(q, m));
      if LegalMove(g, p, m) {
        QuietSame(g, g.child(p, m), g.child(q, m), i + 1, j + 1, h - 1);
      }
    }
  }

  lemma {:induction false} QuietSmall(g: Game, p: Pos, ply: nat)
    requires StandSmall(g) && ply < MAXPLY
    ensures -MATE < Quiet(g, p, ply) < MATE
    decreases MAXPLY - ply
  {
    if ply < MAXPLY - 1 {
      assert -MATE < g.stand(p) < MATE;
      var b := Best(g, p, g.tactical(p), 0, ply);
      if b.Some? {
        var m := BestIsAttained(g, p, g.tactical(p), 0, ply);
        QuietSmall(g, g.child(p, m), ply + 1);
      }
    }
  }

  // ---- The table stays truthful -----------------------------------------------------------

  lemma ProbeIsTrue(t: HashTable, g: Game, p: Pos, ply: nat, alpha: int, beta: int, e: HashEntry)
    requires t.Valid() && t.Truthful(g) && alpha < beta && KeysIdentify(g) && StandSmall(g)
    requires t.table[g.key(p) % t.table.Length] == Some(e) && e.key == g.key(p)
    requires ply <= MAXPLY - 2 && Settled(g, p, MAXPLY - 2 - ply)
    ensures Truth(e.bound, e.score, Quiet(g, p, ply))
  {
    SettledMore(g, p, MAXPLY - 2 - ply, MAXPLY - 2);
    QuietSame(g, p, p, ply, 0, MAXPLY - 2 - ply);
    assert EntryTrue(g, e);
  }

  lemma StoreIsTrue(g: Game, p: Pos, ply: nat, alpha: int, beta: int, e: HashEntry)
    requires KeysIdentify(g) && StandSmall(g) && ply <= MAXPLY - 2 && Settled(g, p, MAXPLY - 2 - ply)
    requires alpha < beta && alpha < MATE && beta > -MATE
    requires var score := Clamp(Quiet(g, p, ply), alpha, beta);
             e.key == g.key(p) && e.score == StoredScore(score) && e.bound == StoredBound(alpha, beta, score)
    ensures EntryTrue(g, e)
  {
    QuietSmall(g, p, ply);
    StoredTruthfullyIff(alpha, beta, Quiet(g, p, ply));
    forall q: Pos | g.key(q) == e.key && Calm(g, q) ensures Truth(e.bound, e.score, Quiet(g, q, 0)) {
      QuietSame(g, p, q, ply, 0, MAXPLY - 2 - ply);
    }
  }

  // ---- One move of the quiescence loop ----------------------------------------------------

  // Lines of tactical moves end before the depth limit, and alpha is below mate.
  ghost predicate CalmFrom(g: Game, p: Pos, ply: nat, alpha: int) {
    && KeysIdentify(g) && StandSmall(g) && alpha < MATE
    && ply <= MAXPLY - 2 && Settled(g, p, MAXPLY - 2 - ply)
  }

  ghost predicate CalmWindow(g: Game, p: Pos, ply: nat, alpha: int, beta: int) {
    CalmFrom(g, p, ply, alpha) && beta > -MATE
  }

  // Where standing pat is not enough for a cutoff, beta is above being mated.
  lemma CalmBelow(g: Game, p: Pos, ply: nat, stand: int, alpha: int, beta: int)
    requires CalmFrom(g, p, ply, alpha) && alpha < beta && stand < beta
    requires Clamp(stand, alpha, beta) == Clamp(g.stand(p), alpha, beta)
    ensures CalmWindow(g, p, ply, alpha, beta)
  {
    assert -MATE < g.stand(p);
  }

  lemma CalmChild(g: Game, p: Pos, m: Move, ply: nat, alpha: int, beta: int)
    requires CalmWindow(g, p, ply, alpha, beta) && m in g.tactical(p) && LegalMove(g, p, m)
    ensures CalmWindow(g, g.child(p, m), ply + 1, -beta, -alpha)
  {}

  lemma CalmNext(g: Game, p: Pos, m: Move, ply: nat, alpha: int, beta: int, score: int)
    requires CalmWindow(g, p, ply, alpha, beta) && alpha < beta && ply < MAXPLY - 1
    requires Clamp(score, alpha, beta) == Clamp(ChildScore(g, p, m, 0, ply), alpha, beta)
    ensures score < beta ==> CalmWindow(g, p, ply, Max(alpha, score), beta)
  {
    QuietSmall(g, g.child(p, m), ply + 1);
  }

  lemma CalmStart(g: Game, p: Pos, ply: nat, stand: int, low: int, beta: int)
    requires CalmWindow(g, p, ply, low, beta) && low < beta
    requires Clamp(stand, low, beta) == Clamp(g.stand(p), low, beta) && stand < beta
    ensures CalmWindow(g, p, ply, Max(low, stand), beta)
  {}
}
