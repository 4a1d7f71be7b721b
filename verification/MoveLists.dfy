// The move list (src/common/movelist.h): it holds at most MOVELIST_MAXSIZE moves and drops the rest.
module MoveLists {
  import opened Moves

  const MOVELIST_MAXSIZE: nat := 256

  ghost predicate Distinct(s: seq<Move>) {
    forall i, j :: 0 <= i < j < |s| ==> s[i] != s[j]
  }

  function Capped(s: seq<Move>): seq<Move> {
    if |s| <= MOVELIST_MAXSIZE then s else s[..MOVELIST_MAXSIZE]
  }

  function Swap<T>(s: seq<T>, i: nat, j: nat): seq<T>
    requires i < |s| && j < |s|
  {
    s[i := s[j]][j := s[i]]
  }

  lemma Swapped<T>(s: seq<T>, i: nat, j: nat)
    requires i < |s| && j < |s|
    ensures multiset(Swap(s, i, j)) == multiset(s)
  {}

  // The last element takes the place of the i-th.
  function Dropped<T>(s: seq<T>, i: nat): seq<T>
    requires i < |s|
  {
    Swap(s, i, |s| - 1)[..|s| - 1]
  }

  lemma DroppedOne<T>(s: seq<T>, i: nat)
    requires i < |s|
    ensures multiset(Dropped(s, i)) == multiset(s) - multiset{s[i]}
  {
    Swapped(s, i, |s| - 1);
    assert Swap(s, i, |s| - 1) == Dropped(s, i) + [s[i]];
  }

  class Movelist {
    var moves: seq<Move>
    // Every move that has been added since the list was cleared, kept or dropped.
    ghost var all: seq<Move>

    ghost predicate Valid()
      reads this
    {
      moves == Capped(all)
    }

    constructor ()
      ensures Valid() && all == []
    {
      moves, all := [], [];
    }

    method Clear()
      modifies this
      ensures Valid() && all == []
    {
      moves, all := [], [];
    }

    method Add(m: Move)
      requires Valid()
      modifies this
      ensures Valid() && all == old(all) + [m]
      ensures m !in old(all) && Distinct(old(all)) ==> Distinct(all)
    {
      all := all + [m];
      if |moves| < MOVELIST_MAXSIZE {
        moves := moves + [m];
      }
    }
  }
}
