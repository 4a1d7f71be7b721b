// The opening book: an open-addressing table in a file, here an array of slots (src/common/book.cc).
module OpeningBook {
  import opened Basic
  import opened Moves

  const NR_MOVES: nat := 4

  type Hash = k: int | 0 <= k < 0x1_0000_0000_0000_0000

  datatype BookEntry = BookEntry(hashkey: Hash, move: seq<Move>, count: seq<U32>) {
    predicate IsEmpty()
      requires |move| == NR_MOVES
    {
      move[0] == NoMove
    }
  }

  type Slot = e: BookEntry | |e.move| == NR_MOVES && |e.count| == NR_MOVES
    witness BookEntry(0, [NoMove, NoMove, NoMove, NoMove], [0, 0, 0, 0])

  const EMPTY: Slot := BookEntry(0, [NoMove, NoMove, NoMove, NoMove], [0, 0, 0, 0])

  // ---- The probe sequence -----------------------------------------------------------------

  // Book::hashfunc.
  function HashFunc(size: nat, key: Hash, i: nat): (slot: nat)
    requires size >= 2
    ensures slot < size
  {
    (key % size + i * (key % (size - 1))) % size
  }

  // The sum and the product stay below 2^64 for every size and probe number the header can hold.
  lemma HashFuncFits(size: nat, key: Hash, i: nat)
    requires 2 <= size < 0x1_0000_0000 && i < size
    ensures key % size + i * (key % (size - 1)) < 0x1_0000_0000_0000_0000
  {
    var step := key % (size - 1);
    assert step <= size - 2 && i <= size - 1;
    MulAtMost(i, size - 1, step, size - 2);
    assert (size - 1) * (size - 2) <= 0xffff_fffe * 0xffff_fffd by {
      MulAtMost(size - 1, 0xffff_fffe, size - 2, 0xffff_fffd);
    }
  }

  lemma MulAtMost(a: nat, b: nat, c: nat, d: nat)
    requires a <= b && c <= d
    ensures a * c <= b * d
  {
    assert a * c <= b * c;
    assert b * c <= b * d;
  }

  // ---- Which slots a key can go to --------------------------------------------------------

  function ProbeStep(size: nat, key: Hash): nat
    requires size >= 2
  {
    key % (size - 1)
  }

  predicate Prime(n: nat) {
    n >= 2 && forall d: nat | 1 < d < n :: n % d != 0
  }

  lemma MultipleIsZero(k: int, n: nat)
    requires n > 0
    ensures (k * n) % n == 0
  {
    var r, q := (k * n) % n, (k * n) / n;
    assert k * n == q * n + r;
    assert (k - q) * n == r;
    if k - q > 0 { MulAtMost(1, k - q, n, n); } else if k - q < 0 { MulAtMost(1, q - k, n, n); }
  }

  lemma SameRemainderIff(x: int, y: int, n: nat)
    requires n > 0
    ensures x % n == y % n <==> (x - y) % n == 0
  {
    var q := x / n - y / n;
    assert x - y == q * n + (x % n - y % n);
    if x % n == y % n { MultipleIsZero(q, n); }
    if (x - y) % n == 0 {
      var z := (x - y) / n;
      assert x - y == z * n;
      assert (z - q) * n == x % n - y % n;
      if z - q > 0 { MulAtMost(1, z - q, n, n); } else if z - q < 0 { MulAtMost(1, q - z, n, n); }
    }
  }

  // Two probes of a key meet in a slot if and only if the steps between them come to a multiple of the size.
  lemma ProbesMeetIff(size: nat, key: Hash, i: nat, j: nat)
    requires size >= 2
    ensures HashFunc(size, key, i) == HashFunc(size, key, j) <==> ((i - j) * ProbeStep(size, key)) % size == 0
  {
    var step := ProbeStep(size, key);
    assert (key % size + i * step) - (key % size + j * step) == (i - j) * step;
    SameRemainderIff(key % size + i * step, key % size + j * step, size);
  }

  lemma {:induction false} NoZeroProduct(p: nat, s: nat, k: nat)
    requires Prime(p) && 0 < s < p && 0 < k < p
    ensures (k * s) % p != 0
    decreases k
  {
    if k > 1 && (k * s) % p == 0 {
      var q, r := p / k, p % k;
      assert p == q * k + r;
      NoZeroProduct(p, s, r);
      var z := (k * s) / p;
      assert k * s == z * p;
      assert r * s == p * s - q * (k * s) == (s - q * z) * p;
      MultipleIsZero(s - q * z, p);
    }
  }

  lemma ProbesDiffer(size: nat, key: Hash, i: nat, j: nat)
    requires Prime(size) && ProbeStep(size, key) != 0 && i < j < size
    ensures HashFunc(size, key, i) != HashFunc(size, key, j)
  {
    NoZeroProduct(size, ProbeStep(size, key), j - i);
    ProbesMeetIff(size, key, j, i);
  }

  ghost function Probed(size: nat, key: Hash, n: nat): set<nat>
    requires size >= 2
  {
    if n == 0 then {} else Probed(size, key, n - 1) + {HashFunc(size, key, n - 1)}
  }

  lemma {:induction false} ProbedIs(size: nat, key: Hash, n: nat)
    requires Prime(size) && ProbeStep(size, key) != 0 && n <= size
    ensures |Probed(size, key, n)| == n
    ensures forall s :: s in Probed(size, key, n) <==> exists i :: 0 <= i < n && HashFunc(size, key, i) == s
    decreases n
  {
    if n > 0 {
      ProbedIs(size, key, n - 1);
      forall i | 0 <= i < n - 1 ensures HashFunc(size, key, i) != HashFunc(size, key, n - 1) {
        ProbesDiffer(size, key, i, n - 1);
      }
    }
  }

  ghost function Slots(n: nat): set<nat> {
    if n == 0 then {} else Slots(n - 1) + {n - 1}
  }

  lemma {:induction false} SlotsAre(n: nat)
    ensures |Slots(n)| == n && forall s: nat :: s in Slots(n) <==> s < n
    decreases n
  {
    if n > 0 { SlotsAre(n - 1); }
  }

  lemma SubsetOfSameSize(a: set<nat>, b: set<nat>)
    requires a <= b && |a| == |b|
    ensures a == b
  {
    if s :| s in b && s !in a {
      assert a <= b - {s};
      SubsetSmaller(a, b - {s});
    }
  }

  lemma {:induction false} SubsetSmaller(a: set<nat>, b: set<nat>)
    requires a <= b
    ensures |a| <= |b|
    decreases |a|
  {
    if s :| s in a { SubsetSmaller(a - {s}, b - {s}); }
  }

  lemma {:induction false} ProbedAreSlots(size: nat, key: Hash, n: nat)
    requires size >= 2
    ensures Probed(size, key, n) <= Slots(size)
    decreases n
  {
    SlotsAre(size);
    if n > 0 { ProbedAreSlots(size, key, n - 1); }
  }

  lemma AllProbed(size: nat, key: Hash)
    requires Prime(size) && ProbeStep(size, key) != 0
    ensures Probed(size, key, size) == Slots(size)
  {
    ProbedIs(size, key, size);
    ProbedAreSlots(size, key, size);
    SlotsAre(size);
    SubsetOfSameSize(Probed(size, key, size), Slots(size));
  }

  // In a book of prime size the probes of a key go to every slot, unless the step is 0.
  lemma PrimeProbesAll(size: nat, key: Hash, s: nat)
    requires Prime(size) && ProbeStep(size, key) != 0 && s < size
    ensures exists i :: 0 <= i < size && HashFunc(size, key, i) == s
  {
    AllProbed(size, key);
    SlotsAre(size);
    assert s in Probed(size, key, size);
    ProbedIs(size, key, size);
  }

  // With step 0 all probes go to one slot.
  lemma NoStepProbesOne(size: nat, key: Hash, i: nat)
    requires size >= 2 && ProbeStep(size, key) == 0
    ensures HashFunc(size, key, i) == key % size
  {
    assert i * ProbeStep(size, key) == 0;
  }

  // ---- The table as a map -----------------------------------------------------------------

  // What a key leads to from its i-th probe on: the first slot with the key, unless an empty one comes first.
  function Find(t: seq<Slot>, key: Hash, i: nat): Option<Slot>
    requires |t| >= 2 && i <= |t|
    decreases |t| - i
  {
    if i == |t| then None
    else
      var e := t[HashFunc(|t|, key, i)];
      if e.IsEmpty() then None else if e.hashkey == key then Some(e) else Find(t, key, i + 1)
  }

  // The first i probes of a key meet other keys only.
  ghost predicate OthersBefore(t: seq<Slot>, key: Hash, i: nat)
    requires |t| >= 2
  {
    forall j :: 0 <= j < i ==> !t[HashFunc(|t|, key, j)].IsEmpty() && t[HashFunc(|t|, key, j)].hashkey != key
  }

  // Every entry is met by the probes of its own key.
  ghost predicate Reachable(t: seq<Slot>)
    requires |t| >= 2
  {
    forall s :: 0 <= s < |t| && !t[s].IsEmpty() ==>
      exists i :: 0 <= i < |t| && HashFunc(|t|, t[s].hashkey, i) == s && OthersBefore(t, t[s].hashkey, i)
  }

  ghost predicate Refines(t: seq<Slot>, m: map<Hash, Slot>)
    requires |t| >= 2
  {
    forall key: Hash :: Find(t, key, 0) == if key in m then Some(m[key]) else None
  }

  lemma {:induction false} FindAt(t: seq<Slot>, key: Hash, i: nat, k: nat)
    requires |t| >= 2 && k <= i < |t| && OthersBefore(t, key, i)
    requires t[HashFunc(|t|, key, i)].IsEmpty() || t[HashFunc(|t|, key, i)].hashkey == key
    ensures Find(t, key, k) == if t[HashFunc(|t|, key, i)].IsEmpty() then None else Some(t[HashFunc(|t|, key, i)])
    decreases i - k
  {
    if k < i { FindAt(t, key, i, k + 1); }
  }

  lemma {:induction false} FindFails(t: seq<Slot>, key: Hash, k: nat)
    requires |t| >= 2 && k <= |t| && OthersBefore(t, key, |t|)
    ensures Find(t, key, k) == None
    decreases |t| - k
  {
    if k < |t| { FindFails(t, key, k + 1); }
  }

  // Nothing is found exactly when no slot holds the key.
  lemma FoundIffHeld(t: seq<Slot>, key: Hash, s: nat)
    requires |t| >= 2 && Reachable(t) && s < |t| && !t[s].IsEmpty() && t[s].hashkey == key
    ensures Find(t, key, 0) == Some(t[s])
  {
    var i :| 0 <= i < |t| && HashFunc(|t|, key, i) == s && OthersBefore(t, key, i);
    FindAt(t, key, i, 0);
  }

  lemma {:induction false} FoundIsHeld(t: seq<Slot>, key: Hash, i: nat)
    requires |t| >= 2 && i <= |t| && Find(t, key, i).Some?
    ensures exists s :: 0 <= s < |t| && !t[s].IsEmpty() && t[s].hashkey == key
    decreases |t| - i
  {
    var s := HashFunc(|t|, key, i);
    if t[s].hashkey != key { FoundIsHeld(t, key, i + 1); }
  }

  // A book of prime size has no room for a key if and only if all its slots are taken by others; with step 0 the
  // one slot decides.
  lemma NoRoomIff(t: seq<Slot>, key: Hash)
    requires Prime(|t|)
    ensures OthersBefore(t, key, |t|) <==>
            if ProbeStep(|t|, key) != 0 then forall s :: 0 <= s < |t| ==> !t[s].IsEmpty() && t[s].hashkey != key
            else !t[key % |t|].IsEmpty() && t[key % |t|].hashkey != key
  {
    if ProbeStep(|t|, key) != 0 {
      if OthersBefore(t, key, |t|) {
        forall s | 0 <= s < |t| ensures !t[s].IsEmpty() && t[s].hashkey != key {
          PrimeProbesAll(|t|, key, s);
        }
      }
    } else {
      NoStepProbesOne(|t|, key, 0);
      forall j: nat | j < |t| ensures HashFunc(|t|, key, j) == key % |t| { NoStepProbesOne(|t|, key, j); }
    }
  }

  // ---- One write --------------------------------------------------------------------------

  // put writes where the probes of the key first meet an empty slot or the key itself.
  ghost predicate Writable(t: seq<Slot>, e: Slot, i: nat)
    requires |t| >= 2
  {
    var s := HashFunc(|t|, e.hashkey, i);
    i < |t| && OthersBefore(t, e.hashkey, i) && (t[s].IsEmpty() || t[s].hashkey == e.hashkey) && !e.IsEmpty()
  }

  lemma WriteKeepsReachable(t: seq<Slot>, e: Slot, i: nat)
    requires |t| >= 2 && Reachable(t) && Writable(t, e, i)
    ensures Reachable(t[HashFunc(|t|, e.hashkey, i) := e])
  {}

  // The earlier probes of the key meet other slots.
  lemma NotAmongEarlier(t: seq<Slot>, e: Slot, i: nat)
    requires |t| >= 2 && Writable(t, e, i)
    ensures forall j :: 0 <= j < i ==> HashFunc(|t|, e.hashkey, j) != HashFunc(|t|, e.hashkey, i)
  {}

  // Another key finds what it found before.
  lemma WriteKeepsFound(t: seq<Slot>, e: Slot, i: nat, key: Hash)
    requires |t| >= 2 && Reachable(t) && Writable(t, e, i) && key != e.hashkey
    ensures Find(t[HashFunc(|t|, e.hashkey, i) := e], key, 0) == Find(t, key, 0)
  {
    var at := HashFunc(|t|, e.hashkey, i);
    var u := t[at := e];
    WriteKeepsReachable(t, e, i);
    if Find(u, key, 0).Some? {
      FoundIsHeld(u, key, 0);
      var s :| 0 <= s < |u| && !u[s].IsEmpty() && u[s].hashkey == key;
      FoundIffHeld(u, key, s);
      FoundIffHeld(t, key, s);
    } else if Find(t, key, 0).Some? {
      FoundIsHeld(t, key, 0);
      var s :| 0 <= s < |t| && !t[s].IsEmpty() && t[s].hashkey == key;
      assert u[s] == t[s];
      FoundIffHeld(u, key, s);
    }
  }

  // A write is a map update.
  lemma WriteRefines(t: seq<Slot>, e: Slot, i: nat, m: map<Hash, Slot>)
    requires |t| >= 2 && Reachable(t) && Refines(t, m) && Writable(t, e, i)
    ensures Refines(t[HashFunc(|t|, e.hashkey, i) := e], m[e.hashkey := e])
  {
    var u := t[HashFunc(|t|, e.hashkey, i) := e];
    NotAmongEarlier(t, e, i);
    FindAt(u, e.hashkey, i, 0);
    forall key: Hash | key != e.hashkey ensures Find(u, key, 0) == Find(t, key, 0) {
      WriteKeepsFound(t, e, i, key);
    }
  }

  // ---- The book ---------------------------------------------------------------------------

  class Book {
    const table: array<Slot>
    ghost var contents: map<Hash, Slot>

    ghost predicate Valid()
      reads this, table
    {
      table.Length >= 2 && Reachable(table[..]) && Refines(table[..], contents)
    }

    // A new book: all slots are wiped out.
    constructor (size: nat)
      requires size >= 2
      ensures Valid() && contents == map[] && table.Length == size && fresh(table)
    {
      table := new Slot[size](_ => EMPTY);
      contents := map[];
      new;
      ghost var t := table[..];
      forall key: Hash ensures Find(t, key, 0) == None { FindAt(t, key, 0, 0); }
    }

    // A put that returns true updates exactly the entry's key; one that returns false changes nothing,
    // because every slot the key can go to is taken by other keys.
    method Put(e: Slot) returns (ok: bool)
      requires Valid() && !e.IsEmpty()
      modifies this, table
      ensures Valid()
      ensures contents == if ok then old(contents)[e.hashkey := e] else old(contents)
      ensures !ok <==> OthersBefore(old(table[..]), e.hashkey, table.Length)
      ensures !ok ==> table[..] == old(table[..])
    {
      var slot := 0;
      var i := 0;
      ghost var t := table[..];
      while i < table.Length
        invariant 0 <= i <= table.Length && table[..] == t && contents == old(contents) && OthersBefore(t, e.hashkey, i)
        invariant i < table.Length
      {
        slot := HashFunc(table.Length, e.hashkey, i);
        var was := table[slot];
        if was.IsEmpty() {
          break;
        } else if was.hashkey != e.hashkey {
          if i == table.Length - 1 {
            return false;
          }
          i := i + 1;
        } else {
          break;
        }
      }
      WriteKeepsReachable(t, e, i);
      WriteRefines(t, e, i, contents);
      table[slot] := e;
      contents := contents[e.hashkey := e];
      assert table[..] == t[slot := e];
      return true;
    }

    // A lookup returns the map's entry, provided its moves are valid and legal on the board.
    method Lookup(key: Hash, playable: Slot -> bool) returns (entry: Option<Slot>)
      requires Valid()
      ensures entry == if key in contents && playable(contents[key]) then Some(contents[key]) else None
    {
      ghost var t := table[..];
      for i := 0 to table.Length
        invariant OthersBefore(t, key, i)
      {
        var e := table[HashFunc(table.Length, key, i)];
        if e.IsEmpty() {
          FindAt(t, key, i, 0);
          return None;
        } else if e.hashkey == key {
          FindAt(t, key, i, 0);
          return if playable(e) then Some(e) else None;
        }
      }
      FindFails(t, key, 0);
      return None;
    }
  }
}
