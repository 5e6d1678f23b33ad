/** What an object accounts for in the global counters of the store, and how the sum over all
    objects follows the change of one of them. */
module Counters {
  import opened Basics
  import opened Versions

  /** The clean entry of an object as far as the counters are concerned. */
  datatype CleanRef = CleanRef(version: nat, location: int)

  /** The entries of `dirty_db` and `clean_db` that belong to one object. */
  datatype Obj = Obj(stack: seq<Dirty>, clean: Option<CleanRef>)

  /** One unit of a global counter: a reference to a journal sector, an allocated data block, a
      stable entry that frees a block when flushed, or an object that exists. */
  datatype Token = Sector(s: nat) | Block(b: int) | ToFlush | Present

  /** A big write owns its block from submission on. */
  predicate Owns(d: Dirty) { d.kind == BigWrite && Rank(d.state) >= Rank(Submitted) }

  /** How many times an entry counts for a token. */
  function InEntry(d: Dirty, t: Token): nat {
    match t
    case Sector(s) => One(d.sector == s && s > 0)
    case Block(b) => One(Owns(d) && d.location == b)
    case ToFlush => One(Barrier(d) && d.state == Stable)
    case Present => 0
  }

  function InStack(s: seq<Dirty>, t: Token): nat {
    if s == [] then 0 else InStack(s[..|s| - 1], t) + InEntry(s[|s| - 1], t)
  }

  function InClean(c: Option<CleanRef>, t: Token): nat { One(t.Block? && c.Some? && c.value.location == t.b) }

  /** Whether the newest stable state of the object exists. */
  predicate ExistsStable(s: seq<Dirty>, clean: bool)
    decreases |s|
  {
    if s == [] then clean
    else if s[|s| - 1].state == Stable then s[|s| - 1].kind != Delete
    else ExistsStable(s[..|s| - 1], clean)
  }

  function InObject(x: Obj, t: Token): nat {
    InStack(x.stack, t) + InClean(x.clean, t) + One(t.Present? && ExistsStable(x.stack, x.clean.Some?))
  }

  ghost function Total(db: map<nat, Obj>, t: Token): nat
    decreases |db|
  {
    if db == map[] then 0
    else
      var k :| k in db;
      InObject(db[k], t) + Total(db - {k}, t)
  }

  lemma {:induction false} TotalPick(db: map<nat, Obj>, k: nat, t: Token)
    requires k in db
    ensures Total(db, t) == InObject(db[k], t) + Total(db - {k}, t)
    decreases |db|
  {
    hide InObject;
    var j :| j in db && Total(db, t) == InObject(db[j], t) + Total(db - {j}, t);
    if j != k {
      TotalPick(db - {j}, k, t);
      TotalPick(db - {k}, j, t);
      assert db - {j} - {k} == db - {k} - {j};
    }
  }

  function ObjOf(db: map<nat, Obj>, k: nat): Obj { if k in db then db[k] else Obj([], None) }

  /** Only the changed object matters. */
  lemma TotalUpdate(db: map<nat, Obj>, k: nat, x: Obj, t: Token)
    ensures Total(db[k := x], t) == Total(db, t) - InObject(ObjOf(db, k), t) + InObject(x, t)
    ensures InObject(ObjOf(db, k), t) <= Total(db, t)
  {
    TotalPick(db[k := x], k, t);
    assert db[k := x] - {k} == db - {k};
    if k in db { TotalPick(db, k, t); } else { assert db - {k} == db; }
  }

  // ----- the global counters

  /** `alloc` is the block allocator, `used` the reference counts of the journal sectors. */
  datatype Counters = Counters(alloc: set<int>, used: multiset<nat>, toFlush: int, present: int)

  function Reading(c: Counters, t: Token): int {
    match t
    case Sector(s) => c.used[s]
    case Block(b) => One(b in c.alloc)
    case ToFlush => c.toFlush
    case Present => c.present
  }

  /** Every counter is the number of its tokens; in particular no block is owned twice. */
  ghost predicate Tied(db: map<nat, Obj>, c: Counters) { forall t :: Total(db, t) == Reading(c, t) }

  /** The counters move with the object. */
  ghost predicate Follow(x: Obj, c: Counters, x': Obj, c': Counters) {
    forall t :: Reading(c', t) - Reading(c, t) == InObject(x', t) - InObject(x, t)
  }

  lemma TiedUpdate(db: map<nat, Obj>, c: Counters, k: nat, x: Obj, c': Counters)
    requires Tied(db, c) && Follow(ObjOf(db, k), c, x, c')
    ensures Tied(db[k := x], c')
  {
    hide InObject, Reading;
    forall t ensures Total(db[k := x], t) == Reading(c', t) { TotalUpdate(db, k, x, t); }
  }

  /** What an object accounts for is in the counters. */
  lemma TiedHas(db: map<nat, Obj>, c: Counters, k: nat)
    requires Tied(db, c)
    ensures forall t :: InObject(ObjOf(db, k), t) <= Reading(c, t)
  {
    hide InObject, Reading;
    forall t ensures InObject(ObjOf(db, k), t) <= Reading(c, t) { TotalUpdate(db, k, ObjOf(db, k), t); }
  }

  // ----- stacks

  lemma {:induction false} InStackAt(s: seq<Dirty>, i: nat, d: Dirty, t: Token)
    requires i < |s|
    ensures InStack(s[i := d], t) == InStack(s, t) - InEntry(s[i], t) + InEntry(d, t)
  {
    hide InEntry;
    var n := |s| - 1;
    if i < n {
      InStackAt(s[..n], i, d, t);
      assert s[i := d][..n] == s[..n][i := d];
    } else {
      assert s[i := d][..n] == s[..n];
    }
  }

  lemma {:induction false} InStackConcat(a: seq<Dirty>, b: seq<Dirty>, t: Token)
    ensures InStack(a + b, t) == InStack(a, t) + InStack(b, t)
  {
    hide InEntry;
    if b == [] {
      assert a + b == a;
    } else {
      InStackConcat(a, b[..|b| - 1], t);
      assert (a + b)[..|a + b| - 1] == a + b[..|b| - 1];
    }
  }

  // ----- erasing entries

  /** `erase_dirty` for one entry, with the location of the block that stays. */
  function EraseOne(c: Counters, d: Dirty, cleanLoc: Option<int>): Counters {
    c.(toFlush := if Barrier(d) && d.state == Stable then c.toFlush - 1 else c.toFlush,
       alloc := if d.kind == BigWrite && cleanLoc != Some(d.location) then c.alloc - {d.location} else c.alloc,
       used := c.used - multiset{d.sector})
  }

  function Erased(c: Counters, s: seq<Dirty>, cleanLoc: Option<int>): Counters
    decreases |s|
  {
    if s == [] then c else Erased(EraseOne(c, s[|s| - 1], cleanLoc), s[..|s| - 1], cleanLoc)
  }

  /** The entry whose block becomes the clean one. */
  predicate Stays(d: Dirty, cleanLoc: Option<int>) { d.kind == BigWrite && cleanLoc == Some(d.location) }

  function InKept(s: seq<Dirty>, cleanLoc: Option<int>, t: Token): nat
    decreases |s|
  {
    if s == [] then 0
    else InKept(s[..|s| - 1], cleanLoc, t) + One(t.Block? && Stays(s[|s| - 1], cleanLoc) && t.b == s[|s| - 1].location)
  }

  /** An entry that has reached the journal. */
  predicate Journaled(d: Dirty) { d.sector > 0 && Rank(d.state) >= Rank(Submitted) }

  lemma EraseOneReading(c: Counters, d: Dirty, cleanLoc: Option<int>, t: Token)
    requires Journaled(d) && InEntry(d, t) <= Reading(c, t)
    ensures Reading(EraseOne(c, d, cleanLoc), t)
         == Reading(c, t) - InEntry(d, t) + One(t.Block? && Stays(d, cleanLoc) && t.b == d.location)
  {
  }

  /** Erasing entries releases each of their sectors and blocks once, except the block that stays. */
  lemma {:induction false} ErasedReading(c: Counters, s: seq<Dirty>, cleanLoc: Option<int>, t: Token)
    requires forall d :: d in s ==> Journaled(d)
    requires InStack(s, t) <= Reading(c, t)
    ensures Reading(Erased(c, s, cleanLoc), t) == Reading(c, t) - InStack(s, t) + InKept(s, cleanLoc, t)
    decreases |s|
  {
    hide InEntry, Reading, EraseOne, Stays;
    if s != [] {
      EraseOneReading(c, s[|s| - 1], cleanLoc, t);
      ErasedReading(EraseOne(c, s[|s| - 1], cleanLoc), s[..|s| - 1], cleanLoc, t);
    }
  }
}
