/** Startup replay of the journal entries of one object (`handle_journal_part`).

    A replayed stack is the part of `dirty_db` that belongs to the object, ordered by version.
    Entries of different objects touch disjoint parts of `dirty_db`, so a whole journal is
    replayed object by object (see `ProjectedReplay`). */
module Replayed {
  import opened Basics
  import opened Overlay
  import opened Versions

  datatype Entry =
    | JSmall(d: Dirty, inst: bool)
    | JBig(d: Dirty, inst: bool)
    | JStable(version: nat)
    | JRollback(version: nat)
    | JDelete(d: Dirty)

  function Marked(d: Dirty): Dirty { if d.state == Synced then d.(state := Stable) else d }

  /** `dirty_db.emplace`: in version order, an existing entry wins. */
  function Emplace(x: seq<Dirty>, d: Dirty): seq<Dirty>
    decreases |x|
  {
    if x == [] || x[|x| - 1].version < d.version then x + [d]
    else if x[|x| - 1].version == d.version then x
    else Emplace(x[..|x| - 1], d) + [x[|x| - 1]]
  }

  /** `x[j..]`. */
  function From(x: seq<Dirty>, j: nat): (r: seq<Dirty>)
    requires j <= |x|
    ensures |r| == |x| - j && forall i :: 0 <= i < |r| ==> r[i] == x[j + i]
  {
    seq(|x| - j, i requires 0 <= i < |x| - j => x[j + i])
  }

  /** The downward walk of `mark_stable` with `forget_dirty`: it stops at an entry that was stable
      already, and a big write or a delete also erases everything below itself. */
  function Walk(x: seq<Dirty>, j: nat): seq<Dirty>
    requires j < |x|
    decreases j
  {
    var x' := x[j := Marked(x[j])];
    if Barrier(x[j]) then From(x', j)
    else if x[j].state == Stable || j == 0 then x'
    else Walk(x', j - 1)
  }

  /** `mark_stable(v, true)`. */
  function MarkStable(x: seq<Dirty>, version: nat): seq<Dirty> {
    var i := IndexOf(x, version);
    if i == -1 then x
    else if x[i].IsInstant() then
      (if exists k :: 0 <= k < i && x[k].state != Stable then x else Walk(x, Forward(x, i)))
    else Walk(x, i)
  }

  /** `mark_rolled_back`: removes from the top while the version is above and not stable. */
  function RolledBack(x: seq<Dirty>, version: nat): seq<Dirty> {
    if x == [] then x
    else
      var d := x[|x| - 1];
      if d.version <= version || IsInFlight(d.state) || d.state == Stable then x
      else RolledBack(x[..|x| - 1], version)
  }

  /** One journal entry, given the version of the clean entry that was loaded for the object. */
  function ReplayEntry(x: seq<Dirty>, clean: Option<nat>, e: Entry): seq<Dirty> {
    match e
    case JSmall(d, inst) =>
      if clean.None? || clean.value < d.version then
        var x' := Emplace(x, d);
        if inst then MarkStable(x', d.version) else x'
      else x
    case JBig(d, inst) =>
      var x0 := if x != [] && x[|x| - 1].version >= d.version && x[|x| - 1].kind == Delete then [] else x;
      if clean.None? || clean.value < d.version then
        var x' := Emplace(x0, d);
        if inst then MarkStable(x', d.version) else x'
      else x0
    case JStable(v) => MarkStable(x, v)
    case JRollback(v) => RolledBack(x, v)
    case JDelete(d) =>
      var cleanExists := clean.Some? && clean.value < d.version;
      if !cleanExists && x != [] then []
      else if cleanExists then MarkStable(Emplace(x, d), d.version)
      else x
  }

  function ReplayLog(log: seq<Entry>, clean: Option<nat>): seq<Dirty>
    decreases |log|
  {
    if log == [] then [] else ReplayEntry(ReplayLog(log[..|log| - 1], clean), clean, log[|log| - 1])
  }

  // ----- the same, in the code's imperative form

  /** The loops of `mark_stable` with `forget_dirty` set. */
  method MarkStableLoop(x: seq<Dirty>, version: nat) returns (r: seq<Dirty>)
    ensures r == MarkStable(x, version)
  {
    r := x;
    var i := IndexOf(x, version);
    if i == -1 {
      return;
    }
    var j: nat := i;
    if x[i].IsInstant() {
      var back: nat := i;
      while back > 0
        invariant back <= i
        invariant forall k :: back <= k < i ==> x[k].state == Stable
      {
        back := back - 1;
        if x[back].state != Stable {
          return;
        }
      }
      while j + 1 < |x| && IsSynced(x[j + 1].state)
        invariant i <= j < |x|
        invariant Forward(x, i) == Forward(x, j)
      {
        j := j + 1;
      }
    }
    ghost var goal := Walk(x, j);
    while true
      invariant j < |r|
      invariant Walk(r, j) == goal
      decreases j
    {
      var wasStable := r[j].state == Stable;
      var barrier := r[j].kind == BigWrite || r[j].kind == Delete;
      ghost var marked := r[j := Marked(r[j])];
      if r[j].state == Synced {
        r := r[j := r[j].(state := Stable)];
      }
      assert r == marked;
      if barrier {
        r := From(r, j);
        break;
      }
      if wasStable || j == 0 {
        break;
      }
      j := j - 1;
    }
  }

  method RollbackLoop(x: seq<Dirty>, version: nat) returns (r: seq<Dirty>)
    ensures r == RolledBack(x, version)
  {
    var n: nat := |x|;
    assert x[..n] == x;
    while n > 0 && !(x[n - 1].version <= version || IsInFlight(x[n - 1].state) || x[n - 1].state == Stable)
      invariant n <= |x| && RolledBack(x[..n], version) == RolledBack(x, version)
    {
      assert x[..n][..n - 1] == x[..n - 1];
      n := n - 1;
    }
    r := x[..n];
  }

  /** The branch of the replay for each type of entry. */
  method ReplayOne(x: seq<Dirty>, clean: Option<nat>, e: Entry) returns (r: seq<Dirty>)
    ensures r == ReplayEntry(x, clean, e)
  {
    r := x;
    match e {
      case JSmall(d, inst) =>
        if clean.None? || clean.value < d.version {
          r := Emplace(r, d);
          if inst { r := MarkStableLoop(r, d.version); }
        }
      case JBig(d, inst) =>
        if r != [] && r[|r| - 1].version >= d.version && r[|r| - 1].kind == Delete {
          r := [];
        }
        if clean.None? || clean.value < d.version {
          r := Emplace(r, d);
          if inst { r := MarkStableLoop(r, d.version); }
        }
      case JStable(v) =>
        r := MarkStableLoop(r, v);
      case JRollback(v) =>
        r := RollbackLoop(r, v);
      case JDelete(d) =>
        var cleanExists := clean.Some? && clean.value < d.version;
        if !cleanExists && r != [] {
          r := [];
        } else if cleanExists {
          r := MarkStableLoop(Emplace(r, d), d.version);
        }
    }
  }

  /** The replay loop over the entries of an object. */
  method ReplayJournal(log: seq<Entry>, clean: Option<nat>) returns (x: seq<Dirty>)
    ensures x == ReplayLog(log, clean)
  {
    x := [];
    for i := 0 to |log|
      invariant x == ReplayLog(log[..i], clean)
    {
      assert log[..i + 1][..i] == log[..i];
      x := ReplayOne(x, clean, log[i]);
    }
    assert log[..|log|] == log;
  }

  // ----- interleaved journals of many objects

  function Project<O(==)>(log: seq<(O, Entry)>, o: O): seq<Entry>
    decreases |log|
  {
    if log == [] then []
    else
      var rest := Project(log[..|log| - 1], o);
      if log[|log| - 1].0 == o then rest + [log[|log| - 1].1] else rest
  }

  function StackOf<O>(db: map<O, seq<Dirty>>, o: O): seq<Dirty> { if o in db then db[o] else [] }

  function VersionOf<O>(clean: map<O, nat>, o: O): Option<nat> { if o in clean then Some(clean[o]) else None }

  /** The replay of the whole journal, one `dirty_db` for all objects. */
  function ReplayAll<O>(log: seq<(O, Entry)>, clean: map<O, nat>): map<O, seq<Dirty>>
    decreases |log|
  {
    if log == [] then map[]
    else
      var db := ReplayAll(log[..|log| - 1], clean);
      var (o, e) := log[|log| - 1];
      db[o := ReplayEntry(StackOf(db, o), VersionOf(clean, o), e)]
  }

  /** Each object ends up with the replay of its own entries, whatever they are interleaved with. */
  lemma {:induction false} ProjectedReplay<O>(log: seq<(O, Entry)>, clean: map<O, nat>, o: O)
    ensures StackOf(ReplayAll(log, clean), o) == ReplayLog(Project(log, o), VersionOf(clean, o))
    decreases |log|
  {
    if log != [] {
      ProjectedReplay(log[..|log| - 1], clean, o);
      var rest := Project(log[..|log| - 1], o);
      if log[|log| - 1].0 == o {
        assert (rest + [log[|log| - 1].1])[..|rest|] == rest;
      }
    }
  }
}
