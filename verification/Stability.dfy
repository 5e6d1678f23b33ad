/** The life of the versions of one object: enqueueing, submission, sync, stabilization, rollback
    and the end of a flush, each with its effect on the global counters. */
module Stability {
  import opened Basics
  import opened Versions
  import opened Counters

  // ----- the entries of one object

  /** An entry refers to a journal sector from its journaling on: small writes and deletes when they
      are submitted, big writes before they are synced. */
  predicate EntryOk(d: Dirty) {
    && (IsSynced(d.state) ==> d.sector > 0)
    && (d.kind != BigWrite && Rank(d.state) >= Rank(Submitted) ==> d.sector > 0)
    && (Rank(d.state) < Rank(Submitted) ==> d.sector == 0)
  }

  /** Versions grow, the stable ones come first, and small writes and deletes are only placed over
      an existing object. */
  predicate StackOk(s: seq<Dirty>, lo: nat, clean: bool)
    decreases |s|
  {
    s == [] || (
      && StackOk(Front(s), lo, clean)
      && Last(s).version > (if |s| == 1 then lo else Last(Front(s)).version)
      && (Last(s).state == Stable && |s| > 1 ==> Last(Front(s)).state == Stable)
      && (Last(s).kind != BigWrite ==> Exists(Front(s), clean))
      && EntryOk(Last(s)))
  }

  function CleanVersion(c: Option<CleanRef>): nat { if c.Some? then c.value.version else 0 }

  predicate ObjOk(x: Obj) { StackOk(x.stack, CleanVersion(x.clean), x.clean.Some?) }

  /** The stable versions are downward closed. */
  lemma {:induction false} StableBelow(s: seq<Dirty>, lo: nat, clean: bool, i: nat, j: nat)
    requires StackOk(s, lo, clean) && i <= j < |s|
    ensures s[j].state == Stable ==> s[i].state == Stable
    ensures i < j ==> s[i].version < s[j].version
    ensures EntryOk(s[j]) && s[j].version > lo
    ensures s[j].kind != BigWrite ==> Exists(s[..j], clean)
    decreases |s|
  {
    if j < |s| - 1 {
      StableBelow(Front(s), lo, clean, i, j);
      assert Front(s)[..j] == s[..j];
    } else if |s| > 1 {
      StableBelow(Front(s), lo, clean, if i < j then i else |s| - 2, |s| - 2);
    }
  }

  lemma {:induction false} StackPrefix(s: seq<Dirty>, lo: nat, clean: bool, k: nat)
    requires StackOk(s, lo, clean) && k <= |s|
    ensures StackOk(s[..k], lo, clean)
    decreases |s|
  {
    if k < |s| {
      StackPrefix(Front(s), lo, clean, k);
      assert Front(s)[..k] == s[..k];
    } else {
      assert s[..k] == s;
    }
  }

  /** A step of one entry that does not touch its stability. */
  predicate SameRole(d: Dirty, d': Dirty) {
    d'.version == d.version && d'.kind == d.kind && d'.state != Stable && d.state != Stable && EntryOk(d')
  }

  lemma {:induction false} StackSet(s: seq<Dirty>, lo: nat, clean: bool, i: nat, d: Dirty)
    requires StackOk(s, lo, clean) && i < |s| && SameRole(s[i], d)
    ensures StackOk(s[i := d], lo, clean) && ExistsStable(s[i := d], clean) == ExistsStable(s, clean)
    decreases |s|
  {
    var s' := s[i := d];
    if i < |s| - 1 {
      StackSet(Front(s), lo, clean, i, d);
      assert Front(s') == Front(s)[i := d];
    } else {
      assert Front(s') == Front(s);
    }
  }

  // ----- marking stable

  /** The entries from `lo` to `hi` made stable. */
  function Stabilized(s: seq<Dirty>, lo: nat, hi: nat): (r: seq<Dirty>)
    ensures |r| == |s|
    ensures forall i :: 0 <= i < |s| ==> r[i] == if lo <= i <= hi then s[i].(state := Stable) else s[i]
  {
    seq(|s|, i requires 0 <= i < |s| => if lo <= i <= hi then s[i].(state := Stable) else s[i])
  }

  /** Everything from `hi` down to the first stable entry is synced. */
  predicate AllSynced(s: seq<Dirty>, hi: nat)
    requires hi < |s|
  {
    IsSynced(s[hi].state) && (s[hi].state == Stable || hi == 0 || AllSynced(s, hi - 1))
  }

  lemma {:induction false} StabilizedOk(s: seq<Dirty>, lo: nat, clean: bool, hi: nat)
    requires StackOk(s, lo, clean)
    requires forall i :: 0 <= i < |s| && i <= hi ==> IsSynced(s[i].state)
    ensures StackOk(Stabilized(s, 0, hi), lo, clean)
    decreases |s|
  {
    if s != [] {
      StabilizedOk(Front(s), lo, clean, hi);
      assert Front(Stabilized(s, 0, hi)) == Stabilized(Front(s), 0, hi);
    }
  }

  /** With exactly `m` stable entries the newest stable state is the one after them. */
  lemma {:induction false} ExistsAt(s: seq<Dirty>, clean: bool, m: nat)
    requires m <= |s| && (forall i :: m <= i < |s| ==> s[i].state != Stable) && (m > 0 ==> s[m - 1].state == Stable)
    ensures ExistsStable(s, clean) == Exists(s[..m], clean)
    decreases |s|
  {
    if m < |s| {
      ExistsAt(Front(s), clean, m);
      assert Front(s)[..m] == s[..m];
    } else {
      assert s[..m] == s;
    }
  }

  /** How much a newly stable entry adds to the number of existing objects. */
  function Gain(x: Obj, j: nat): int
    requires j < |x.stack|
  {
    match x.stack[j].kind
    case SmallWrite => 0
    case Delete => -1
    case BigWrite => if (if j > 0 then x.stack[j - 1].kind != Delete else x.clean.Some?) then 0 else 1
  }

  lemma GainIs(x: Obj, j: nat)
    requires ObjOk(x) && j < |x.stack|
    ensures Gain(x, j) == One(Exists(x.stack[..j + 1], x.clean.Some?)) - One(Exists(x.stack[..j], x.clean.Some?))
  {
    StableBelow(x.stack, CleanVersion(x.clean), x.clean.Some?, j, j);
  }

  lemma StabilizedMore(s: seq<Dirty>, j: nat, hi: nat)
    requires j <= hi < |s|
    ensures Stabilized(s, j + 1, hi)[j := s[j].(state := Stable)] == Stabilized(s, j, hi)
    ensures s[j].state == Stable ==> Stabilized(s, j + 1, hi) == Stabilized(s, j, hi)
    ensures s[j].state != Stable ==>
              InStack(Stabilized(s, j, hi), ToFlush) == InStack(Stabilized(s, j + 1, hi), ToFlush) + One(Barrier(s[j]))
  {
    var r := Stabilized(s, j + 1, hi);
    assert r[j := s[j].(state := Stable)] == Stabilized(s, j, hi);
    InStackAt(r, j, s[j].(state := Stable), ToFlush);
    if s[j].state == Stable { assert r == Stabilized(s, j, hi); }
  }

  /** Where the walk down ends nothing is left to mark. */
  lemma MarkedAll(x: Obj, j: nat, hi: nat)
    requires ObjOk(x) && j <= hi + 1 <= |x.stack| && (j == 0 || x.stack[j - 1].state == Stable)
    ensures Stabilized(x.stack, j, hi) == Stabilized(x.stack, 0, hi)
  {
    forall i | 0 <= i < j ensures x.stack[i].state == Stable {
      StableBelow(x.stack, CleanVersion(x.clean), x.clean.Some?, i, j - 1);
    }
    assert forall i :: 0 <= i < j ==> x.stack[i] == x.stack[i].(state := Stable);
  }

  lemma ExistsMarked(x: Obj, hi: nat)
    requires ObjOk(x) && hi < |x.stack| && (hi + 1 < |x.stack| ==> x.stack[hi + 1].state != Stable)
    ensures ExistsStable(Stabilized(x.stack, 0, hi), x.clean.Some?) == Exists(x.stack[..hi + 1], x.clean.Some?)
  {
    var r := Stabilized(x.stack, 0, hi);
    forall i | hi + 1 <= i < |r| ensures r[i].state != Stable {
      StableBelow(x.stack, CleanVersion(x.clean), x.clean.Some?, hi + 1, i);
    }
    ExistsAt(r, x.clean.Some?, hi + 1);
  }

  lemma ExistsBefore(x: Obj, j: nat)
    requires ObjOk(x) && j <= |x.stack|
    requires (j > 0 ==> x.stack[j - 1].state == Stable) && (j < |x.stack| ==> x.stack[j].state != Stable)
    ensures ExistsStable(x.stack, x.clean.Some?) == Exists(x.stack[..j], x.clean.Some?)
  {
    forall i | j <= i < |x.stack| ensures x.stack[i].state != Stable {
      StableBelow(x.stack, CleanVersion(x.clean), x.clean.Some?, j, i);
    }
    ExistsAt(x.stack, x.clean.Some?, j);
  }

  /** The walk down when the entries from `k` to `hi` are marked. */
  ghost predicate Marking(x: Obj, c: Counters, hi: nat, k: nat, s: seq<Dirty>, toFlush: int, present: int) {
    && k <= hi + 1 <= |x.stack| && (k > 0 ==> AllSynced(x.stack, k - 1)) && (k <= hi ==> x.stack[k].state != Stable)
    && s == Stabilized(x.stack, k, hi)
    && toFlush == c.toFlush + InStack(s, ToFlush) - InStack(x.stack, ToFlush)
    && present == c.present + One(Exists(x.stack[..hi + 1], x.clean.Some?)) - One(Exists(x.stack[..k], x.clean.Some?))
  }

  lemma MarkRound(x: Obj, c: Counters, hi: nat, k: nat, s: seq<Dirty>, toFlush: int, present: int)
    requires ObjOk(x) && k > 0 && Marking(x, c, hi, k, s, toFlush, present) && s[k - 1].state != Stable
    ensures Marking(x, c, hi, k - 1, s[k - 1 := s[k - 1].(state := Stable)],
                    toFlush + One(Barrier(s[k - 1])), present + Gain(x, k - 1))
  {
    hide InStack, StackOk, Exists;
    StabilizedMore(x.stack, k - 1, hi);
    GainIs(x, k - 1);
  }

  lemma MarkEnd(x: Obj, c: Counters, hi: nat, k: nat, s: seq<Dirty>, toFlush: int, present: int)
    requires ObjOk(x) && Marking(x, c, hi, k, s, toFlush, present) && (k > 0 ==> s[k - 1].state == Stable)
    requires hi < |x.stack|
    ensures s == Stabilized(x.stack, 0, hi)
    ensures toFlush == c.toFlush + InStack(s, ToFlush) - InStack(x.stack, ToFlush)
    ensures present == c.present + One(ExistsStable(s, x.clean.Some?)) - One(ExistsStable(x.stack, x.clean.Some?))
  {
    hide InStack, StackOk, ExistsStable, Exists;
    MarkedAll(x, k, hi);
    if x.stack[hi].state == Stable {
      StableBelow(x.stack, CleanVersion(x.clean), x.clean.Some?, if k <= hi then k else hi, hi);
      assert s == x.stack;
    } else {
      if hi + 1 < |x.stack| { Above(x, hi); }
      ExistsMarked(x, hi);
      ExistsBefore(x, k);
    }
  }

  /** The second loop of `mark_stable`: from the entry `hi` down to the first one that was
      stable. The counters of existing objects and of entries to flush end up as if computed from
      the new stack. */
  method MarkDown(x: Obj, c: Counters, hi: nat) returns (x': Obj, c': Counters)
    requires ObjOk(x) && hi < |x.stack| && AllSynced(x.stack, hi)
    ensures x' == x.(stack := Stabilized(x.stack, 0, hi))
    ensures c' == c.(toFlush := c.toFlush + InStack(x'.stack, ToFlush) - InStack(x.stack, ToFlush),
                     present := c.present + One(ExistsStable(x'.stack, x.clean.Some?))
                                - One(ExistsStable(x.stack, x.clean.Some?)))
  {
    hide Marking, StackOk, AllSynced, InStack, ExistsStable;
    var s, toFlush, present := x.stack, c.toFlush, c.present;
    var k: nat := hi + 1;
    MarkStart(x, c, hi);
    while k > 0 && s[k - 1].state != Stable
      invariant k <= |s| == |x.stack| && Marking(x, c, hi, k, s, toFlush, present)
    {
      MarkRound(x, c, hi, k, s, toFlush, present);
      k := k - 1;
      present := present + Gain(x, k);
      if Barrier(s[k]) {
        toFlush := toFlush + 1;
      }
      s := s[k := s[k].(state := Stable)];
    }
    MarkEnd(x, c, hi, k, s, toFlush, present);
    x' := x.(stack := s);
    c' := c.(toFlush := toFlush, present := present);
  }

  lemma MarkStart(x: Obj, c: Counters, hi: nat)
    requires hi < |x.stack| && AllSynced(x.stack, hi)
    ensures Marking(x, c, hi, hi + 1, x.stack, c.toFlush, c.present)
  {
    hide InStack, Exists;
    assert Stabilized(x.stack, hi + 1, hi) == x.stack;
  }

  lemma Above(x: Obj, hi: nat)
    requires ObjOk(x) && hi + 1 < |x.stack| && x.stack[hi].state != Stable
    ensures x.stack[hi + 1].state != Stable
  {
    StableBelow(x.stack, CleanVersion(x.clean), x.clean.Some?, hi, hi + 1);
  }

  lemma {:induction false} InStackSame(s: seq<Dirty>, s': seq<Dirty>, t: Token)
    requires |s| == |s'| && forall i :: 0 <= i < |s| ==> InEntry(s[i], t) == InEntry(s'[i], t)
    ensures InStack(s, t) == InStack(s', t)
    decreases |s|
  {
    hide InEntry;
    if s != [] {
      assert forall i :: 0 <= i < |s| - 1 ==> Front(s)[i] == s[i] && Front(s')[i] == s'[i];
      InStackSame(Front(s), Front(s'), t);
    }
  }

  lemma {:induction false} AllSyncedBelow(x: Obj, hi: nat, i: nat)
    requires ObjOk(x) && i <= hi < |x.stack| && AllSynced(x.stack, hi)
    ensures IsSynced(x.stack[i].state)
    decreases hi
  {
    if x.stack[hi].state == Stable {
      StableBelow(x.stack, CleanVersion(x.clean), x.clean.Some?, i, hi);
    } else if i < hi {
      AllSyncedBelow(x, hi - 1, i);
    }
  }

  /** Marking keeps the object in order and the counters with it. */
  lemma MarkedFollows(x: Obj, c: Counters, hi: nat, x': Obj, c': Counters)
    requires ObjOk(x) && hi < |x.stack| && AllSynced(x.stack, hi)
    requires x' == x.(stack := Stabilized(x.stack, 0, hi))
    requires c' == c.(toFlush := c.toFlush + InStack(x'.stack, ToFlush) - InStack(x.stack, ToFlush),
                      present := c.present + One(ExistsStable(x'.stack, x.clean.Some?))
                                 - One(ExistsStable(x.stack, x.clean.Some?)))
    ensures ObjOk(x') && Follow(x, c, x', c')
  {
    hide InStack, ExistsStable, StackOk, AllSynced;
    forall i | 0 <= i <= hi ensures IsSynced(x.stack[i].state) { AllSyncedBelow(x, hi, i); }
    StabilizedOk(x.stack, CleanVersion(x.clean), x.clean.Some?, hi);
    forall t ensures Reading(c', t) - Reading(c, t) == InObject(x', t) - InObject(x, t) {
      if !t.ToFlush? { InStackSame(x.stack, x'.stack, t); }
    }
  }

  // ----- the whole of mark_stable

  /** What the callers of `mark_stable` make sure of: the entry is synced, and so is everything
      below it unless it is instant. */
  predicate MayMark(x: Obj, i: nat)
    requires i < |x.stack|
  {
    IsSynced(x.stack[i].state) && (x.stack[i].IsInstant() || AllSynced(x.stack, i))
  }

  /** `mark_stable` finds no entry in flight if it is called for this version now. */
  predicate Ripe(x: Obj, version: nat) {
    IndexOf(x.stack, version) >= 0 ==> MayMark(x, IndexOf(x.stack, version))
  }

  /** An instant entry waits for all entries below it to become stable. */
  predicate Waits(x: Obj, i: nat)
    requires i < |x.stack|
  {
    x.stack[i].IsInstant() && exists k :: 0 <= k < i && x.stack[k].state != Stable
  }

  lemma {:induction false} ForwardSynced(s: seq<Dirty>, i: nat, j: nat)
    requires i <= j < |s| && AllSynced(s, i) && forall k :: i < k <= j ==> IsSynced(s[k].state)
    ensures AllSynced(s, j)
  {
    if i < j { ForwardSynced(s, i, j - 1); }
  }

  lemma {:induction false} StableSynced(s: seq<Dirty>, i: nat)
    requires i < |s| && IsSynced(s[i].state) && forall k :: 0 <= k < i ==> s[k].state == Stable
    ensures AllSynced(s, i)
  {
  }

  /** `mark_stable` without forgetting. */
  method MarkStable(x: Obj, c: Counters, version: nat) returns (x': Obj, c': Counters)
    requires ObjOk(x) && Ripe(x, version)
    ensures ObjOk(x') && Follow(x, c, x', c') && c'.alloc == c.alloc && c'.used == c.used
    ensures var i := IndexOf(x.stack, version);
            x' == if i == -1 || Waits(x, i) then x
                  else x.(stack := Stabilized(x.stack, 0, if x.stack[i].IsInstant() then Forward(x.stack, i) else i))
  {
    x', c' := x, c;
    var i := IndexOf(x.stack, version);
    if i == -1 {
      return;
    }
    var hi: nat := i;
    if x.stack[i].IsInstant() {
      var back: nat := i;
      while back > 0
        invariant back <= i && forall k :: back <= k < i ==> x.stack[k].state == Stable
      {
        back := back - 1;
        if x.stack[back].state != Stable {
          return;
        }
      }
      StableSynced(x.stack, i);
      while hi + 1 < |x.stack| && IsSynced(x.stack[hi + 1].state)
        invariant i <= hi < |x.stack| && Forward(x.stack, i) == Forward(x.stack, hi)
        invariant forall k :: i < k <= hi ==> IsSynced(x.stack[k].state)
      {
        hi := hi + 1;
      }
      ForwardSynced(x.stack, i, hi);
    }
    x', c' := MarkDown(x, c, hi);
    MarkedFollows(x, c, hi, x', c');
  }

  // ----- erasing entries

  /** The counters include what the entries account for. */
  ghost predicate Accounted(s: seq<Dirty>, c: Counters) { forall t :: InStack(s, t) <= Reading(c, t) }

  lemma EraseNext(c: Counters, s: seq<Dirty>, cleanLoc: Option<int>)
    requires s != [] && Journaled(Last(s)) && Accounted(s, c)
    ensures Erased(c, s, cleanLoc) == Erased(EraseOne(c, Last(s), cleanLoc), Front(s), cleanLoc)
    ensures Accounted(Front(s), EraseOne(c, Last(s), cleanLoc))
    ensures Last(s).sector in c.used && (Last(s).kind == BigWrite ==> Last(s).location in c.alloc)
  {
    var d := Last(s);
    var c' := EraseOne(c, d, cleanLoc);
    forall t ensures InStack(Front(s), t) <= Reading(c', t) {
      assert InStack(s, t) <= Reading(c, t);
      EraseOneReading(c, d, cleanLoc, t);
    }
    assert InStack(s, Sector(d.sector)) <= Reading(c, Sector(d.sector));
    assert InStack(s, Block(d.location)) <= Reading(c, Block(d.location));
  }

  /** The loop of `erase_dirty` over the entries `s` of one object. Every sector and block that it
      releases is in use. */
  method EraseDirty(c: Counters, s: seq<Dirty>, cleanLoc: Option<int>) returns (c': Counters)
    requires forall d :: d in s ==> Journaled(d)
    requires Accounted(s, c)
    ensures c' == Erased(c, s, cleanLoc)
  {
    hide Accounted, Erased, Journaled;
    c' := c;
    var rest := s;
    while rest != []
      invariant Erased(c', rest, cleanLoc) == Erased(c, s, cleanLoc) && Accounted(rest, c')
      invariant forall d :: d in rest ==> Journaled(d)
    {
      var d := Last(rest);
      EraseNext(c', rest, cleanLoc);
      if Barrier(d) && d.state == Stable {
        c' := c'.(toFlush := c'.toFlush - 1);
      }
      if d.kind == BigWrite && cleanLoc != Some(d.location) {
        assert d.location in c'.alloc;
        c' := c'.(alloc := c'.alloc - {d.location});
      }
      assert d.sector in c'.used;
      c' := c'.(used := c'.used - multiset{d.sector});
      rest := Front(rest);
    }
    ErasedNone(c', cleanLoc);
  }

  lemma ErasedNone(c: Counters, cleanLoc: Option<int>)
    ensures Erased(c, [], cleanLoc) == c
  {
  }

  // ----- rolling back

  datatype Verdict = Todo | Done | Wait | Sync | NotFound

  /** From the top downwards entry `j` is the first one above the version that is not just synced. */
  predicate Obstacle(s: seq<Dirty>, version: nat, j: nat) {
    && j < |s| && s[j].version > version && s[j].state != Synced
    && forall k :: j < k < |s| ==> s[k].state == Synced
  }

  /** The check of a rollback request against the entries of the object. */
  method RollbackVerdict(s: seq<Dirty>, version: nat, ghost lo: nat, ghost clean: bool) returns (v: Verdict)
    requires StackOk(s, lo, clean)
    ensures v.Done? <==> s == [] || Last(s).version < version
    ensures v.Todo? ==> forall i :: 0 <= i < |s| && s[i].version > version ==> s[i].state == Synced
    ensures s != [] && Last(s).version >= version ==>
              && ((forall i :: 0 <= i < |s| && s[i].version > version ==> s[i].state == Synced) ==> v == Todo)
              && forall j: nat :: Obstacle(s, version, j) ==>
                   v == if s[j].state in {Written, Stable} then Sync else Wait
    ensures v.Wait? ==> exists i :: 0 <= i < |s| && s[i].version > version && IsInFlight(s[i].state)
    ensures v.Sync? ==>
      exists i :: 0 <= i < |s| && s[i].version > version && !IsInFlight(s[i].state) && s[i].state != Synced
    ensures !v.NotFound?
  {
    if s == [] || Last(s).version < version {
      return Done;
    }
    var j: nat := |s|;
    while j > 0 && s[j - 1].version > version
      invariant j <= |s| && forall i :: j <= i < |s| ==> s[i].version > version && s[i].state == Synced
    {
      if IsInFlight(s[j - 1].state) {
        return Wait;
      } else if !IsSynced(s[j - 1].state) || s[j - 1].state == Stable {
        return Sync;
      }
      j := j - 1;
    }
    forall i | 0 <= i < j ensures s[i].version <= version { StableBelow(s, lo, clean, i, j - 1); }
    return Todo;
  }

  lemma {:induction false} InKeptNone(s: seq<Dirty>, t: Token)
    ensures InKept(s, None, t) == 0
    decreases |s|
  {
    if s != [] { InKeptNone(Front(s), t); }
  }

  lemma SplitAt(s: seq<Dirty>, k: nat, t: Token)
    requires k <= |s|
    ensures InStack(s, t) == InStack(s[..k], t) + InStack(s[k..], t)
  {
    assert s == s[..k] + s[k..];
    InStackConcat(s[..k], s[k..], t);
  }

  lemma {:induction false} ExistsUnstable(s: seq<Dirty>, clean: bool, k: nat)
    requires k <= |s| && forall i :: k <= i < |s| ==> s[i].state != Stable
    ensures ExistsStable(s, clean) == ExistsStable(s[..k], clean)
    decreases |s|
  {
    if k < |s| {
      ExistsUnstable(Front(s), clean, k);
      assert Front(s)[..k] == s[..k];
    } else {
      assert s[..k] == s;
    }
  }

  lemma RolledBackFollows(x: Obj, c: Counters, k: nat)
    requires ObjOk(x) && Accounted(x.stack, c) && k <= |x.stack|
    requires forall i :: k <= i < |x.stack| ==> Journaled(x.stack[i]) && x.stack[i].state != Stable
    ensures (forall d :: d in x.stack[k..] ==> Journaled(d)) && Accounted(x.stack[k..], c)
    ensures ObjOk(x.(stack := x.stack[..k]))
    ensures Follow(x, c, x.(stack := x.stack[..k]), Erased(c, x.stack[k..], None))
  {
    hide InStack, InKept, Reading, InClean, ExistsStable, Erased, Journaled;
    StackPrefix(x.stack, CleanVersion(x.clean), x.clean.Some?, k);
    ExistsUnstable(x.stack, x.clean.Some?, k);
    var gone, c' := x.stack[k..], Erased(c, x.stack[k..], None);
    forall t ensures InStack(gone, t) <= Reading(c, t) { SplitAt(x.stack, k, t); }
    forall t ensures Reading(c', t) - Reading(c, t) == InObject(x.(stack := x.stack[..k]), t) - InObject(x, t) {
      SplitAt(x.stack, k, t);
      ErasedReading(c, gone, None, t);
      InKeptNone(gone, t);
    }
  }

  /** What `mark_rolled_back` takes away. */
  predicate Goes(d: Dirty, version: nat) { d.version > version && !IsInFlight(d.state) && d.state != Stable }

  /** How many entries `mark_rolled_back` keeps: it stops at the first one that does not go. */
  function Kept(s: seq<Dirty>, version: nat): (k: nat)
    ensures k <= |s| && (forall i :: k <= i < |s| ==> Goes(s[i], version)) && (k > 0 ==> !Goes(s[k - 1], version))
    decreases |s|
  {
    if s != [] && Goes(Last(s), version) then Kept(Front(s), version) else |s|
  }

  lemma KeptIs(s: seq<Dirty>, k: nat, version: nat)
    requires k <= |s| && (forall i :: k <= i < |s| ==> Goes(s[i], version)) && (k > 0 ==> !Goes(s[k - 1], version))
    ensures k == Kept(s, version)
  {
    hide Kept;
  }

  /** The versions above the target are gone afterwards exactly if none of them is in flight or stable
      by then. Otherwise all of them up to the newest such one stay, although the journal has their rollback. */
  lemma KeptIff(s: seq<Dirty>, version: nat, lo: nat, clean: bool)
    requires StackOk(s, lo, clean)
    ensures (forall i :: 0 <= i < |s| ==> (s[i].version > version <==> i >= Kept(s, version)))
       <==> (forall i :: 0 <= i < |s| && s[i].version > version ==> Goes(s[i], version))
  {
    hide StackOk;
    var k := Kept(s, version);
    forall i | 0 <= i < k ensures s[i].version <= s[k - 1].version { StableBelow(s, lo, clean, i, k - 1); }
  }

  /** `mark_rolled_back` with the entries as they are by then. It takes away the versions above the target down
      to the first that is in flight or stable, and gives back what they held. A big write among them that is not
      synced yet has no journal sector to give back: the program ends there. */
  method MarkRolledBack(x: Obj, c: Counters, version: nat) returns (done: bool, x': Obj, c': Counters)
    requires ObjOk(x) && Accounted(x.stack, c)
    ensures done <==> forall i :: Kept(x.stack, version) <= i < |x.stack| ==> x.stack[i].sector > 0
    ensures done ==> x' == x.(stack := x.stack[..Kept(x.stack, version)]) && ObjOk(x') && Follow(x, c, x', c')
    ensures !done ==> x' == x && c' == c
  {
    hide StackOk, Follow, Accounted, Kept;
    var s := x.stack;
    var k: nat := |s|;
    done := true;
    while k > 0 && s[k - 1].version > version && !IsInFlight(s[k - 1].state) && s[k - 1].state != Stable
      invariant k <= |s| && forall i :: k <= i < |s| ==> Goes(s[i], version)
      invariant done <==> forall i :: k <= i < |s| ==> s[i].sector > 0
    {
      k := k - 1;
      done := done && s[k].sector > 0;
    }
    KeptIs(s, k, version);
    if !done {
      return false, x, c;
    }
    RolledBackFollows(x, c, k);
    c' := EraseDirty(c, s[k..], None);
    x' := x.(stack := s[..k]);
  }

  // ----- the end of a flush

  /** Where the data of the object is after the entries of `p`. */
  function LocAfter(p: seq<Dirty>, clean: Option<CleanRef>): Option<int>
    decreases |p|
  {
    if p == [] then (if clean.Some? then Some(clean.value.location) else None)
    else match Last(p).kind
      case BigWrite => Some(Last(p).location)
      case Delete => None
      case SmallWrite => LocAfter(Front(p), clean)
  }

  lemma {:induction false} LocExists(p: seq<Dirty>, lo: nat, clean: Option<CleanRef>)
    requires StackOk(p, lo, clean.Some?)
    ensures LocAfter(p, clean).Some? == Exists(p, clean.Some?)
    decreases |p|
  {
    if p != [] { LocExists(Front(p), lo, clean); }
  }

  lemma {:induction false} InKeptIs(p: seq<Dirty>, loc: int, t: Token)
    requires forall d :: d in p ==> Journaled(d)
    ensures InKept(p, Some(loc), t) == if t == Block(loc) then InStack(p, t) else 0
    decreases |p|
  {
    if p != [] {
      assert Journaled(p[|p| - 1]);
      InKeptIs(Front(p), loc, t);
    }
  }

  /** A block that the object is left with is the clean one or belongs to one of the entries. */
  lemma {:induction false} LocOwned(p: seq<Dirty>, clean: Option<CleanRef>, loc: int)
    requires LocAfter(p, clean) == Some(loc) && forall d :: d in p ==> Journaled(d)
    ensures InStack(p, Block(loc)) > 0 || (clean.Some? && clean.value.location == loc)
    decreases |p|
  {
    if p != [] {
      assert Journaled(p[|p| - 1]);
      if Last(p).kind == SmallWrite { LocOwned(Front(p), clean, loc); }
    }
  }

  lemma {:induction false} StackLower(s: seq<Dirty>, lo: nat, lo': nat, clean: bool)
    requires StackOk(s, lo, clean) && lo' <= lo
    ensures StackOk(s, lo', clean)
    decreases |s|
  {
    if s != [] { StackLower(Front(s), lo, lo', clean); }
  }

  lemma {:induction false} StackSuffix(s: seq<Dirty>, lo: nat, clean: bool, n: nat)
    requires StackOk(s, lo, clean) && 0 < n <= |s| && forall i :: 0 <= i < n ==> s[i].state == Stable
    ensures StackOk(s[n..], s[n - 1].version, Exists(s[..n], clean))
    ensures ExistsStable(s[n..], Exists(s[..n], clean)) == ExistsStable(s, clean)
    decreases |s|
  {
    if n < |s| {
      StackSuffix(Front(s), lo, clean, n);
      assert Front(s)[..n] == s[..n] && Front(s[n..]) == Front(s)[n..];
      assert |s| - n > 1 ==> Last(Front(s[n..])) == Last(Front(s));
    } else {
      assert s[..n] == s;
    }
  }

  /** `clean_db` after the flush of the entries `p`. */
  function NewClean(p: seq<Dirty>, clean: Option<CleanRef>): Option<CleanRef>
    requires p != []
  {
    var loc := LocAfter(p, clean);
    if loc.Some? then Some(CleanRef(Last(p).version, loc.value)) else None
  }

  /** After the flush of the first `n` entries the clean copy has the newest of these versions, in the block of the last
      big write among them or, if there are only small writes, where it was; a delete leaves none. */
  ghost predicate Settles(x: Obj, n: nat, clean: Option<CleanRef>)
    requires 0 < n <= |x.stack|
  {
    && (clean.None? <==> x.stack[n - 1].kind == Delete)
    && (clean.Some? ==> clean.value.version == x.stack[n - 1].version)
    && (forall b: nat :: LastBig(x.stack, n, b) ==> clean.Some? && clean.value.location == x.stack[b].location)
    && ((forall i :: 0 <= i < n ==> x.stack[i].kind == SmallWrite) ==>
          x.clean.Some? && clean.Some? && clean.value.location == x.clean.value.location)
  }

  /** One of the first `n` entries or the clean copy has its data at `loc`. */
  predicate Used(x: Obj, n: nat, loc: int)
    requires n <= |x.stack|
  {
    || (x.clean.Some? && x.clean.value.location == loc)
    || exists b :: 0 <= b < n && x.stack[b].kind == BigWrite && x.stack[b].location == loc
  }

  /** Of the blocks that the flushed entries and the old copy had, exactly the new clean one stays allocated, and no
      other block is touched. */
  ghost predicate Frees(x: Obj, n: nat, clean: Option<CleanRef>, alloc: set<int>, alloc': set<int>)
    requires n <= |x.stack|
  {
    && (clean.Some? ==> Used(x, n, clean.value.location))
    && forall loc ::
         loc in alloc' <==> if Used(x, n, loc) then clean.Some? && clean.value.location == loc else loc in alloc
  }

  /** The location that `erase_dirty` must not free: the new clean block, or the old one on a delete. */
  function StayingLoc(p: seq<Dirty>, clean: Option<CleanRef>): Option<int> {
    if LocAfter(p, clean).Some? then LocAfter(p, clean) else LocAfter([], clean)
  }

  /** `free_data_blocks`. */
  function FreeOld(c: Counters, p: seq<Dirty>, clean: Option<CleanRef>): Counters {
    if clean.Some? && LocAfter(p, clean) != Some(clean.value.location)
    then c.(alloc := c.alloc - {clean.value.location}) else c
  }

  lemma FreeOldReading(c: Counters, p: seq<Dirty>, clean: Option<CleanRef>, t: Token)
    requires InClean(clean, t) <= Reading(c, t)
    ensures Reading(FreeOld(c, p, clean), t)
         == Reading(c, t) - if clean.Some? && LocAfter(p, clean) != Some(clean.value.location) then InClean(clean, t)
             else 0
  {
  }

  /** Exactly one block remains of the flushed entries and the old clean copy: the new clean one. */
  lemma OneBlockRemains(p: seq<Dirty>, clean: Option<CleanRef>, t: Token)
    requires p != [] && (forall d :: d in p ==> Journaled(d)) && (t.Block? ==> InStack(p, t) + InClean(clean, t) <= 1)
    ensures InClean(NewClean(p, clean), t)
         == InKept(p, StayingLoc(p, clean), t) + InClean(clean, t)
            - if clean.Some? && LocAfter(p, clean) != Some(clean.value.location) then InClean(clean, t) else 0
  {
    hide InStack, InKept, LocAfter;
    var loc := LocAfter(p, clean);
    assert LocAfter([], clean) == if clean.Some? then Some(clean.value.location) else None by { LocBase(clean); }
    if StayingLoc(p, clean).Some? { InKeptIs(p, StayingLoc(p, clean).value, t); } else { InKeptNone(p, t); }
    if loc.Some? && t == Block(loc.value) { LocOwned(p, clean, loc.value); }
  }

  lemma LocBase(clean: Option<CleanRef>)
    ensures LocAfter([], clean) == if clean.Some? then Some(clean.value.location) else None
  {
  }

  lemma FlushedFollows(x: Obj, c: Counters, n: nat)
    requires ObjOk(x) && 0 < n <= |x.stack| && (forall i :: 0 <= i < n ==> x.stack[i].state == Stable)
    requires forall t :: InObject(x, t) <= Reading(c, t)
    ensures var p := x.stack[..n];
            var x' := Obj(x.stack[n..], NewClean(p, x.clean));
            && (forall d :: d in p ==> Journaled(d)) && Accounted(p, FreeOld(c, p, x.clean))
            && ObjOk(x') && Follow(x, c, x', Erased(FreeOld(c, p, x.clean), p, StayingLoc(p, x.clean)))
  {
    hide InStack, InKept, Reading, InClean, LocAfter, ExistsStable, Erased, StackOk, Exists, FreeOld, StayingLoc;
    var p, lo, cl := x.stack[..n], CleanVersion(x.clean), x.clean.Some?;
    StackSuffix(x.stack, lo, cl, n);
    StackPrefix(x.stack, lo, cl, n);
    LocExists(p, lo, x.clean);
    StackLower(x.stack[n..], x.stack[n - 1].version, CleanVersion(NewClean(p, x.clean)), Exists(p, cl));
    var x', c1 := Obj(x.stack[n..], NewClean(p, x.clean)), FreeOld(c, p, x.clean);
    var c' := Erased(c1, p, StayingLoc(p, x.clean));
    forall i | 0 <= i < |p| ensures Journaled(p[i]) { StableBelow(x.stack, lo, cl, i, i); }
    forall t
      ensures InStack(p, t) <= Reading(c1, t) && Reading(c', t) - Reading(c, t) == InObject(x', t) - InObject(x, t)
    {
      FlushedToken(x, c, n, t);
    }
  }

  lemma FlushedToken(x: Obj, c: Counters, n: nat, t: Token)
    requires 0 < n <= |x.stack| && (forall d :: d in x.stack[..n] ==> Journaled(d)) && InObject(x, t) <= Reading(c, t)
    requires ExistsStable(x.stack[n..], NewClean(x.stack[..n], x.clean).Some?) == ExistsStable(x.stack, x.clean.Some?)
    ensures var p := x.stack[..n];
            var c1 := FreeOld(c, p, x.clean);
            && InStack(p, t) <= Reading(c1, t)
            && Reading(Erased(c1, p, StayingLoc(p, x.clean)), t) - Reading(c, t)
               == InObject(Obj(x.stack[n..], NewClean(p, x.clean)), t) - InObject(x, t)
  {
    hide InStack, InKept, LocAfter, ExistsStable, Erased, StayingLoc, NewClean, FreeOld;
    var p := x.stack[..n];
    SplitAt(x.stack, n, t);
    FreeOldReading(c, p, x.clean, t);
    ErasedReading(FreeOld(c, p, x.clean), p, StayingLoc(p, x.clean), t);
    OneBlockRemains(p, x.clean, t);
  }

  lemma {:induction false} LocIs(p: seq<Dirty>, lo: nat, clean: Option<CleanRef>, b: nat)
    requires StackOk(p, lo, clean.Some?) && b < |p| && p[b].kind == BigWrite
    requires forall i :: b < i < |p| ==> p[i].kind == SmallWrite
    ensures LocAfter(p, clean) == Some(p[b].location)
    decreases |p|
  {
    if b < |p| - 1 { LocIs(Front(p), lo, clean, b); }
  }

  lemma {:induction false} LocStays(p: seq<Dirty>, clean: Option<CleanRef>)
    requires forall i :: 0 <= i < |p| ==> p[i].kind == SmallWrite
    ensures LocAfter(p, clean) == if clean.Some? then Some(clean.value.location) else None
    decreases |p|
  {
    if p != [] { LocStays(Front(p), clean); }
  }

  lemma {:induction false} BlockOf(p: seq<Dirty>, b: nat)
    requires b < |p| && p[b].kind == BigWrite && Journaled(p[b])
    ensures InStack(p, Block(p[b].location)) > 0
    decreases |p|
  {
    if b < |p| - 1 { BlockOf(Front(p), b); }
  }

  lemma {:induction false} BlockFrom(p: seq<Dirty>, loc: int)
    requires InStack(p, Block(loc)) > 0
    ensures exists b :: 0 <= b < |p| && p[b].kind == BigWrite && p[b].location == loc
    decreases |p|
  {
    if InEntry(p[|p| - 1], Block(loc)) == 0 {
      BlockFrom(p[..|p| - 1], loc);
      var b :| 0 <= b < |p| - 1 && p[..|p| - 1][b].kind == BigWrite && p[..|p| - 1][b].location == loc;
      assert p[b].kind == BigWrite && p[b].location == loc;
    } else {
      assert p[|p| - 1].kind == BigWrite && p[|p| - 1].location == loc;
    }
  }

  /** A block of the flushed part stays allocated exactly if it is the new clean one; others are not touched. */
  lemma FlushedBlock(x: Obj, c: Counters, n: nat, clean: Option<CleanRef>, c': Counters, loc: int)
    requires 0 < n <= |x.stack| && Follow(x, c, Obj(x.stack[n..], clean), c')
    requires InObject(x, Block(loc)) <= Reading(c, Block(loc))
    requires InClean(clean, Block(loc)) > 0 ==> InStack(x.stack[..n], Block(loc)) + InClean(x.clean, Block(loc)) > 0
    ensures if InStack(x.stack[..n], Block(loc)) + InClean(x.clean, Block(loc)) > 0
            then loc in c'.alloc <==> InClean(clean, Block(loc)) > 0
            else loc in c'.alloc <==> loc in c.alloc
  {
    hide InStack;
    var t, y := Block(loc), Obj(x.stack[n..], clean);
    SplitAt(x.stack, n, t);
    assert Reading(c', t) - Reading(c, t) == InObject(y, t) - InObject(x, t);
  }

  lemma FlushSettles(x: Obj, n: nat)
    requires ObjOk(x) && 0 < n <= |x.stack|
    ensures Settles(x, n, NewClean(x.stack[..n], x.clean))
  {
    hide LocAfter, StackOk;
    var p, lo, cl := x.stack[..n], CleanVersion(x.clean), x.clean.Some?;
    StackPrefix(x.stack, lo, cl, n);
    LocExists(p, lo, x.clean);
    forall b: nat | LastBig(x.stack, n, b) ensures LocAfter(p, x.clean) == Some(x.stack[b].location) {
      LocIs(p, lo, x.clean, b);
    }
    if forall i :: 0 <= i < n ==> x.stack[i].kind == SmallWrite { LocStays(p, x.clean); }
  }

  lemma UsedIff(x: Obj, n: nat, loc: int)
    requires n <= |x.stack| && forall i :: 0 <= i < n ==> Journaled(x.stack[i])
    ensures Used(x, n, loc) <==> InStack(x.stack[..n], Block(loc)) + InClean(x.clean, Block(loc)) > 0
  {
    hide InStack;
    var p := x.stack[..n];
    if InStack(p, Block(loc)) > 0 {
      BlockFrom(p, loc);
      var b :| 0 <= b < |p| && p[b].kind == BigWrite && p[b].location == loc;
      assert x.stack[b].kind == BigWrite && x.stack[b].location == loc;
    }
    if b :| 0 <= b < n && x.stack[b].kind == BigWrite && x.stack[b].location == loc { BlockOf(p, b); }
  }

  lemma FlushFrees(x: Obj, c: Counters, n: nat, c': Counters)
    requires ObjOk(x) && 0 < n <= |x.stack| && (forall i :: 0 <= i < n ==> x.stack[i].state == Stable)
    requires forall t :: InObject(x, t) <= Reading(c, t)
    requires Follow(x, c, Obj(x.stack[n..], NewClean(x.stack[..n], x.clean)), c')
    ensures Frees(x, n, NewClean(x.stack[..n], x.clean), c.alloc, c'.alloc)
  {
    hide InStack, LocAfter, ExistsStable, StackOk, Follow, Reading, InObject, Used;
    var p, clean := x.stack[..n], NewClean(x.stack[..n], x.clean);
    forall i | 0 <= i < n ensures Journaled(x.stack[i]) {
      StableBelow(x.stack, CleanVersion(x.clean), x.clean.Some?, i, i);
    }
    if clean.Some? {
      LocOwned(p, x.clean, clean.value.location);
      UsedIff(x, n, clean.value.location);
    }
    forall loc
      ensures loc in c'.alloc <==>
              if Used(x, n, loc) then clean.Some? && clean.value.location == loc else loc in c.alloc
    {
      UsedIff(x, n, loc);
      FlushedBlock(x, c, n, clean, c', loc);
    }
  }
}
