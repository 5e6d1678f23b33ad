/** The in-memory databases of the store with their global counters, as one object. Every operation
    keeps the versions of every object in order and every counter exact. */
module Store {
  import opened Basics
  import opened Versions
  import opened Counters
  import opened Stability
  import opened Reads
  import opened Waiting

  /** `own` is the number that a write over a delete gets back when the delete is flushed, or zero. */
  datatype Enqueued = Added(version: nat, own: nat) | AlreadyDeleted | VersionExists

  // ----- waiting entries

  /** An entry that is not submitted yet may change its waiting state. */
  predicate Idles(d: Dirty, d': Dirty) {
    d' == d || (d' == d.(state := d'.state) && Rank(d.state) < Rank(Submitted) && Rank(d'.state) < Rank(Submitted))
  }

  predicate AllIdle(s: seq<Dirty>, s': seq<Dirty>) { |s| == |s'| && forall i :: 0 <= i < |s| ==> Idles(s[i], s'[i]) }

  lemma {:induction false} IdleOk(s: seq<Dirty>, s': seq<Dirty>, lo: nat, clean: bool)
    requires StackOk(s, lo, clean) && AllIdle(s, s')
    ensures StackOk(s', lo, clean)
    decreases |s|
  {
    if s != [] {
      assert Idles(s[|s| - 1], s'[|s| - 1]);
      IdleFront(s, s', clean);
      IdleOk(Front(s), Front(s'), lo, clean);
    }
  }

  lemma IdleFront(s: seq<Dirty>, s': seq<Dirty>, clean: bool)
    requires s != [] && AllIdle(s, s')
    ensures AllIdle(Front(s), Front(s')) && Exists(Front(s'), clean) == Exists(Front(s), clean)
    ensures |s| > 1 ==> Idles(Last(Front(s)), Last(Front(s')))
  {
    assert forall i :: 0 <= i < |s| - 1 ==> Idles(s[i], s'[i]) && Front(s)[i] == s[i] && Front(s')[i] == s'[i];
  }

  lemma {:induction false} IdleExists(s: seq<Dirty>, s': seq<Dirty>, clean: bool)
    requires AllIdle(s, s')
    ensures ExistsStable(s', clean) == ExistsStable(s, clean)
    decreases |s|
  {
    if s != [] {
      assert Idles(s[|s| - 1], s'[|s| - 1]);
      IdleFront(s, s', clean);
      IdleExists(Front(s), Front(s'), clean);
    }
  }

  lemma IdleFollows(x: Obj, s': seq<Dirty>, c: Counters)
    requires ObjOk(x) && AllIdle(x.stack, s')
    ensures ObjOk(x.(stack := s')) && Follow(x, c, x.(stack := s'), c)
  {
    hide InStack, ExistsStable, StackOk;
    IdleOk(x.stack, s', CleanVersion(x.clean), x.clean.Some?);
    IdleExists(x.stack, s', x.clean.Some?);
    forall t ensures InObject(x.(stack := s'), t) == InObject(x, t) {
      forall i | 0 <= i < |s'| ensures InEntry(x.stack[i], t) == InEntry(s'[i], t) { assert Idles(x.stack[i], s'[i]); }
      InStackSame(x.stack, s', t);
    }
  }

  lemma UnblockedIdle(s: seq<Dirty>, from: nat)
    ensures AllIdle(s, Unblocked(s, from))
  {
  }

  lemma AfterDeleteIdle(s: seq<Dirty>)
    ensures AllIdle(s, AfterDelete(s))
  {
  }

  /** Entries that waited for a big write go on. */
  method UnblockSmall(s: seq<Dirty>, from: nat) returns (r: seq<Dirty>)
    requires from <= |s|
    ensures r == Unblocked(s, from)
  {
    r := s;
    var i := from;
    while i < |s|
      invariant from <= i <= |s| && |r| == |s|
      invariant forall k :: 0 <= k < i ==> r[k] == Unblocked(s, from)[k]
      invariant forall k :: i <= k < |s| ==> r[k] == s[k]
    {
      if r[i].state == WaitBig {
        r := r[i := r[i].(state := InFlight)];
      }
      i := i + 1;
    }
  }

  /** Writes that waited for the flush of a delete go on; those above a big write wait for it. */
  method UnblockAfterDelete(s: seq<Dirty>) returns (r: seq<Dirty>)
    ensures r == AfterDelete(s)
  {
    r := s;
    var i, next := 0, InFlight;
    while i < |s|
      invariant i <= |s| == |r|
      invariant next == if exists j :: 0 <= j < i && s[j].state == WaitDel && s[j].kind == BigWrite then WaitBig
          else InFlight
      invariant forall k :: 0 <= k < i ==> r[k] == AfterDelete(s)[k]
      invariant forall k :: i <= k < |s| ==> r[k] == s[k]
    {
      if r[i].state == WaitDel {
        r := r[i := r[i].(state := next)];
        if r[i].kind == BigWrite {
          next := WaitBig;
        }
      }
      i := i + 1;
    }
  }

  // ----- one entry at a time

  lemma EntryFollows(x: Obj, i: nat, d: Dirty, c: Counters, c': Counters)
    requires ObjOk(x) && i < |x.stack| && SameRole(x.stack[i], d)
    requires forall t :: Reading(c', t) - Reading(c, t) == InEntry(d, t) - InEntry(x.stack[i], t)
    ensures ObjOk(x.(stack := x.stack[i := d])) && Follow(x, c, x.(stack := x.stack[i := d]), c')
  {
    hide InStack, ExistsStable, StackOk, InEntry, Reading;
    StackSet(x.stack, CleanVersion(x.clean), x.clean.Some?, i, d);
    var x' := x.(stack := x.stack[i := d]);
    forall t ensures Reading(c', t) - Reading(c, t) == InObject(x', t) - InObject(x, t) {
      InStackAt(x.stack, i, d, t);
    }
  }

  /** A new entry on top of the stack. */
  lemma PushFollows(x: Obj, d: Dirty, c: Counters)
    requires ObjOk(x) && Rank(d.state) < Rank(Submitted) && d.sector == 0
    requires d.version > (if x.stack == [] then CleanVersion(x.clean) else Last(x.stack).version)
    requires d.kind != BigWrite ==> Exists(x.stack, x.clean.Some?)
    ensures ObjOk(x.(stack := x.stack + [d])) && Follow(x, c, x.(stack := x.stack + [d]), c)
  {
    var s := x.stack + [d];
    assert Front(s) == x.stack;
    assert ObjOk(x.(stack := s));
    hide StackOk;
    forall t ensures InObject(x.(stack := s), t) == InObject(x, t) { }
  }

  /** The newest version is a delete or waits for one, or the object is missing. */
  predicate OverDelete(x: Obj) {
    if x.stack == [] then x.clean.None? else Last(x.stack).kind == Delete || Last(x.stack).state == WaitDel
  }

  /** The newest version of an object, zero if there is none. */
  function Newest(x: Obj): nat { if x.stack == [] then CleanVersion(x.clean) else Last(x.stack).version }

  function KindOf(x: Obj, isDelete: bool, whole: bool): Kind {
    if isDelete then Delete else if whole || !Exists(x.stack, x.clean.Some?) then BigWrite else SmallWrite
  }

  /** The requested number is taken. */
  predicate Low(x: Obj, requested: nat) { 0 < requested <= Newest(x) }

  /** The number that a new entry gets. */
  function NumberOf(x: Obj, requested: nat): Enqueued {
    Added(if requested > Newest(x) then requested else Newest(x) + 1, if Low(x, requested) then requested else 0)
  }

  /** The state that a new entry starts in. */
  function StateOf(x: Obj, kind: Kind, requested: nat): State {
    if kind == Delete then InFlight else if Low(x, requested) then WaitDel else WaitState(x.stack, kind)
  }

  /** The checks of `enqueue_write` and the entry that it adds. */
  method NewEntry(x: Obj, isDelete: bool, whole: bool, requested: nat, instant: bool, offset: nat, len: nat)
      returns (r: Enqueued, d: Dirty)
    ensures r.AlreadyDeleted? <==> isDelete && !Exists(x.stack, x.clean.Some?)
    ensures r.VersionExists? <==> !r.AlreadyDeleted? && Low(x, requested) && !OverDelete(x)
    ensures r.Added? ==>
              var kind := KindOf(x, isDelete, whole);
              && r == NumberOf(x, requested)
              && d == Dirty(r.version, kind,
                            StateOf(x, kind, requested),
                            instant && !isDelete, 0, offset, len, 0)
              && (kind == SmallWrite ==> d.state == WaitState(x.stack, SmallWrite))
  {
    var version, deleted, waitDel, waitBig := 1, false, false, false;
    if x.stack != [] {
      var e := Last(x.stack);
      version := e.version + 1;
      deleted := e.kind == Delete;
      waitDel := e.state == WaitDel;
      waitBig := if e.kind == BigWrite then !IsSynced(e.state) else e.state == WaitBig;
    } else if x.clean.Some? {
      version := x.clean.value.version + 1;
    } else {
      deleted := true;
    }
    d := Dirty(0, Delete, InFlight, false, 0, 0, 0, 0);
    if deleted && isDelete {
      return AlreadyDeleted, d;
    }
    var own := 0;
    if requested > 0 && requested < version {
      if !deleted && !waitDel {
        return VersionExists, d;
      }
      waitDel, own := true, requested;
    }
    var kind := if isDelete then Delete else if whole || deleted then BigWrite else SmallWrite;
    var state := if isDelete then InFlight
                 else if waitDel then WaitDel
                 else if kind == SmallWrite && waitBig then WaitBig else InFlight;
    d := Dirty(if requested >= version then requested
        else version, kind, state, instant && !isDelete, 0, offset, len, 0);
    r := Added(d.version, own);
  }

  /** `cancel_all_writes`: the entry and all above it are dropped; nothing of them is submitted yet. */
  lemma CancelFollows(x: Obj, i: nat, c: Counters)
    requires ObjOk(x) && i <= |x.stack| && forall k :: i <= k < |x.stack| ==> Rank(x.stack[k].state) < Rank(Submitted)
    ensures ObjOk(x.(stack := x.stack[..i])) && Follow(x, c, x.(stack := x.stack[..i]), c)
  {
    hide StackOk, InStack, ExistsStable;
    var p, q := x.stack[..i], x.stack[i..];
    assert x.stack == p + q;
    StackPrefix(x.stack, CleanVersion(x.clean), x.clean.Some?, i);
    ExistsUnstable(x.stack, x.clean.Some?, i);
    forall t ensures InObject(x.(stack := p), t) == InObject(x, t) {
      InStackConcat(p, q, t);
      forall k | 0 <= k < |q| ensures InEntry(q[k], t) == 0 { InOrder(x, i + k); }
      NothingIn(q, t);
    }
  }

  lemma {:induction false} NothingIn(s: seq<Dirty>, t: Token)
    requires forall k :: 0 <= k < |s| ==> InEntry(s[k], t) == 0
    ensures InStack(s, t) == 0
    decreases |s|
  {
    if s != [] { NothingIn(s[..|s| - 1], t); }
  }

  /** A write that waited for a delete gets its own number back. */
  lemma {:induction false} RenumberOk(s: seq<Dirty>, lo: nat, clean: bool, i: nat, version: nat)
    requires StackOk(s, lo, clean) && i < |s| && s[i].version >= version > (if i == 0 then lo else s[i - 1].version)
    ensures StackOk(s[i := s[i].(version := version)], lo, clean)
    ensures ExistsStable(s[i := s[i].(version := version)], clean) == ExistsStable(s, clean)
    decreases |s|
  {
    var s' := s[i := s[i].(version := version)];
    if i < |s| - 1 {
      RenumberOk(Front(s), lo, clean, i, version);
      assert Front(s') == Front(s)[i := Front(s)[i].(version := version)];
    } else {
      assert Front(s') == Front(s);
    }
  }

  lemma RenumberFollows(x: Obj, i: nat, version: nat, c: Counters)
    requires ObjOk(x) && i < |x.stack|
    requires x.stack[i].version >= version > (if i == 0 then CleanVersion(x.clean) else x.stack[i - 1].version)
    ensures var x' := x.(stack := x.stack[i := x.stack[i].(version := version)]);
            ObjOk(x') && Follow(x, c, x', c)
  {
    hide StackOk, InStack, ExistsStable;
    var d := x.stack[i].(version := version);
    RenumberOk(x.stack, CleanVersion(x.clean), x.clean.Some?, i, version);
    forall t ensures InObject(x.(stack := x.stack[i := d]), t) == InObject(x, t) { InStackAt(x.stack, i, d, t); }
  }

  lemma ObjOkOf(db: map<nat, Obj>, o: nat)
    requires forall k :: k in db ==> ObjOk(db[k])
    ensures ObjOk(ObjOf(db, o))
  {
  }

  lemma DisciplinedOf(db: map<nat, Obj>, o: nat)
    requires forall k :: k in db ==> Disciplined(db[k].stack, db[k].clean.Some?)
    ensures Disciplined(ObjOf(db, o).stack, ObjOf(db, o).clean.Some?)
  {
  }

  // ----- between the check of a stabilize request and its end

  /** An entry that is synced stays synced under its number; one that is not may only be numbered lower. */
  predicate Advances(d: Dirty, d': Dirty) {
    && d'.version <= d.version && d'.IsInstant() == d.IsInstant()
    && (IsSynced(d.state) ==> IsSynced(d'.state) && d'.version == d.version)
  }

  /** What could be marked stable still can, or is gone. */
  ghost predicate KeepsRipe(x: Obj, y: Obj) {
    forall version: nat :: IndexOf(x.stack, version) >= 0 && Ripe(x, version) ==> Ripe(y, version)
  }

  /** The first `n` entries are gone, the others advance, and new ones come on top. */
  predicate Moved(s: seq<Dirty>, s': seq<Dirty>, n: nat) {
    && (forall k :: 0 <= k < |s'| && n + k < |s| ==>
          Advances(s[n + k], s'[k]) && (n > 0 ==> s'[k].version == s[n + k].version))
    && (forall k :: 0 <= k < |s'| && n + k >= |s| > 0 ==> s'[k].version > Last(s).version)
  }

  lemma {:induction false} SyncedAll(s: seq<Dirty>, j: nat)
    requires j < |s| && forall k :: 0 <= k <= j ==> IsSynced(s[k].state)
    ensures AllSynced(s, j)
  {
    if j > 0 { SyncedAll(s, j - 1); }
  }

  /** A ripe version is still at its place, or gone. */
  lemma SamePlace(x: Obj, y: Obj, n: nat, i: nat, j: nat)
    requires ObjOk(x) && ObjOk(y) && Moved(x.stack, y.stack, n) && i < |x.stack| && j < |y.stack|
    requires IsSynced(x.stack[i].state) && x.stack[i].version == y.stack[j].version
    ensures n + j == i
  {
    hide StackOk;
    var lo, clean := CleanVersion(x.clean), x.clean.Some?;
    StableBelow(x.stack, lo, clean, i, |x.stack| - 1);
    assert n + j < |x.stack|;
    assert Advances(x.stack[n + j], y.stack[j]);
    StableBelow(x.stack, lo, clean, if i < n + j then i else n + j, if i < n + j then n + j else i);
    if n <= i && i - n < |y.stack| {
      assert Advances(x.stack[n + (i - n)], y.stack[i - n]);
      IndexAt(y, i - n);
      IndexAt(y, j);
    }
  }

  lemma AdvancedKeeps(x: Obj, y: Obj, n: nat)
    requires ObjOk(x) && ObjOk(y) && Moved(x.stack, y.stack, n)
    ensures KeepsRipe(x, y)
  {
    hide StackOk, AllSynced, Moved;
    forall version: nat | IndexOf(x.stack, version) >= 0 && Ripe(x, version) ensures Ripe(y, version) {
      if IndexOf(y.stack, version) >= 0 { RipeStays(x, y, n, version); }
    }
  }

  lemma RipeStays(x: Obj, y: Obj, n: nat, version: nat)
    requires ObjOk(x) && ObjOk(y) && Moved(x.stack, y.stack, n)
    requires IndexOf(x.stack, version) >= 0 && Ripe(x, version) && IndexOf(y.stack, version) >= 0
    ensures Ripe(y, version)
  {
    hide StackOk, AllSynced;
    var i, j := IndexOf(x.stack, version), IndexOf(y.stack, version);
    SamePlace(x, y, n, i, j);
    assert Advances(x.stack[n + j], y.stack[j]);
    if !x.stack[i].IsInstant() {
      forall k | 0 <= k <= j ensures IsSynced(y.stack[k].state) {
        AllSyncedBelow(x, i, n + k);
        assert Advances(x.stack[n + k], y.stack[k]);
      }
      SyncedAll(y.stack, j);
    }
  }

  // ----- what the ends of the requests do, by the states of the entries

  /** Marking entry `i` stable reaches entry `k`: everything below a plain entry; with an instant one, if all below it
      is stable, the durable entries right above. */
  predicate Reaches(s: seq<Dirty>, i: nat, k: nat)
    requires i < |s| && k < |s|
  {
    if s[i].kind != Delete && !s[i].instant then k <= i
    else
      && (forall j :: 0 <= j < i ==> s[j].state == Stable)
      && forall j :: i < j <= k ==> s[j].state in {Synced, Stable}
  }

  predicate Reached(s: seq<Dirty>, version: nat, k: nat)
    requires k < |s|
  {
    exists i :: 0 <= i < |s| && s[i].version == version && Reaches(s, i, k)
  }

  /** Exactly the entries that are reached become stable, and nothing else changes. */
  ghost predicate Marks(s: seq<Dirty>, version: nat, s': seq<Dirty>) {
    && |s'| == |s|
    && forall k :: 0 <= k < |s| ==> s'[k] == if Reached(s, version, k) then s[k].(state := Stable) else s[k]
  }

  lemma MarkedAs(x: Obj, version: nat, s': seq<Dirty>)
    requires ObjOk(x)
    requires var i := IndexOf(x.stack, version);
             s' == if i == -1 || Waits(x, i) then x.stack
                   else Stabilized(x.stack, 0, if x.stack[i].IsInstant() then Forward(x.stack, i) else i)
    ensures Marks(x.stack, version, s')
  {
    hide StackOk, IndexOf, Reaches;
    var s, i := x.stack, IndexOf(x.stack, version);
    if i >= 0 {
      OnlyIndex(x, i);
      forall k | 0 <= k < |s| ensures s'[k] == if Reached(s, version, k) then s[k].(state := Stable) else s[k] {
        assert Reached(s, version, k) <==> Reaches(s, i, k);
        ReachesIff(x, i, k);
      }
    }
  }

  lemma ReachesIff(x: Obj, i: nat, k: nat)
    requires i < |x.stack| && k < |x.stack|
    ensures Reaches(x.stack, i, k) <==>
            !Waits(x, i) && k <= if x.stack[i].IsInstant() then Forward(x.stack, i) else i
  {
    var f := Forward(x.stack, i);
    assert f + 1 < |x.stack| ==> x.stack[f + 1].state !in {Synced, Stable};
  }

  /** The first `n` entries stay: on top of them are only finished versions above the target that are not stable. */
  predicate Leaves(s: seq<Dirty>, version: nat, n: nat) {
    && n <= |s|
    && (forall k :: n <= k < |s| ==> s[k].version > version && s[k].state in {Written, Synced})
    && (n > 0 ==> s[n - 1].version <= version || s[n - 1].state !in {Written, Synced})
  }

  lemma LeavesKept(s: seq<Dirty>, version: nat)
    ensures Leaves(s, version, Kept(s, version))
  {
  }

  lemma PrefixMoves(s: seq<Dirty>, n: nat)
    requires n <= |s|
    ensures Moved(s, s[..n], 0)
  {
  }

  /** Nothing waits for a delete any more: of the writes that did, those over a big write that did wait for it, and the
      others start. Nothing else changes. */
  ghost predicate Released(s: seq<Dirty>, s': seq<Dirty>) {
    && |s'| == |s|
    && forall k :: 0 <= k < |s| ==>
         && s'[k] == s[k].(state := s'[k].state)
         && (s[k].state != WaitDel ==> s'[k].state == s[k].state)
         && (s[k].state == WaitDel ==> s'[k].state == if OverWaiting(s, k) then WaitBig else InFlight)
  }

  predicate OverWaiting(s: seq<Dirty>, k: nat) {
    exists j :: 0 <= j < k && j < |s| && s[j].kind == BigWrite && s[j].state == WaitDel
  }

  lemma ReleasedAll(s: seq<Dirty>)
    ensures Released(s, AfterDelete(s))
  {
    forall k | 0 <= k < |s| && s[k].state == WaitDel
      ensures AfterDelete(s)[k].state == if OverWaiting(s, k) then WaitBig else InFlight
    {
    }
  }

  class Store {
    /** Both databases, grouped by object. */
    var db: map<nat, Obj>
    var c: Counters

    ghost predicate Valid()
      reads this
    {
      (forall k :: k in db ==> ObjOk(db[k])) && Tied(db, c)
    }

    /** In every object the right writes wait. */
    ghost predicate Orderly()
      reads this
    {
      forall k :: k in db ==> Disciplined(db[k].stack, db[k].clean.Some?)
    }

    constructor ()
      ensures Valid() && db == map[] && c == Counters({}, multiset{}, 0, 0)
    {
      db := map[];
      c := Counters({}, multiset{}, 0, 0);
    }

    method Replace(o: nat, x: Obj, c': Counters)
      requires Valid() && ObjOk(x) && Follow(ObjOf(db, o), c, x, c')
      modifies this
      ensures Valid() && db == old(db)[o := x] && c == c'
    {
      TiedUpdate(db, c, o, x, c');
      db := db[o := x];
      c := c';
    }

    /** `enqueue_write`: chooses the version and the kind of the new entry. A write over a missing or
        deleted object is a big one, and a deleted object is not deleted again. A write that is numbered
        at or below a delete is put above it for the time being and waits for its flush. */
    method Enqueue(o: nat, isDelete: bool, whole: bool, requested: nat, instant: bool, offset: nat, len: nat)
        returns (r: Enqueued)
      requires Valid()
      modifies this
      ensures Valid() && c == old(c) && (old(Orderly()) ==> Orderly())
      ensures KeepsRipe(old(ObjOf(db, o)), ObjOf(db, o))
      ensures !r.Added? ==> db == old(db)
      ensures r.Added? ==>
                var x := old(ObjOf(db, o));
                var kind := KindOf(x, isDelete, whole);
                && r == NumberOf(x, requested)
                && db == old(db)[o := x.(stack := x.stack + [Dirty(r.version, kind,
                     StateOf(x, kind, requested),
                     instant && !isDelete, 0, offset, len, 0)])]
      ensures r.AlreadyDeleted? <==> isDelete && !old(Exists(ObjOf(db, o).stack, ObjOf(db, o).clean.Some?))
      ensures r.VersionExists? <==>
                !r.AlreadyDeleted? && old(Low(ObjOf(db, o), requested)) && !old(OverDelete(ObjOf(db, o)))
    {
      hide StackOk, Disciplined, Tied, Follow, KeepsRipe;
      var x := ObjOf(db, o);
      ObjOkOf(db, o);
      var d;
      r, d := NewEntry(x, isDelete, whole, requested, instant, offset, len);
      if r.Added? {
        PushFollows(x, d, c);
        Replace(o, x.(stack := x.stack + [d]), c);
        AdvancedKeeps(x, x.(stack := x.stack + [d]), 0);
        if old(Orderly()) {
          DisciplinedOf(old(db), o);
          PushDisciplined(x.stack, x.clean.Some?, d);
        }
      } else {
        AdvancedKeeps(x, x, 0);
      }
    }

    ghost predicate Has(o: nat, version: nat)
      reads this
    {
      IndexOf(ObjOf(db, o).stack, version) >= 0
    }

    ghost function Entry(o: nat, version: nat): Dirty
      requires Has(o, version)
      reads this
    {
      ObjOf(db, o).stack[IndexOf(ObjOf(db, o).stack, version)]
    }

    /** A big write takes a free block when it is submitted. */
    method SubmitBig(o: nat, version: nat, loc: int)
      requires Valid() && Has(o, version) && Entry(o, version).kind == BigWrite && Entry(o, version).state == InFlight
      requires loc !in c.alloc
      modifies this
      ensures Valid() && c == old(c).(alloc := old(c.alloc) + {loc}) && (old(Orderly()) ==> Orderly())
      ensures KeepsRipe(old(ObjOf(db, o)), ObjOf(db, o))
      ensures db == old(db[o := SetAt(ObjOf(db, o), version, Entry(o, version).(location := loc, state := Submitted))])
    {
      hide StackOk, Disciplined, Tied, Follow, KeepsRipe;
      var x := ObjOf(db, o);
      var i := IndexOf(x.stack, version);
      var d := x.stack[i].(location := loc, state := Submitted);
      var c' := c.(alloc := c.alloc + {loc});
      InOrder(x, i);
      EntryFollows(x, i, d, c, c');
      Replace(o, x.(stack := x.stack[i := d]), c');
      SteadyDisciplined(x.stack, x.stack[i := d], x.clean.Some?);
      AdvancedKeeps(x, x.(stack := x.stack[i := d]), 0);
    }

    /** A write that waited for a delete gets its own number back when it is dequeued, unless a version
        below has reached it: then this write and all above it are cancelled. */
    method Restore(o: nat, version: nat, own: nat) returns (restored: bool)
      requires Valid() && Has(o, version) && 0 < own < version && Entry(o, version).state == InFlight
      requires IndexOf(ObjOf(db, o).stack, version) == 0 ==> own > CleanVersion(ObjOf(db, o).clean)
      requires forall k :: IndexOf(ObjOf(db, o).stack, version) <= k < |ObjOf(db, o).stack| ==>
                 Rank(ObjOf(db, o).stack[k].state) < Rank(Submitted)
      modifies this
      ensures Valid() && c == old(c) && (old(Orderly()) ==> Orderly())
      ensures KeepsRipe(old(ObjOf(db, o)), ObjOf(db, o))
      ensures var x, i := old(ObjOf(db, o)), old(IndexOf(ObjOf(db, o).stack, version));
              && (restored <==> i == 0 || x.stack[i - 1].version < own)
              && db == old(db)[o := x.(stack := if restored then x.stack[i := x.stack[i].(version := own)]
                  else x.stack[..i])]
    {
      hide StackOk, Disciplined, Tied, Follow, KeepsRipe;
      var x := ObjOf(db, o);
      var i := IndexOf(x.stack, version);
      if i > 0 && x.stack[i - 1].version >= own {
        CancelFollows(x, i, c);
        Replace(o, x.(stack := x.stack[..i]), c);
        if old(Orderly()) { DisciplinedPrefix(x.stack, x.clean.Some?, i); }
        AdvancedKeeps(x, x.(stack := x.stack[..i]), 0);
        return false;
      }
      RenumberFollows(x, i, own, c);
      Replace(o, x.(stack := x.stack[i := x.stack[i].(version := own)]), c);
      SteadyDisciplined(x.stack, x.stack[i := x.stack[i].(version := own)], x.clean.Some?);
      AdvancedKeeps(x, x.(stack := x.stack[i := x.stack[i].(version := own)]), 0);
      return true;
    }

    /** A small write or a delete refers to its journal sector when it is submitted, a big write when
        it is journaled after its data. */
    method WriteEntry(o: nat, version: nat, sector: nat)
      requires Valid() && Has(o, version) && sector > 0 && Entry(o, version).sector == 0
      requires var d := Entry(o, version);
               if d.kind == BigWrite then d.state == Submitted || d.state == Written else d.state == InFlight
      modifies this
      ensures Valid() && c == old(c).(used := old(c.used) + multiset{sector}) && (old(Orderly()) ==> Orderly())
      ensures KeepsRipe(old(ObjOf(db, o)), ObjOf(db, o))
      ensures db == old(db[o := SetAt(ObjOf(db, o), version, Entry(o, version).(
                sector := sector, state := if Entry(o, version).kind == BigWrite then Entry(o, version).state
                    else Submitted))])
    {
      hide StackOk, Disciplined, Tied, Follow, KeepsRipe;
      var x := ObjOf(db, o);
      var i := IndexOf(x.stack, version);
      var d := x.stack[i].(sector := sector, state := if x.stack[i].kind == BigWrite then x.stack[i].state
          else Submitted);
      var c' := c.(used := c.used + multiset{sector});
      InOrder(x, i);
      EntryFollows(x, i, d, c, c');
      Replace(o, x.(stack := x.stack[i := d]), c');
      SteadyDisciplined(x.stack, x.stack[i := d], x.clean.Some?);
      AdvancedKeeps(x, x.(stack := x.stack[i := d]), 0);
    }

    /** The end of a write, and of a sync for each write that it covers: the entry is written or, when
        it is durable, synced. An instant entry becomes stable at once if all entries below it are. A
        durable big write lets everything go on that waits for a big write above it, which is right if
        and only if none of that has another unfinished big write in between. */
    method Complete(o: nat, version: nat, durable: bool)
      requires Valid() && Has(o, version) && CanComplete(ObjOf(db, o), IndexOf(ObjOf(db, o).stack, version), durable)
      modifies this
      ensures Valid() && c.alloc == old(c.alloc) && c.used == old(c.used)
      ensures KeepsRipe(old(ObjOf(db, o)), ObjOf(db, o))
      ensures var x, i := old(ObjOf(db, o)), old(IndexOf(ObjOf(db, o).stack, version));
              && db == old(db)[o := x.(stack := AfterWrite(x, i, durable))]
              && (old(Orderly()) ==> (Orderly() <==> durable && x.stack[i].kind == BigWrite ==> FreeToGo(x.stack, i)))
    {
      hide StackOk, Disciplined, Tied, Follow, AfterWrite, AfterAck, KeepsRipe;
      var x := ObjOf(db, o);
      var i := IndexOf(x.stack, version);
      var x', c' := Completed(x, c, i, durable);
      Replace(o, x', c');
      assert o in db && db[o] == x';
      if old(Orderly()) { CompletedDisciplined(x, i, durable, x'); }
      CompletedMoves(x, i, durable);
      AdvancedKeeps(x, x', 0);
    }

    /** The end of a stabilize request, after its journal write: if the version is still there, it and
        everything below it become stable, unless it is instant and waits for a version below. */
    method FinishStable(o: nat, version: nat)
      requires Valid() && Ripe(ObjOf(db, o), version)
      modifies this
      ensures Valid() && c.alloc == old(c.alloc) && c.used == old(c.used) && (old(Orderly()) ==> Orderly())
      ensures KeepsRipe(old(ObjOf(db, o)), ObjOf(db, o)) && Marks(old(ObjOf(db, o).stack), version, ObjOf(db, o).stack)
      ensures var x, i := old(ObjOf(db, o)), old(IndexOf(ObjOf(db, o).stack, version));
              db == old(db)[o := if i == -1 || Waits(x, i) then x
                  else x.(stack := Stabilized(x.stack, 0, if x.stack[i].IsInstant() then Forward(x.stack, i) else i))]
    {
      hide StackOk, Disciplined, Tied, Follow, KeepsRipe, MayMark, Marks;
      var x := ObjOf(db, o);
      ObjOkOf(db, o);
      var x', c' := MarkStable(x, c, version);
      StabilizedSteady(x, version, x'.stack);
      MarkedAs(x, version, x'.stack);
      Replace(o, x', c');
      if old(Orderly()) {
        DisciplinedOf(old(db), o);
        SteadyDisciplined(x.stack, x'.stack, x.clean.Some?);
      }
      AdvancedKeeps(x, x', 0);
    }

    /** The end of a rollback request, after its journal write: the versions above the target that are on top
        and neither in flight nor stable by then are removed. The program ends if one of them is a big write
        that is not journaled yet. */
    method FinishRollback(o: nat, version: nat) returns (done: bool)
      requires Valid()
      modifies this
      ensures done <==> forall i :: Kept(old(ObjOf(db, o)).stack, version) <= i < |old(ObjOf(db, o)).stack| ==>
                          old(ObjOf(db, o)).stack[i].sector > 0
      ensures !done ==> db == old(db) && c == old(c)
      ensures done ==> Valid() && (old(Orderly()) ==> Orderly()) && KeepsRipe(old(ObjOf(db, o)), ObjOf(db, o))
      ensures done ==> var x := old(ObjOf(db, o));
                       && db == old(db)[o := x.(stack := x.stack[..Kept(x.stack, version)])]
                       && Leaves(x.stack, version, |ObjOf(db, o).stack|)
    {
      hide StackOk, Disciplined, Tied, Follow, KeepsRipe, MayMark, Accounted, Leaves, Moved, Kept, Goes;
      var x := ObjOf(db, o);
      ObjOkOf(db, o);
      StackWithin(db, c, o);
      LeavesKept(x.stack, version);
      var x', c';
      done, x', c' := MarkRolledBack(x, c, version);
      if done {
        Replace(o, x', c');
        if old(Orderly()) {
          DisciplinedOf(old(db), o);
          DisciplinedPrefix(x.stack, x.clean.Some?, |x'.stack|);
        }
        PrefixMoves(x.stack, |x'.stack|);
        AdvancedKeeps(x, x', 0);
      }
    }

    /** The end of a flush of the first `n` entries of an object, all stable: the clean entry is
        replaced, and every block and sector that they held is released except the new clean block. */
    method FinishFlush(o: nat, n: nat)
      requires Valid() && 0 < n <= |ObjOf(db, o).stack|
      requires forall i :: 0 <= i < n ==> ObjOf(db, o).stack[i].state == Stable
      modifies this
      ensures Valid() && (old(Orderly()) ==> Orderly())
      ensures KeepsRipe(old(ObjOf(db, o)), ObjOf(db, o))
      ensures var x := old(ObjOf(db, o));
              && db == old(db)[o := Obj(if x.stack[n - 1].kind == Delete then AfterDelete(x.stack[n..])
                  else x.stack[n..],
                                        NewClean(x.stack[..n], x.clean))]
              && c.present == old(c.present)
              && (x.stack[n - 1].kind == Delete ==> Released(x.stack[n..], ObjOf(db, o).stack))
              && Settles(x, n, ObjOf(db, o).clean) && Frees(x, n, ObjOf(db, o).clean, old(c.alloc), c.alloc)
    {
      hide StackOk, Disciplined, Tied, Follow, KeepsRipe, Settles, Frees, Moved, AfterDelete, NewClean;
      hide InObject, Reading, Released;
      var x := ObjOf(db, o);
      ReleasedAll(x.stack[n..]);
      ObjOkOf(db, o);
      TiedHas(db, c, o);
      var x', c' := Flushed(x, c, n);
      Replace(o, x', c');
      if old(Orderly()) {
        DisciplinedOf(old(db), o);
        FlushedDisciplined(x, n);
      }
      FlushedMoves(x.stack, n);
      AdvancedKeeps(x, x', n);
    }
  }

  lemma FollowTrans(x: Obj, c: Counters, y: Obj, c': Counters, z: Obj, c'': Counters)
    requires Follow(x, c, y, c') && Follow(y, c', z, c'')
    ensures Follow(x, c, z, c'')
  {
    hide InObject, Reading;
    forall t ensures Reading(c'', t) - Reading(c, t) == InObject(z, t) - InObject(x, t) {
      assert Reading(c', t) - Reading(c, t) == InObject(y, t) - InObject(x, t);
      assert Reading(c'', t) - Reading(c', t) == InObject(z, t) - InObject(y, t);
    }
  }

  predicate CanComplete(x: Obj, i: nat, durable: bool)
    requires i < |x.stack|
  {
    && (x.stack[i].state == Submitted || (durable && x.stack[i].state == Written))
    && (durable ==> x.stack[i].sector > 0)
  }

  /** The entries when the write has its new state, an instant one after `mark_stable`. */
  function AfterAck(x: Obj, i: nat, durable: bool): (r: seq<Dirty>)
    requires i < |x.stack|
    ensures |r| == |x.stack|
  {
    var s := x.stack[i := x.stack[i].(state := if durable then Synced else Written)];
    if durable && x.stack[i].IsInstant() && !Waits(x, i) then Stabilized(s, 0, Forward(s, i)) else s
  }

  /** A durable big write also lets the entries above it go on that wait for a big write. */
  function AfterWrite(x: Obj, i: nat, durable: bool): (r: seq<Dirty>)
    requires i < |x.stack|
    ensures |r| == |x.stack|
  {
    var s := AfterAck(x, i, durable);
    if durable && x.stack[i].kind == BigWrite then Unblocked(s, i + 1) else s
  }

  /** The new state of the entry, then `mark_stable` for an instant one. */
  method Acknowledged(x: Obj, c: Counters, i: nat, durable: bool) returns (x': Obj, c': Counters)
    requires ObjOk(x) && i < |x.stack| && CanComplete(x, i, durable)
    ensures ObjOk(x') && Follow(x, c, x', c') && c'.alloc == c.alloc && c'.used == c.used
    ensures x' == x.(stack := AfterAck(x, i, durable))
  {
    hide StackOk, InStack, ExistsStable, Follow;
    var d := x.stack[i].(state := if durable then Synced else Written);
    InOrder(x, i);
    EntryFollows(x, i, d, c, c);
    x', c' := x.(stack := x.stack[i := d]), c;
    if durable && d.IsInstant() {
      IndexAt(x', i);
      ghost var y := x';
      assert Waits(y, i) == Waits(x, i) by { SameBelow(x, y, i); }
      x', c' := MarkStable(x', c, d.version);
      FollowTrans(x, c, y, c, x', c');
    }
  }

  lemma SameBelow(x: Obj, y: Obj, i: nat)
    requires i < |x.stack| == |y.stack| && x.stack[i].IsInstant() == y.stack[i].IsInstant()
    requires forall k :: 0 <= k < i ==> x.stack[k] == y.stack[k]
    ensures Waits(x, i) == Waits(y, i)
  {
  }

  /** The end of a write. */
  method Completed(x: Obj, c: Counters, i: nat, durable: bool) returns (x': Obj, c': Counters)
    requires ObjOk(x) && i < |x.stack| && CanComplete(x, i, durable)
    ensures ObjOk(x') && Follow(x, c, x', c') && c'.alloc == c.alloc && c'.used == c.used
    ensures x' == x.(stack := AfterWrite(x, i, durable)) && ObjOk(x.(stack := AfterAck(x, i, durable)))
  {
    hide StackOk, InStack, ExistsStable, Follow;
    x', c' := Acknowledged(x, c, i, durable);
    if durable && x.stack[i].kind == BigWrite {
      ghost var y := x';
      var r := UnblockSmall(x'.stack, i + 1);
      UnblockedIdle(x'.stack, i + 1);
      IdleFollows(x', r, c');
      x' := x'.(stack := r);
      FollowTrans(x, c, y, c', x', c');
    }
  }

  /** Below an entry that does not wait everything is stable, and only synced entries are dragged along. */
  lemma AckSteady(x: Obj, i: nat, durable: bool, k: nat)
    requires ObjOk(x) && i < |x.stack| && CanComplete(x, i, durable) && k < |x.stack| && k != i
    ensures Steady(x.stack[k], AfterAck(x, i, durable)[k])
  {
    hide StackOk;
  }

  lemma CompletedDisciplined(x: Obj, i: nat, durable: bool, x': Obj)
    requires ObjOk(x) && i < |x.stack| && CanComplete(x, i, durable) && Disciplined(x.stack, x.clean.Some?)
    requires x' == x.(stack := AfterWrite(x, i, durable)) && ObjOk(x.(stack := AfterAck(x, i, durable)))
    ensures Disciplined(x'.stack, x.clean.Some?) <==> durable && x.stack[i].kind == BigWrite ==> FreeToGo(x.stack, i)
  {
    hide StackOk, Disciplined, AfterAck;
    var s, s' := x.stack, AfterAck(x, i, durable);
    forall k | 0 <= k < |s| && k != i ensures Steady(s[k], s'[k]) { AckSteady(x, i, durable, k); }
    AckedEntry(x, i, durable);
    if durable && s[i].kind == BigWrite {
      UnblockIff(s, s', CleanVersion(x.clean), x.clean.Some?, i);
    } else {
      SteadyDisciplined(s, s', x.clean.Some?);
    }
  }

  lemma CompletedMoves(x: Obj, i: nat, durable: bool)
    requires ObjOk(x) && i < |x.stack| && CanComplete(x, i, durable)
    ensures Moved(x.stack, AfterWrite(x, i, durable), 0)
  {
    hide StackOk;
    var s, s' := AfterAck(x, i, durable), AfterWrite(x, i, durable);
    forall k | 0 <= k < |s| ensures Advances(x.stack[k], s[k]) { }
    forall k | 0 <= k < |s| ensures Advances(x.stack[k], s'[k]) { }
  }

  lemma AckedEntry(x: Obj, i: nat, durable: bool)
    requires i < |x.stack| && CanComplete(x, i, durable)
    ensures var d := AfterAck(x, i, durable)[i];
            d.kind == x.stack[i].kind && !Blocked(d.state) && (IsSynced(d.state) <==> durable)
  {
  }

  lemma StabilizedSteady(x: Obj, version: nat, s': seq<Dirty>)
    requires ObjOk(x) && Ripe(x, version)
    requires var i := IndexOf(x.stack, version);
             s' == if i == -1 || Waits(x, i) then x.stack
                   else Stabilized(x.stack, 0, if x.stack[i].IsInstant() then Forward(x.stack, i) else i)
    ensures AllSteady(x.stack, s') && forall k :: 0 <= k < |s'| ==> Advances(x.stack[k], s'[k])
  {
    hide StackOk;
    var i := IndexOf(x.stack, version);
    forall k | 0 <= k < |s'| ensures Steady(x.stack[k], s'[k]) {
      if k <= i && !x.stack[i].IsInstant() { AllSyncedBelow(x, i, k); }
    }
  }

  lemma FlushedMoves(s: seq<Dirty>, n: nat)
    requires n <= |s|
    ensures Moved(s, s[n..], n) && Moved(s, AfterDelete(s[n..]), n)
  {
  }

  lemma FlushedDisciplined(x: Obj, n: nat)
    requires ObjOk(x) && Disciplined(x.stack, x.clean.Some?) && 0 < n <= |x.stack|
    requires forall i :: 0 <= i < n ==> x.stack[i].state == Stable
    ensures var s, clean := x.stack[n..], NewClean(x.stack[..n], x.clean).Some?;
            Disciplined(s, clean) && Disciplined(AfterDelete(s), clean)
  {
    hide Disciplined, StackOk;
    DisciplinedSuffix(x.stack, x.clean.Some?, n);
    GroundedLoc(x.stack[..n], x.clean);
    AfterDeleteDisciplined(x.stack[n..], NewClean(x.stack[..n], x.clean).Some?);
  }

  lemma {:induction false} GroundedLoc(p: seq<Dirty>, clean: Option<CleanRef>)
    ensures Grounded(p, clean.Some?) <==> LocAfter(p, clean).Some?
    decreases |p|
  {
    if p != [] { GroundedLoc(Front(p), clean); }
  }

  lemma IndexAt(x: Obj, i: nat)
    requires ObjOk(x) && i < |x.stack|
    ensures IndexOf(x.stack, x.stack[i].version) == i
  {
    var j := IndexOf(x.stack, x.stack[i].version);
    StableBelow(x.stack, CleanVersion(x.clean), x.clean.Some?, if j < i then j else i, if j < i then i else j);
  }

  function SetAt(x: Obj, version: nat, d: Dirty): Obj {
    var i := IndexOf(x.stack, version);
    if i >= 0 then x.(stack := x.stack[i := d]) else x
  }

  lemma InOrder(x: Obj, i: nat)
    requires ObjOk(x) && i < |x.stack|
    ensures EntryOk(x.stack[i])
  {
    StableBelow(x.stack, CleanVersion(x.clean), x.clean.Some?, i, i);
  }

  /** From entry `i`, which has the version, downwards the first entry that is not just synced is `j`. */
  predicate Decides(s: seq<Dirty>, version: nat, i: nat, j: nat) {
    && j <= i < |s| && s[i].version == version && s[j].state != Synced
    && forall k :: j < k <= i ==> s[k].state == Synced
  }

  lemma OnlyIndex(x: Obj, i: nat)
    requires ObjOk(x) && i < |x.stack|
    ensures forall k :: 0 <= k < |x.stack| && x.stack[k].version == x.stack[i].version ==> k == i
  {
    hide StackOk;
    forall k | 0 <= k < |x.stack| && x.stack[k].version == x.stack[i].version ensures k == i {
      IndexAt(x, k);
      IndexAt(x, i);
    }
  }

  lemma SyncedNext(s: seq<Dirty>, j: nat)
    requires j < |s|
    ensures IsSynced(s[j].state) && (s[j].state == Stable || j == 0) ==> AllSynced(s, j)
    ensures j > 0 && IsSynced(s[j].state) && AllSynced(s, j - 1) ==> AllSynced(s, j)
  {
  }

  /** The check of a stabilize request. */
  method StableVerdict(x: Obj, version: nat) returns (v: Verdict)
    requires ObjOk(x)
    ensures v.Todo? ==> IndexOf(x.stack, version) >= 0 && x.stack[IndexOf(x.stack, version)].state == Synced
                        && AllSynced(x.stack, IndexOf(x.stack, version)) && Ripe(x, version)
    ensures v.NotFound? <==> IndexOf(x.stack, version) == -1 && (x.clean.None? || x.clean.value.version < version)
    ensures v.Done? <==> if IndexOf(x.stack, version) == -1 then x.clean.Some? && x.clean.value.version >= version
                         else x.stack[IndexOf(x.stack, version)].state == Stable
    ensures forall i: nat, j: nat :: Decides(x.stack, version, i, j) ==>
              v == match x.stack[j].state
                   case Stable => (if j == i then Done else Todo)
                   case Written => Sync
                   case _ => Wait
    ensures (exists i :: 0 <= i < |x.stack| && x.stack[i].version == version
               && forall k :: 0 <= k <= i ==> x.stack[k].state == Synced) ==> v == Todo
  {
    hide AllSynced, StackOk, IndexOf;
    var i := IndexOf(x.stack, version);
    if i == -1 {
      return if x.clean.None? || x.clean.value.version < version then Verdict.NotFound else Done;
    }
    OnlyIndex(x, i);
    if x.stack[i].state == Stable {
      return Done;
    }
    var j: nat := i;
    while true
      invariant j <= i && (AllSynced(x.stack, j) ==> AllSynced(x.stack, i))
      invariant forall k :: j < k <= i ==> x.stack[k].state == Synced
      decreases j
    {
      SyncedNext(x.stack, j);
      if IsInFlight(x.stack[j].state) {
        return Wait;
      } else if !IsSynced(x.stack[j].state) {
        return Sync;
      } else if x.stack[j].state == Stable || j == 0 {
        return Todo;
      }
      j := j - 1;
    }
  }

  lemma StackWithin(db: map<nat, Obj>, c: Counters, o: nat)
    requires Tied(db, c)
    ensures Accounted(ObjOf(db, o).stack, c)
  {
    hide InStack, Reading;
    TiedHas(db, c, o);
    forall t ensures InStack(ObjOf(db, o).stack, t) <= Reading(c, t) {
      assert InObject(ObjOf(db, o), t) <= Reading(c, t);
    }
  }

  /** The blocks are freed and the entries erased; then writes that waited for a delete go on. */
  method Flushed(x: Obj, c: Counters, n: nat) returns (x': Obj, c': Counters)
    requires ObjOk(x) && 0 < n <= |x.stack| && (forall i :: 0 <= i < n ==> x.stack[i].state == Stable)
    requires forall t :: InObject(x, t) <= Reading(c, t)
    ensures ObjOk(x') && Follow(x, c, x', c') && c'.present == c.present
    ensures Settles(x, n, x'.clean) && Frees(x, n, x'.clean, c.alloc, c'.alloc)
    ensures x' == Obj(if x.stack[n - 1].kind == Delete then AfterDelete(x.stack[n..]) else x.stack[n..],
                      NewClean(x.stack[..n], x.clean))
  {
    hide StackOk, InStack, ExistsStable, Follow, Erased, LocAfter, Accounted, Reading, InObject, Settles, Frees;
    var p := x.stack[..n];
    FlushedFollows(x, c, n);
    var c1 := if x.clean.Some? && LocAfter(p, x.clean) != Some(x.clean.value.location)
              then c.(alloc := c.alloc - {x.clean.value.location}) else c;
    c' := EraseDirty(c1, p, StayingLoc(p, x.clean));
    ErasedPresent(c1, p, StayingLoc(p, x.clean));
    x' := Obj(x.stack[n..], NewClean(p, x.clean));
    FlushSettles(x, n);
    FlushFrees(x, c, n, c');
    if Last(p).kind == Delete {
      ghost var y := x';
      var r := UnblockAfterDelete(x'.stack);
      AfterDeleteIdle(x'.stack);
      IdleFollows(x', r, c');
      x' := x'.(stack := r);
      FollowTrans(x, c, y, c', x', c');
    }
  }

  lemma {:induction false} ErasedPresent(c: Counters, s: seq<Dirty>, cleanLoc: Option<int>)
    ensures Erased(c, s, cleanLoc).present == c.present
    decreases |s|
  {
    if s != [] { ErasedPresent(EraseOne(c, s[|s| - 1], cleanLoc), s[..|s| - 1], cleanLoc); }
  }

  // ----- what exact counters mean

  lemma {:induction false} TotalZero(db: map<nat, Obj>, t: Token)
    requires forall k :: k in db ==> InObject(db[k], t) == 0
    ensures Total(db, t) == 0
    decreases |db|
  {
    hide InObject;
    if db != map[] {
      var k :| k in db;
      TotalPick(db, k, t);
      TotalZero(db - {k}, t);
    }
  }

  /** A block is allocated exactly when some object owns it, as its clean block or by a submitted big
      write, and then only one object does, once. */
  lemma BlockOwnership(db: map<nat, Obj>, c: Counters, b: int)
    requires Tied(db, c)
    ensures b in c.alloc <==> exists k :: k in db && InObject(db[k], Block(b)) > 0
    ensures forall k :: k in db ==> InObject(db[k], Block(b)) <= 1
    ensures forall j, k :: j in db && k in db && InObject(db[j], Block(b)) > 0 && InObject(db[k], Block(b)) > 0 ==>
      j == k
  {
    hide InObject;
    var t := Block(b);
    assert Total(db, t) == Reading(c, t);
    if forall k :: k in db ==> InObject(db[k], t) == 0 { TotalZero(db, t); }
    forall k | k in db ensures InObject(db[k], t) <= Total(db, t) { TotalPick(db, k, t); }
    forall j, k | j in db && k in db && InObject(db[j], t) > 0 && InObject(db[k], t) > 0 ensures j == k {
      if j != k {
        TotalPick(db, j, t);
        TotalPick(db - {j}, k, t);
      }
    }
  }

  ghost function Existing(db: map<nat, Obj>): set<nat> {
    set k | k in db && ExistsStable(db[k].stack, db[k].clean.Some?)
  }

  lemma NoPresentEntries(s: seq<Dirty>)
    ensures InStack(s, Present) == 0
  {
  }

  /** The number of used blocks is the number of objects whose newest stable state exists. */
  lemma {:induction false} UsedBlocksCount(db: map<nat, Obj>)
    ensures Total(db, Present) == |Existing(db)|
    decreases |db|
  {
    hide ExistsStable, InStack;
    if db == map[] {
      assert Existing(db) == {};
    } else {
      var k :| k in db;
      TotalPick(db, k, Present);
      NoPresentEntries(db[k].stack);
      UsedBlocksCount(db - {k});
      assert Existing(db) - {k} == Existing(db - {k});
      assert k in Existing(db) ==> Existing(db) == Existing(db - {k}) + {k};
    }
  }
}
