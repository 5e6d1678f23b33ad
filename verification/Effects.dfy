/** What the operations of the store do to the entries of an object, told by the states, kinds and numbers of the
    entries alone: which entry a request becomes, what a finished write changes and which entries a stabilize
    request reaches. */
module Effects {
  import opened Basics
  import opened Versions
  import opened Counters
  import opened Stability
  import opened Waiting
  import opened Store

  // ----- a new entry

  /** The number is above every version of the object. */
  predicate Above(x: Obj, v: nat) {
    && v > 0 && (x.clean.Some? ==> x.clean.value.version < v)
    && forall i :: 0 <= i < |x.stack| ==> x.stack[i].version < v
  }

  lemma AboveNewest(x: Obj, v: nat)
    requires ObjOk(x)
    ensures Above(x, v) <==> v > Newest(x)
  {
    hide StackOk;
    var s, lo := x.stack, CleanVersion(x.clean);
    if s != [] {
      forall i | 0 <= i < |s| ensures lo < s[i].version <= Last(s).version {
        StableBelow(s, lo, x.clean.Some?, i, i);
        StableBelow(s, lo, x.clean.Some?, i, |s| - 1);
      }
      assert s[|s| - 1] == Last(s);
    }
  }

  /** A requested number that is above all versions is taken. Otherwise the entry gets the least number that is,
      and remembers the one that was requested. */
  lemma EnqueuedNumber(x: Obj, requested: nat)
    requires ObjOk(x)
    ensures var r := NumberOf(x, requested);
            && Above(x, r.version)
            && (Above(x, requested) ==> r == Added(requested, 0))
            && (!Above(x, requested) ==> r.own == requested && forall v: nat :: Above(x, v) ==> r.version <= v)
  {
    hide StackOk, Above;
    AboveNewest(x, requested);
    AboveNewest(x, NumberOf(x, requested).version);
    forall v: nat | Above(x, v) ensures v > Newest(x) { AboveNewest(x, v); }
  }

  /** The object exists exactly if the last big write has only small ones above it, or if there are only small ones
      and a clean copy. */
  lemma {:induction false} Footing(s: seq<Dirty>, lo: nat, clean: bool)
    requires StackOk(s, lo, clean)
    ensures Exists(s, clean) <==>
            (exists b: nat :: LastBig(s, |s|, b)) || (clean && forall i :: 0 <= i < |s| ==> s[i].kind == SmallWrite)
    decreases |s|
  {
    if s != [] {
      var t := Front(s);
      if Last(s).kind == SmallWrite {
        Footing(t, lo, clean);
        if b: nat :| LastBig(t, |t|, b) {
          assert LastBig(s, |s|, b);
        }
      } else if Last(s).kind == BigWrite {
        assert LastBig(s, |s|, |s| - 1);
      }
    }
  }

  /** A write is a small one exactly if it does not cover the whole block and there is something under it. */
  lemma EnqueuedKind(x: Obj, isDelete: bool, whole: bool)
    requires ObjOk(x)
    ensures var small := (exists b: nat :: LastBig(x.stack, |x.stack|, b))
                         || (x.clean.Some? && forall i :: 0 <= i < |x.stack| ==> x.stack[i].kind == SmallWrite);
            KindOf(x, isDelete, whole) ==
            if isDelete then Delete else if whole || !small then BigWrite else SmallWrite
  {
    hide StackOk;
    Footing(x.stack, CleanVersion(x.clean), x.clean.Some?);
  }

  /** What a small write over the last big write rests on. */
  lemma {:induction false} RestsOnLast(s: seq<Dirty>, clean: bool, b: nat)
    requires LastBig(s, |s|, b)
    ensures Rests(s, clean) == IsSynced(s[b].state)
    decreases |s|
  {
    if b < |s| - 1 { RestsOnLast(Front(s), clean, b); }
  }

  /** The big write under a new small one is not durable yet. */
  predicate Unfinished(s: seq<Dirty>, b: nat) { LastBig(s, |s|, b) && s[b].state !in {Synced, Stable} }

  /** A write that is numbered below a delete, or comes after one that waits for a delete, waits for it. A small
      write waits for the last big one while that is not durable. Everything else starts at once. */
  lemma EnqueuedState(x: Obj, kind: Kind, requested: nat)
    requires ObjOk(x) && Disciplined(x.stack, x.clean.Some?) && (kind == SmallWrite ==> Exists(x.stack, x.clean.Some?))
    ensures var behind := x.stack != [] && Last(x.stack).state == WaitDel;
            var low := requested > 0 && !Above(x, requested);
            StateOf(x, kind, requested) ==
            if kind == Delete then InFlight
            else if low || behind then WaitDel
            else if kind == SmallWrite && exists b: nat :: Unfinished(x.stack, b) then WaitBig
            else InFlight
  {
    hide StackOk, Above;
    var s, clean := x.stack, x.clean.Some?;
    AboveNewest(x, requested);
    if kind == SmallWrite && s != [] && Last(s).state != WaitDel {
      assert HoldsUp(Last(s)) <==> !Rests(s, clean);
      if !Rests(s, clean) {
        assert s[..|s|] == s;
        var g := RestsNot(s, CleanVersion(x.clean), clean, |s|);
        assert Unfinished(s, g);
      } else if b: nat :| Unfinished(s, b) {
        RestsOnLast(s, clean, b);
        assert false;
      }
    }
  }

  /** A write is refused, as its number is taken, exactly if some version has at least that number, the object was
      written before, and the newest entry is neither a delete nor waits for one. */
  lemma RefusedIff(x: Obj, requested: nat)
    requires ObjOk(x)
    ensures Low(x, requested) && !OverDelete(x) <==>
            && requested > 0 && !Above(x, requested) && (x.stack != [] || x.clean.Some?)
            && (x.stack != [] ==> Last(x.stack).kind != Delete && Last(x.stack).state != WaitDel)
  {
    hide StackOk, Above;
    AboveNewest(x, requested);
  }

  // ----- a finished write

  /** Everything below the entry is stable. */
  predicate OnStable(s: seq<Dirty>, i: nat) { forall j :: 0 <= j < i && j < |s| ==> s[j].state == Stable }

  /** Above the entry everything up to `k` is durable. */
  predicate DurableTo(s: seq<Dirty>, i: nat, k: nat) {
    forall j :: i < j <= k && j < |s| ==> s[j].state in {Synced, Stable}
  }

  /** The state of entry `k` after the end of the write `i`. */
  function StateAfter(s: seq<Dirty>, i: nat, durable: bool, k: nat): State
    requires i < |s| && k < |s|
  {
    var stable := durable && s[i].IsInstant() && OnStable(s, i);
    if k == i then (if !durable then Written else if stable then Stable else Synced)
    else if k > i && stable && DurableTo(s, i, k) then Stable
    else if k > i && durable && s[i].kind == BigWrite && s[k].state == WaitBig then InFlight
    else s[k].state
  }

  lemma DurableForward(s: seq<Dirty>, i: nat, k: nat)
    requires i < k < |s|
    ensures DurableTo(s, i, k) <==> k <= Forward(s, i)
  {
    var f := Forward(s, i);
    assert k > f ==> s[f + 1].state !in {Synced, Stable};
  }

  /** A finished write is written, synced or, if it is instant and everything below is stable, stable; then the
      durable entries right above it become stable with it. A durable big write starts the small ones that wait
      above it. Nothing else changes in any entry. */
  lemma CompletedAs(x: Obj, i: nat, durable: bool, k: nat)
    requires i < |x.stack| && k < |x.stack| && CanComplete(x, i, durable)
    ensures AfterWrite(x, i, durable)[k] == x.stack[k].(state := StateAfter(x.stack, i, durable, k))
  {
    hide Forward, DurableTo, OnStable, Rank;
    var s := x.stack[i := x.stack[i].(state := if durable then Synced else Written)];
    if k > i {
      DurableForward(s, i, k);
      DurableSame(x.stack, s, i, k);
    }
    WaitsIff(x, i);
  }

  lemma DurableSame(s: seq<Dirty>, s': seq<Dirty>, i: nat, k: nat)
    requires |s'| == |s| && forall j :: i < j < |s| ==> s'[j] == s[j]
    ensures DurableTo(s, i, k) <==> DurableTo(s', i, k)
  {
  }

  lemma WaitsIff(x: Obj, i: nat)
    requires i < |x.stack|
    ensures Waits(x, i) <==> x.stack[i].IsInstant() && !OnStable(x.stack, i)
    ensures OnStable(x.stack, i) ==> forall k :: 0 <= k < i ==> x.stack[k].state == Stable
  {
  }

  // ----- the counters

  /** An entry that a counter counts: one that refers to the sector, one that owns the block, or a stable one that
      frees a block when it is flushed. */
  predicate Bears(d: Dirty, t: Token) {
    match t
    case Sector(n) => n > 0 && d.sector == n
    case Block(b) => d.kind == BigWrite && d.state in {Submitted, Written, Synced, Stable} && d.location == b
    case ToFlush => d.state == Stable && d.kind in {BigWrite, Delete}
    case Present => false
  }

  ghost function Bearing(s: seq<Dirty>, t: Token): set<nat> { set i: nat | i < |s| && Bears(s[i], t) }

  lemma {:induction false} BearingCount(s: seq<Dirty>, t: Token)
    ensures InStack(s, t) == |Bearing(s, t)|
  {
    hide Bears;
    if s == [] {
      assert Bearing(s, t) == {};
    } else {
      hide Bearing, InEntry;
      var n: nat := |s| - 1;
      BearingCount(s[..n], t);
      BearsOne(s[n], t);
      BearingNext(s, n, t);
    }
  }

  lemma BearingNext(s: seq<Dirty>, n: nat, t: Token)
    requires n + 1 == |s|
    ensures n !in Bearing(s[..n], t)
    ensures Bearing(s, t) == Bearing(s[..n], t) + if Bears(s[n], t) then {n} else {}
  {
    hide Bears;
  }

  lemma BearsOne(d: Dirty, t: Token)
    ensures InEntry(d, t) == if Bears(d, t) then 1 else 0
  {
  }

  /** The entries of all objects that a counter counts, as pairs of object and place. */
  ghost function Bearers(db: map<nat, Obj>, t: Token): set<(nat, nat)> {
    set k, i: nat | k in db && i < |db[k].stack| && Bears(db[k].stack[i], t) :: (k, i)
  }

  ghost function Pairs(k: nat, s: set<nat>): set<(nat, nat)> { set i | i in s :: (k, i) }

  lemma {:induction false} PairsSize(k: nat, s: set<nat>)
    ensures |Pairs(k, s)| == |s|
    decreases s
  {
    if s == {} {
      assert Pairs(k, s) == {};
    } else {
      var i :| i in s;
      var rest := s - {i};
      PairsSize(k, rest);
      assert (k, i) !in Pairs(k, rest);
      assert Pairs(k, s) == Pairs(k, rest) + {(k, i)};
    }
  }

  lemma BearersSplit(db: map<nat, Obj>, k: nat, t: Token)
    requires k in db
    ensures Bearers(db, t) == Bearers(db - {k}, t) + Pairs(k, Bearing(db[k].stack, t))
    ensures Bearers(db - {k}, t) !! Pairs(k, Bearing(db[k].stack, t))
  {
    hide Bears;
    var rest, own := db - {k}, Bearing(db[k].stack, t);
    forall p ensures p in Bearers(db, t) <==> p in Bearers(rest, t) || p in Pairs(k, own) {
      var (j, i) := p;
      if j == k { assert p in Pairs(k, own) <==> i in own; }
    }
  }

  lemma {:induction false} BearersCount(db: map<nat, Obj>, t: Token)
    requires t.Sector? || t.ToFlush?
    ensures Total(db, t) == |Bearers(db, t)|
    decreases |db|
  {
    hide InStack, Bears, Bearers, Bearing, Pairs;
    if db == map[] {
      assert Bearers(db, t) == {} by { NoBearers(t); }
    } else {
      var k :| k in db;
      TotalPick(db, k, t);
      BearersCount(db - {k}, t);
      BearingCount(db[k].stack, t);
      PairsSize(k, Bearing(db[k].stack, t));
      BearersSplit(db, k, t);
    }
  }

  lemma NoBearers(t: Token)
    ensures Bearers(map[], t) == {}
  {
  }

  /** The object owns the block, as its clean copy or by a submitted big write. */
  predicate Keeps(x: Obj, b: int) {
    (x.clean.Some? && x.clean.value.location == b) || exists i :: 0 <= i < |x.stack| && Bears(x.stack[i], Block(b))
  }

  lemma KeepsIff(x: Obj, b: int)
    ensures Keeps(x, b) <==> InObject(x, Block(b)) > 0
  {
    hide InStack, Bears;
    BearingCount(x.stack, Block(b));
    var own := Bearing(x.stack, Block(b));
    if i :| 0 <= i < |x.stack| && Bears(x.stack[i], Block(b)) {
      assert i in own;
    }
    if own != {} {
      var i :| i in own;
      assert Bears(x.stack[i], Block(b));
    }
  }

  /** The newest stable state of the object exists: the last stable entry is no delete, or there is a clean copy and
      no stable entry. */
  predicate Stands(x: Obj) {
    || (exists i :: 0 <= i < |x.stack| && LastStable(x.stack, i) && x.stack[i].kind != Delete)
    || (x.clean.Some? && forall i :: 0 <= i < |x.stack| ==> x.stack[i].state != Stable)
  }

  predicate LastStable(s: seq<Dirty>, i: nat) {
    i < |s| && s[i].state == Stable && forall j :: i < j < |s| ==> s[j].state != Stable
  }

  lemma {:induction false} StandsIff(s: seq<Dirty>, clean: Option<CleanRef>)
    ensures Stands(Obj(s, clean)) <==> ExistsStable(s, clean.Some?)
    decreases |s|
  {
    if s != [] {
      StandsIff(s[..|s| - 1], clean);
      StandsNext(s, clean);
    }
  }

  lemma StandsNext(s: seq<Dirty>, clean: Option<CleanRef>)
    requires s != []
    ensures var d := s[|s| - 1];
            Stands(Obj(s, clean)) <==> if d.state == Stable then d.kind != Delete else Stands(Obj(s[..|s| - 1], clean))
  {
    hide LastStable;
    var n, t := |s| - 1, s[..|s| - 1];
    if s[n].state == Stable {
      LastStableNext(s, n);
      forall i: nat | i < |s| && LastStable(s, i) ensures i == n { LastStableNext(s, i); }
    } else {
      forall i: nat | i < |s| && LastStable(s, i) ensures i < n && LastStable(t, i) { LastStableNext(s, i); }
      forall i: nat | i < n && LastStable(t, i) ensures LastStable(s, i) { LastStableNext(s, i); }
      NoneStable(s, t);
    }
  }

  lemma NoneStable(s: seq<Dirty>, t: seq<Dirty>)
    requires s != [] && s[|s| - 1].state != Stable && t == s[..|s| - 1]
    ensures (forall i :: 0 <= i < |s| ==> s[i].state != Stable) <==> forall i :: 0 <= i < |t| ==> t[i].state != Stable
  {
    assert forall i :: 0 <= i < |t| ==> t[i] == s[i];
  }

  lemma LastStableNext(s: seq<Dirty>, i: nat)
    requires i < |s|
    ensures var n := |s| - 1;
            LastStable(s, i) <==> if s[n].state == Stable then i == n else i < n && LastStable(s[..n], i)
  {
  }

  /** What the exact counters of the store mean: a sector is referred to as often as its count says, the flush counter
      is the number of stable big writes and deletes, a block is allocated exactly if some object owns it and then only
      one does, and the used blocks are the objects that exist in their newest stable state. */
  lemma CountersAre(db: map<nat, Obj>, c: Counters)
    requires Tied(db, c)
    ensures forall n :: n > 0 ==> c.used[n] == |Bearers(db, Sector(n))|
    ensures c.toFlush == |Bearers(db, ToFlush)|
    ensures forall b :: b in c.alloc <==> exists k :: k in db && Keeps(db[k], b)
    ensures forall b, j, k :: j in db && k in db && Keeps(db[j], b) && Keeps(db[k], b) ==> j == k
    ensures c.present == |set k | k in db && Stands(db[k])|
  {
    hide InStack, Bears, InObject, Keeps, Stands;
    forall n | n > 0 ensures c.used[n] == |Bearers(db, Sector(n))| {
      BearersCount(db, Sector(n));
      assert Total(db, Sector(n)) == Reading(c, Sector(n));
    }
    BearersCount(db, ToFlush);
    assert Total(db, ToFlush) == Reading(c, ToFlush);
    forall b ensures b in c.alloc <==> exists k :: k in db && Keeps(db[k], b) {
      BlockOwnership(db, c, b);
      forall k | k in db ensures Keeps(db[k], b) <==> InObject(db[k], Block(b)) > 0 { KeepsIff(db[k], b); }
    }
    forall b, j, k | j in db && k in db && Keeps(db[j], b) && Keeps(db[k], b) ensures j == k {
      BlockOwnership(db, c, b);
      KeepsIff(db[j], b);
      KeepsIff(db[k], b);
    }
    UsedBlocksCount(db);
    assert Total(db, Present) == Reading(c, Present);
    forall k | k in db ensures Stands(db[k]) <==> ExistsStable(db[k].stack, db[k].clean.Some?) {
      StandsIff(db[k].stack, db[k].clean);
      assert db[k] == Obj(db[k].stack, db[k].clean);
    }
    assert Existing(db) == set k | k in db && Stands(db[k]);
  }
}
