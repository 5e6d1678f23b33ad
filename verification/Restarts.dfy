/** Which states come back after a restart, and when a rollback after it undoes a delete. */
module Restarts {
  import opened Basics
  import opened Overlay
  import opened Versions
  import opened Flush
  import opened Replayed
  import opened Mirror
  import opened Marking
  import opened Placing
  import opened States
  import opened Tracking
  import opened Recovery
  import opened Runs

  // ----- runs in which the states can be told

  /** No plain write comes below what the journal has made stable, and no stabilization of a delete is
      requested. */
  predicate TidyStep(o: Object, step: Step) {
    match step
    case Write(d, inst) => Renews(o, d) || Tidy(o.s, d, inst)
    case Stabilize(i) => i < |o.s| && o.s[i].d.kind != Delete
    case _ => true
  }

  lemma WriteGrounds(dev: Devices, size: nat, o: Object, d: Dirty)
    requires Inv(dev, size, o) && HasPlace(o.s, d.version) && Free(o.s, Reach(o), d.version) && d.kind != Delete
    requires d.kind == SmallWrite ==> Over(o, d.version)
    ensures Grounds(o.s, d)
  {
    hide Mirrors, Placed, PhaseOk, Inv, Free, HasPlace, Place, Reach, Over;
    var p := Place(o.s, d.version);
    if d.kind == SmallWrite && p > 0 {
      CoreRoom(dev, size, o);
      OverWrite(o, d.version);
      if p == o.m { GapBelow(dev, size, o, d.version); }
    }
  }

  lemma CoreRoom(dev: Devices, size: nat, o: Object)
    requires Inv(dev, size, o)
    ensures o.m <= |o.s|
  {
  }

  /** Right below a small write is a write. */
  lemma OverWrite(o: Object, version: nat)
    requires o.m <= |o.s| && Over(o, version)
    ensures var p := Place(o.s, version);
            o.m <= p && if p == o.m then o.clean.Some? else o.s[p - 1].d.kind != Delete
  {
    hide Place;
    var p := Place(o.s, version);
    if p > o.m { assert Dirties(o.s[o.m..p])[p - o.m - 1] == o.s[p - 1].d; }
  }

  lemma GapBelow(dev: Devices, size: nat, o: Object, version: nat)
    requires Inv(dev, size, o) && Free(o.s, Reach(o), version) && Place(o.s, version) == o.m > 0 && o.clean.Some?
    ensures o.s[o.m - 1].d.kind != Delete
  {
    hide Mirrors, Placed, PhaseOk;
    if !Adjacent(o.s, o.m, o.clean) { GapHides(o.s, o.m, o.clean); }
  }

  lemma NotDeleted(dev: Devices, size: nat, o: Object)
    requires Core(dev, size, o) && Exists(o.Memory(), o.clean.Some?) && o.s != []
    ensures Last(o.s).d.kind != Delete
  {
    hide Mirrors, Placed;
    if o.m < |o.s| { assert o.Memory()[|o.s| - o.m - 1] == Last(o.s).d; }
  }

  lemma WriteTracked(dev: Devices, size: nat, o: Object, d: Dirty, inst: bool)
    requires Inv(dev, size, o) && Tracked(o.log, o.s) && Admissible(dev, size, o, d) && d.kind != Delete
    requires d.version in o.pend && (d.kind == SmallWrite ==> Over(o, d.version))
    requires Gone(o) && !Renews(o, d) ==> forall p :: p in o.pend ==> OnTop(o.s, p)
    requires TidyStep(o, Write(d, inst))
    ensures var o' := Journaled(o, d, inst); Tracked(o'.log, o'.s)
  {
    hide Placed, Joined, PhaseOk, PendOk, Insert, Regular, Traces, Rebuilds, Ordered, Tidy, Carries, Tracks;
    AdmissibleFresh(dev, size, o, d);
    if Renews(o, d) {
      assert d.kind == BigWrite by { GoneBig(dev, size, o, d); }
      GoneDeleted(dev, size, o);
      RenewCarries(o.s, d, inst, |o.log|);
      RenewTracks(o.s, d, inst, |o.log|);
      CarriesOrdered(WriteEntry(d, inst), o.s, Insert([], d, inst, |o.log|), |o.log|);
      TrackedSnoc(o.log, o.s, WriteEntry(d, inst), Insert([], d, inst, |o.log|));
    } else {
      WriteReady(dev, size, o, d);
      WriteGrounds(dev, size, o, d);
      InsertOrdered(o.s, d, inst, |o.log|);
      WriteTracks(o.s, d, inst, |o.log|);
      TrackedSnoc(o.log, o.s, WriteEntry(d, inst), Insert(o.s, d, inst, |o.log|));
    }
  }

  lemma CarriesOrdered(e: Entry, s: seq<Ver>, s': seq<Ver>, n: nat)
    requires Carries(e, s, s', n)
    ensures Ordered(s', n + 1)
  {
  }

  lemma GoneBig(dev: Devices, size: nat, o: Object, d: Dirty)
    requires Gone(o) && d.kind != Delete && (d.kind == SmallWrite ==> Over(o, d.version))
    ensures d.kind == BigWrite
  {
    assert o.m == Place(o.s, d.version) ==> o.s[o.m..Place(o.s, d.version)] == [];
  }

  lemma GoneDeleted(dev: Devices, size: nat, o: Object)
    requires Core(dev, size, o) && Gone(o) && o.s != []
    ensures Last(o.s).d.kind == Delete
  {
  }

  lemma StepTracked(dev: Devices, size: nat, o: Object, step: Step, dev': Devices, o': Object)
    requires Inv(dev, size, o) && Next(dev, size, o, step, dev', o') && Tracked(o.log, o.s) && TidyStep(o, step)
    ensures Tracked(o'.log, o'.s)
  {
    hide Inv, Tracked, Carries, Tracks, Insert, WithDelete, StabilizedAt, Raise, Dropped, MayDrop, Admissible;
    match step {
      case Write(d, inst) => WriteTracked(dev, size, o, d, inst);
      case Remove(d) => RemoveTracked(dev, size, o, d);
      case Stabilize(i) => StabilizeTracked(dev, size, o, i);
      case TakeAlong(i) => TrackedRaised(o.log, o.s, o.s[i].d.version);
      case Rollback(version) => RollbackTracked(dev, size, o, version);
      case _ =>
    }
  }

  lemma RemoveTracked(dev: Devices, size: nat, o: Object, d: Dirty)
    requires Inv(dev, size, o) && Tracked(o.log, o.s) && Admissible(dev, size, o, d) && d.kind == Delete
    requires OnTop(o.s, d.version) && Exists(o.Memory(), o.clean.Some?)
    ensures Tracked(o.log + [JDelete(d)], WithDelete(o.s, d, |o.log|))
  {
    hide Placed, Joined, PhaseOk, PendOk, WithDelete, Regular, Traces, Rebuilds, Ordered, Tracks;
    AdmissibleFresh(dev, size, o, d);
    if o.s != [] { NotDeleted(dev, size, o); }
    DeleteOrdered(o.s, d, |o.log|);
    DeleteTracks(o.s, d, |o.log|);
    TrackedSnoc(o.log, o.s, JDelete(d), WithDelete(o.s, d, |o.log|));
  }

  lemma StabilizeTracked(dev: Devices, size: nat, o: Object, i: nat)
    requires Inv(dev, size, o) && Tracked(o.log, o.s) && i < |o.s| && o.s[i].d.kind != Delete
    ensures Tracked(StabilizedOf(o, i).log, StabilizedOf(o, i).s)
  {
    hide Placed, Joined, PhaseOk, PendOk, StabilizedAt, Regular, Traces, Rebuilds, Ordered, Tracks;
    StabilizedOrdered(o.s, i, |o.log|);
    StabilizeTracks(o.s, i, |o.log|);
    TrackedSnoc(o.log, o.s, JStable(o.s[i].d.version), StabilizedAt(o.s, i));
  }

  lemma RollbackTracked(dev: Devices, size: nat, o: Object, version: nat)
    requires Inv(dev, size, o) && Tracked(o.log, o.s) && MayDrop(o.s, version)
    ensures Tracked(RolledBackTo(o, version).log, RolledBackTo(o, version).s)
  {
    hide Placed, Joined, PhaseOk, PendOk, Dropped, Regular, Traces, Rebuilds, Ordered, Tracks, MayDrop;
    DroppedShape(o.s, version, |o.log|);
    OrderedLater(Dropped(o.s, version), |o.log|, |o.log| + 1);
    RollbackTracks(o.s, version, |o.log|);
    TrackedSnoc(o.log, o.s, JRollback(version), Dropped(o.s, version));
  }

  /** In every such run the states of every replay are known. */
  lemma {:induction false} RunTracked(size: nat, ms: seq<Moment>, steps: seq<Step>, i: nat)
    requires Run(size, ms, steps) && i < |ms| && forall j :: 0 <= j < i ==> TidyStep(ms[j].o, steps[j])
    ensures Tracked(ms[i].o.log, ms[i].o.s)
  {
    hide Tracked, Inv, Next;
    if i == 0 {
      TrackedEmpty();
    } else {
      RunTracked(size, ms, steps, i - 1);
      RunKeepsInv(size, ms, steps, i - 1);
      StepTracked(ms[i - 1].dev, size, ms[i - 1].o, steps[i - 1], ms[i].dev, ms[i].o);
    }
  }

  // ----- the states after a restart

  /** Every version that was in `dirty_db` and comes back has the state that the journal gave it. */
  ghost predicate StatesBack(o: Object)
    requires o.t <= |o.log|
  {
    forall m, i :: 0 <= m < |Reloaded(o)| && Floor(o) <= i < |o.s| && Reloaded(o)[m].version == o.s[i].d.version ==>
      (Reloaded(o)[m].state == Stable <==> JournalStable(o.s[i]))
  }

  /** The last delete is over a version whose entry is still in the journal and newer than the metadata
      entry, while the versions by whose stabilization it became stable are trimmed, or there are none. */
  ghost predicate Stray(o: Object, q: nat) {
    && Floor(o) <= q && IsTop(o.s, q) && OnDisk(o).Some?
    && (forall i :: q < i < |o.s| ==> o.s[i].mark == 0)
    && !Calm(o.s, q, o.t, VersionIn(OnDisk(o)))
  }

  /** What was in `dirty_db` is replayed. */
  lemma FloorHere(dev: Devices, size: nat, o: Object, i: nat)
    requires Inv(dev, size, o) && Floor(o) <= i < |o.s|
    ensures Here(o.s[i], o.t, VersionIn(OnDisk(o)))
  {
    hide Placed, Mirrors, Joined;
    CoreParts(dev, size, o);
    CoreJoined(dev, size, o);
    if o.phase.Committed? {
      if o.phase.n - 1 < i { OrderedPair(o.s, |o.log|, o.phase.n - 1, i); }
    } else if OnDisk(o).Some? {
      NotBehind(o.s, |o.log|, o.m, i, o.clean.value);
    }
  }

  /** Above the last delete, what the journal has made stable is settled. */
  lemma FloorSettled(dev: Devices, size: nat, o: Object, i: nat)
    requires Inv(dev, size, o) && Tracked(o.log, o.s) && Floor(o) <= i < |o.s| && Open(o.s, i)
    ensures Settled(o.s[i], o.t) <==> o.s[i].mark > 0
  {
    hide Placed, Mirrors, Joined, PhaseOk, Traces, Open;
    if o.s[i].mark > 0 {
      assert Backed(o.s, i);
      var b :| i <= b < |o.s| && o.s[b].at + 1 == o.s[i].mark && o.s[b].d.state == Stable;
      FloorHere(dev, size, o, b);
    }
  }

  lemma ReplayKnown(dev: Devices, size: nat, o: Object)
    requires Inv(dev, size, o) && Tracked(o.log, o.s)
    ensures Ordered(o.s, |o.log|) && Rebuilds(Reloaded(o), o.s, o.t, VersionIn(OnDisk(o)))
    ensures Traces(Reloaded(o), o.s, o.t, VersionIn(OnDisk(o)))
  {
    hide Placed, Joined, PhaseOk, PendOk, Rebuilds, Traces, Ordered, Regular;
  }

  /** A write above the last delete comes back with the state that the journal gave it. */
  lemma WriteBack(dev: Devices, size: nat, o: Object, i: nat, m: nat)
    requires Inv(dev, size, o) && Tracked(o.log, o.s) && Floor(o) <= i < |o.s| && Open(o.s, i)
    requires m < |Reloaded(o)| && Reloaded(o)[m].version == o.s[i].d.version
    ensures Reloaded(o)[m].state == Stable <==> o.s[i].mark > 0
  {
    hide Inv, Tracked, Traces, Rebuilds, Ordered, Open;
    InvBounds(dev, size, o);
    ReplayKnown(dev, size, o);
    FloorSettled(dev, size, o, i);
    TracesAt(Reloaded(o), o.s, o.t, VersionIn(OnDisk(o)), i);
  }

  /** Where something above the last delete is stable, nothing up to the delete comes back. */
  lemma ClearAbove(dev: Devices, size: nat, o: Object, q: nat, i: nat)
    requires Inv(dev, size, o) && Tracked(o.log, o.s) && Floor(o) <= q < i < |o.s| && IsTop(o.s, q) && o.s[i].mark > 0
    ensures Cleared(Reloaded(o), o.s)
  {
    hide Inv, Tracked, Traces, Rebuilds, Ordered, Cleared;
    InvBounds(dev, size, o);
    ReplayKnown(dev, size, o);
    FloorHere(dev, size, o, i);
    TopSplits(o.s, q, i);
    FloorSettled(dev, size, o, i);
    TracesAt(Reloaded(o), o.s, o.t, VersionIn(OnDisk(o)), i);
  }

  /** Otherwise the delete itself does, if there is a metadata entry. */
  lemma DeleteBack(dev: Devices, size: nat, o: Object, q: nat) returns (m: nat)
    requires Inv(dev, size, o) && Tracked(o.log, o.s) && Floor(o) <= q && IsTop(o.s, q) && OnDisk(o).Some?
    requires forall i :: q < i < |o.s| ==> o.s[i].mark == 0
    ensures m < |Reloaded(o)| && Reloaded(o)[m].version == o.s[q].d.version
    ensures DeleteAgrees(Reloaded(o), o.s, o.t, VersionIn(OnDisk(o)), q, m)
  {
    hide Inv, Tracked, Traces, Ordered, Open, Calm, AllKnown, Increasing, NoneWiped;
    InvBounds(dev, size, o);
    var x, c := Reloaded(o), VersionIn(OnDisk(o));
    ReplayKnown(dev, size, o);
    FloorHere(dev, size, o, q);
    assert Accounted(x, o.s, q, o.t, c);
    if Veiled(x, o.s[q].d.version) {
      var g :| 0 <= g < |x| && Veils(x[g], o.s[q].d.version);
      NothingVeils(dev, size, o, q, g);
    }
    m :| 0 <= m < |x| && x[m].version == o.s[q].d.version;
    TracesDelete(x, o.s, o.t, c, q, m);
  }

  lemma NothingVeils(dev: Devices, size: nat, o: Object, q: nat, g: nat)
    requires Inv(dev, size, o) && Tracked(o.log, o.s) && Floor(o) <= q && IsTop(o.s, q) && g < |Reloaded(o)|
    requires forall i :: q < i < |o.s| ==> o.s[i].mark == 0
    ensures Reloaded(o)[g].version > o.s[q].d.version ==> Reloaded(o)[g].state == Synced
  {
    hide Inv, Tracked, Traces, Ordered, Rebuilds, AllKnown;
    InvBounds(dev, size, o);
    var x, c := Reloaded(o), VersionIn(OnDisk(o));
    ReplayKnown(dev, size, o);
    RebuildsParts(x, o.s, o.t, c);
    var i := Source(x, o.s, o.t, c, g);
    if x[g].version > o.s[q].d.version {
      NotUnder(o.s, |o.log|, i, q);
      WriteBack(dev, size, o, i, g);
    }
  }

  /** Without a metadata entry nothing up to the delete comes back. */
  lemma WipedOut(dev: Devices, size: nat, o: Object, q: nat, m: nat)
    requires Inv(dev, size, o) && Tracked(o.log, o.s) && Floor(o) <= q && IsTop(o.s, q) && OnDisk(o).None?
    requires m < |Reloaded(o)|
    ensures Reloaded(o)[m].version > o.s[q].d.version
  {
    hide Inv, Tracked, Traces, Ordered, AllKnown, AllAccounted;
    InvBounds(dev, size, o);
    ReplayKnown(dev, size, o);
    FloorHere(dev, size, o, q);
    assert Wipes(o.s[q], o.t);
  }

  lemma UnlessStray(dev: Devices, size: nat, o: Object, m: nat, i: nat)
    requires Inv(dev, size, o) && Tracked(o.log, o.s) && !(exists q :: Stray(o, q))
    requires m < |Reloaded(o)| && Floor(o) <= i < |o.s| && Reloaded(o)[m].version == o.s[i].d.version && !Open(o.s, i)
    ensures Reloaded(o)[m].state == Stable && JournalStable(o.s[i])
  {
    hide Inv, Tracked, Traces, Ordered, Rebuilds, Calm, Cleared;
    InvBounds(dev, size, o);
    var x := Reloaded(o);
    var q := FindTop(o.s, i);
    ReplayKnown(dev, size, o);
    RebuildsParts(x, o.s, o.t, VersionIn(OnDisk(o)));
    NotOver(o.s, |o.log|, i, q);
    if OnDisk(o).None? {
      WipedOut(dev, size, o, q, m);
    } else if j :| q < j < |o.s| && o.s[j].mark > 0 {
      ClearAbove(dev, size, o, q, j);
      ClearAt(x, o.s, m, q);
    } else {
      assert !Stray(o, q);
      var d := DeleteBack(dev, size, o, q);
      OrderIndex(x, d, m);
      SameVersionSame(o.s, |o.log|, i, q);
    }
  }

  lemma NotOver(s: seq<Ver>, n: nat, i: nat, q: nat)
    requires Ordered(s, n) && i <= q < |s|
    ensures s[i].d.version <= s[q].d.version
  {
    if i < q { OrderedPair(s, n, i, q); }
  }

  lemma ClearAt(x: seq<Dirty>, s: seq<Ver>, m: nat, q: nat)
    requires Cleared(x, s) && m < |x| && q < |s| && s[q].d.kind == Delete
    ensures x[m].version > s[q].d.version
  {
    assert AboveDelete(x[m], s[q]);
  }

  /** All states come back if and only if there is no such delete. */
  lemma RestartExactIff(dev: Devices, size: nat, o: Object)
    requires Inv(dev, size, o) && Tracked(o.log, o.s)
    ensures StatesBack(o) <==> !exists q :: Stray(o, q)
  {
    hide Inv, Tracked, Stray;
    InvBounds(dev, size, o);
    var x := Reloaded(o);
    if !exists q :: Stray(o, q) {
      forall m, i | 0 <= m < |x| && Floor(o) <= i < |o.s| && x[m].version == o.s[i].d.version
        ensures x[m].state == Stable <==> JournalStable(o.s[i])
      {
        if Open(o.s, i) { WriteBack(dev, size, o, i, m); } else { UnlessStray(dev, size, o, m, i); }
      }
    }
    if q :| Stray(o, q) { StrayNotBack(dev, size, o, q); }
  }

  lemma StrayNotBack(dev: Devices, size: nat, o: Object, q: nat)
    requires Inv(dev, size, o) && Tracked(o.log, o.s) && Stray(o, q)
    ensures !StatesBack(o)
  {
    hide Inv, Tracked, Calm, Open;
    InvBounds(dev, size, o);
    var m := DeleteBack(dev, size, o, q);
    assert Reloaded(o)[m].version == o.s[q].d.version && !(Reloaded(o)[m].state == Stable <==> JournalStable(o.s[q]));
  }

  // ----- a rollback after a restart

  /** What `dequeue_rollback` checks: nothing above the version is stable. */
  ghost predicate Accepted(x: seq<Dirty>, version: nat) {
    forall m :: 0 <= m < |x| && x[m].version > version ==> x[m].state == Synced
  }

  /** A rollback to a version below the delete is accepted after the restart, and the object exists again. */
  ghost predicate Undoes(dev: Devices, size: nat, o: Object, q: nat, version: nat)
    requires o.t <= |o.log| && q < |o.s|
  {
    && Accepted(Reloaded(o), version) && version < o.s[q].d.version
    && Replay(dev, size, RolledBack(Reloaded(o), version), Base(dev, size, OnDisk(o))).Some?
  }

  lemma StrayUndone(dev: Devices, size: nat, o: Object, q: nat) returns (version: nat)
    requires Inv(dev, size, o) && Tracked(o.log, o.s) && Stray(o, q)
    ensures Undoes(dev, size, o, q, version)
  {
    hide Inv, Tracked, Calm, Open, Traces, Ordered, Rebuilds, RolledBack, Increasing;
    InvBounds(dev, size, o);
    var x := Reloaded(o);
    ReplayKnown(dev, size, o);
    RebuildsParts(x, o.s, o.t, VersionIn(OnDisk(o)));
    KnownDone(x, o.s, o.t, VersionIn(OnDisk(o)));
    var m := DeleteBack(dev, size, o, q);
    OrderedAt(o.s, |o.log|, q);
    version := o.s[q].d.version - 1;
    forall g | 0 <= g < |x| && x[g].version > version ensures x[g].state == Synced {
      NothingVeils(dev, size, o, q, g);
      OrderIndex(x, m, g);
      OrderIndex(x, g, m);
    }
    var h := RolledBackSplit(x, version);
    OrderIndex(x, m - 1, m);
    assert h == m;
    assert x[..h][h - 1] == x[m - 1];
  }

  lemma UndoneStray(dev: Devices, size: nat, o: Object, q: nat, version: nat)
    requires Inv(dev, size, o) && Tracked(o.log, o.s) && Floor(o) <= q && IsTop(o.s, q)
    requires Undoes(dev, size, o, q, version)
    ensures Stray(o, q)
  {
    hide Inv, Tracked, Calm, Open, Traces, Ordered, Rebuilds, RolledBack, Increasing;
    InvBounds(dev, size, o);
    var x := Reloaded(o);
    ReplayKnown(dev, size, o);
    RebuildsParts(x, o.s, o.t, VersionIn(OnDisk(o)));
    if OnDisk(o).None? {
      var h := RolledBackSplit(x, version);
      if h > 0 { WipedOut(dev, size, o, q, 0); }
    } else if i :| q < i < |o.s| && o.s[i].mark > 0 {
      StableAbove(dev, size, o, q, i, version);
    } else {
      var m := DeleteBack(dev, size, o, q);
    }
  }

  /** Something stable above the delete keeps the rollback out. */
  lemma StableAbove(dev: Devices, size: nat, o: Object, q: nat, i: nat, version: nat)
    requires Inv(dev, size, o) && Tracked(o.log, o.s) && Floor(o) <= q < i < |o.s| && IsTop(o.s, q)
    requires o.s[i].mark > 0 && OnDisk(o).Some? && version < o.s[q].d.version
    ensures !Accepted(Reloaded(o), version)
  {
    hide Inv, Tracked, Traces, Ordered, AllKnown, Increasing, NoneWiped, Open;
    InvBounds(dev, size, o);
    var x, c := Reloaded(o), VersionIn(OnDisk(o));
    ReplayKnown(dev, size, o);
    FloorHere(dev, size, o, i);
    TopSplits(o.s, q, i);
    OrderedPair(o.s, |o.log|, q, i);
    assert Accounted(x, o.s, i, o.t, c);
    if Veiled(x, o.s[i].d.version) {
      var g :| 0 <= g < |x| && Veils(x[g], o.s[i].d.version);
    } else {
      var g :| 0 <= g < |x| && x[g].version == o.s[i].d.version;
      WriteBack(dev, size, o, i, g);
    }
  }

  /** Some rollback undoes the last delete after a restart if and only if it is such a delete. */
  lemma DeleteUndoneIff(dev: Devices, size: nat, o: Object, q: nat)
    requires Inv(dev, size, o) && Tracked(o.log, o.s) && Floor(o) <= q && IsTop(o.s, q)
    ensures (exists version :: Undoes(dev, size, o, q, version)) <==> Stray(o, q)
  {
    hide Inv, Tracked, Stray, Undoes;
    InvBounds(dev, size, o);
    if Stray(o, q) { var version := StrayUndone(dev, size, o, q); }
    if version :| Undoes(dev, size, o, q, version) { UndoneStray(dev, size, o, q, version); }
  }
}
