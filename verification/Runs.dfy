/** The steps of a run, and that every one of them keeps the invariant of crash consistency. */
module Runs {
  import opened Basics
  import opened Overlay
  import opened Versions
  import opened Flush
  import opened Replayed
  import opened Mirror
  import opened Marking
  import opened Placing
  import opened Recovery

  datatype Step =
    | Elsewhere                          // writes anywhere outside of what the object owns
    | Trim(t: nat)                       // the journal start moves up
    | Submit(version: nat)               // a write is accepted and has got its number
    | Write(d: Dirty, inst: bool)        // a small or big write reaches the journal, in any order
    | Remove(d: Dirty)                   // a delete reaches the journal
    | Stabilize(i: nat)                  // a stabilization of version `s[i]` reaches the journal
    | TakeAlong(i: nat)                  // an instant version below takes `s[i]` along in `dirty_db`
    | Rollback(version: nat)             // versions above `version` that have never been stable are dropped
    | BeginFlush(n: nat, plan: Plan)     // the flusher scans `s[m..n]`
    | CopyData                           // some data writes of the flush land, others tear
    | EraseOld(next: Clean)              // all copies are durable, the old metadata entry is zeroed
    | CommitEntry(next: Clean)           // the new metadata entry is written
    | CommitDelete(n: nat)               // a delete is flushed: the metadata entry is zeroed
    | SkipDelete(n: nat)                 // a delete of an object without metadata entry
    | Forget                             // the flushed versions leave `dirty_db`
    | Crash(j: nat)                      // restart: load the metadata entry, replay the journal

  /** The metadata entry that the flush of `s[..n]` by `plan` writes. */
  ghost predicate EntryOf(o: Object, size: nat, n: nat, plan: Plan, next: Clean)
    requires 0 < n <= |o.s|
  {
    && next.version == o.s[n - 1].d.version && next.location == Target(plan, o.clean) && |next.bitmap| == size
    && forall p :: 0 <= p < size ==> (next.bitmap[p] <==> NewBit(plan, o.clean, p))
  }

  /** A new version fits: inside the object, above what is there, a big write in a block of its own. */
  ghost predicate Admissible(dev: Devices, size: nat, o: Object, d: Dirty)
    requires o.m <= |o.s|
  {
    && Fresh(d) && d.End() <= size
    && Housed(dev, size, d, o.clean)
    && forall i :: o.m <= i < |o.s| ==> Clear(o.s[i].d, d, size)
  }

  /** No write is under way below the versions to flush: the flusher takes stable versions only, and an
      instant write becomes stable in `dirty_db` after all lower ones. */
  ghost predicate NoneLower(o: Object, n: nat)
    requires 0 < n <= |o.s|
  {
    forall p :: p in o.pend ==> p > o.s[n - 1].d.version
  }

  /** A small write is journaled when it is over an existing object: before, it waits. */
  predicate Over(o: Object, version: nat) {
    o.m <= Place(o.s, version) && Exists(Dirties(o.s[o.m..Place(o.s, version)]), o.clean.Some?)
  }

  /** A write to a deleted and flushed object may be numbered below the delete. */
  predicate Renews(o: Object, d: Dirty) { Gone(o) && !OnTop(o.s, d.version) }

  function Journaled(o: Object, d: Dirty, inst: bool): Object {
    var log, pend := o.log + [WriteEntry(d, inst)], o.pend - {d.version};
    if Renews(o, d) then o.(log := log, s := Insert([], d, inst, |o.log|), m := 0, pend := pend)
    else o.(log := log, s := Insert(o.s, d, inst, |o.log|), pend := pend)
  }

  function StabilizedOf(o: Object, i: nat): Object
    requires i < |o.s|
  {
    o.(log := o.log + [JStable(o.s[i].d.version)], s := StabilizedAt(o.s, i))
  }

  function RolledBackTo(o: Object, version: nat): Object {
    o.(log := o.log + [JRollback(version)], s := Dropped(o.s, version))
  }

  function Removed(o: Object, d: Dirty): Object {
    o.(log := o.log + [JDelete(d)], s := WithDelete(o.s, d, |o.log|))
  }

  ghost predicate Next(dev: Devices, size: nat, o: Object, step: Step, dev': Devices, o': Object)
    requires o.m <= |o.s| && o.t <= |o.log|
  {
    match step
    case Elsewhere => o' == o && Undisturbed(dev, dev', size, o.Memory(), o.clean)
    case Trim(t) => dev' == dev && o' == o.(t := t) && o.t <= t <= |o.log| && Retained(o.s, o.m, t)
    case Submit(version) =>
      && dev' == dev && version > 0 && version !in o.pend && (Gone(o) || OnTop(o.s, version))
      && o' == o.(pend := o.pend + {version})
    case Write(d, inst) =>
      && dev' == dev && d.kind != Delete && Admissible(dev, size, o, d) && d.version in o.pend
      && (d.kind == SmallWrite ==> Over(o, d.version))
      && (Gone(o) && !Renews(o, d) ==> forall p :: p in o.pend ==> OnTop(o.s, p))
      && o' == Journaled(o, d, inst)
    case Remove(d) =>
      && dev' == dev && d.kind == Delete && Admissible(dev, size, o, d)
      && Exists(o.Memory(), o.clean.Some?) && OnTop(o.s, d.version) && (forall p :: p in o.pend ==> p > d.version)
      && o' == Removed(o, d)
    case Stabilize(i) => dev' == dev && i < |o.s| && o' == StabilizedOf(o, i)
    case TakeAlong(i) => dev' == dev && i < |o.s| && o' == o.(s := Raise(o.s, o.s[i].d.version, 0))
    case Rollback(version) => dev' == dev && MayDrop(o.s, version) && o' == RolledBackTo(o, version)
    case BeginFlush(n, plan) =>
      && dev' == dev && o.phase.Idle? && o.m < n <= |o.s| && o.s[n - 1].d.state == Stable && NoneLower(o, n)
      && Describes(plan, size, Dirties(o.s[o.m..n]), o.clean) && plan.hasWrites
      && o' == o.(phase := Copying(n, plan))
    case CopyData =>
      o.phase.Copying? && o' == o && Torn(dev, dev', Target(o.phase.plan, o.clean), o.phase.plan.v)
    case EraseOld(next) =>
      && dev' == dev && o.phase.Copying? && 0 < o.phase.n <= |o.s|
      && Copied(dev, dev, Target(o.phase.plan, o.clean), o.phase.plan.v) && o.phase.plan.initBitmap
      && EntryOf(o, size, o.phase.n, o.phase.plan, next) && o' == o.(phase := OldErased(o.phase.n, next))
    case CommitEntry(next) =>
      && dev' == dev
      && (if o.phase.OldErased? then next == o.phase.planned
          else
            && o.phase.Copying? && 0 < o.phase.n <= |o.s|
            && Copied(dev, dev, Target(o.phase.plan, o.clean), o.phase.plan.v)
            && EntryOf(o, size, o.phase.n, o.phase.plan, next))
      && o' == o.(phase := Committed(o.phase.n, Some(next)))
    case CommitDelete(n) =>
      && dev' == dev && o.phase.Idle? && o.m < n <= |o.s| && o.s[n - 1].d.kind == Delete && o.clean.Some?
      && NoneLower(o, n)
      && o' == o.(phase := Committed(n, None))
    case SkipDelete(n) =>
      && dev' == dev && o.phase.Idle? && o.m < n <= |o.s| && o.s[n - 1].d.kind == Delete && o.clean.None?
      && NoneLower(o, n)
      && o' == o.(m := n)
    case Forget =>
      dev' == dev && o.phase.Committed? && o' == o.(m := o.phase.n, clean := o.phase.next, phase := Idle)
    case Crash(j) =>
      && dev' == dev && Floor(o) <= j && Cut(o.s, o.t, OnDisk(o), j) && CameBack(Reloaded(o), o.s, j)
      && o' == Restarted(o, j)
  }

  /** What reads of the newest version return after a step. */
  function Expected(dev: Devices, size: nat, o: Object, step: Step): Option<Bytes>
    requires o.m <= |o.s|
  {
    match step
    case Write(d, inst) => Replay(dev, size, Emplace(o.Memory(), d), Base(dev, size, o.clean))
    case Remove(_) => None
    case Rollback(version) =>
      var kept := Dropped(o.s, version);
      if o.m <= |kept| then Replay(dev, size, Dirties(kept[o.m..]), Base(dev, size, o.clean)) else None
    case _ => Newest(dev, size, o)
  }

  // ----- steps elsewhere and data copies

  lemma SliceSame(dev: Devices, dev': Devices, size: nat, s: seq<Ver>, m: nat, n: nat)
    requires m <= n <= |s|
    requires forall i :: 0 <= i < |Dirties(s[m..])| ==> SameVersion(dev, dev', size, Dirties(s[m..])[i])
    ensures forall i :: 0 <= i < |Dirties(s[m..n])| ==> SameVersion(dev, dev', size, Dirties(s[m..n])[i])
  {
    forall i | 0 <= i < |Dirties(s[m..n])| ensures SameVersion(dev, dev', size, Dirties(s[m..n])[i]) {
      assert Dirties(s[m..n])[i] == Dirties(s[m..])[i];
    }
  }

  lemma OwnedSame(dev: Devices, dev': Devices, size: nat, s: seq<Ver>, m: nat, n: nat, clean: Option<Clean>, loc: int)
    requires m <= n <= |s| && Undisturbed(dev, dev', size, Dirties(s[m..]), clean) && OwnedLocation(s[m..n], clean, loc)
    ensures SameBlock(dev, dev', size, loc)
  {
    if !(clean.Some? && clean.value.location == loc) {
      var i :| 0 <= i < |s[m..n]| && s[m..n][i].d.kind == BigWrite && s[m..n][i].d.location == loc;
      assert Dirties(s[m..])[i] == s[m..n][i].d;
    }
  }

  lemma EquationFrame(dev: Devices, dev': Devices, size: nat, s: seq<Ver>, m: nat, n: nat, clean: Option<Clean>,
          next: Option<Clean>)
    requires m < n <= |s| && Undisturbed(dev, dev', size, Dirties(s[m..]), clean)
    requires NextEntry(s, m, n, clean, next, size)
    requires Base(dev, size, next) == Replay(dev, size, Dirties(s[m..n]), Base(dev, size, clean))
    ensures Base(dev', size, next) == Replay(dev', size, Dirties(s[m..n]), Base(dev', size, clean))
  {
    SliceSame(dev, dev', size, s, m, n);
    BaseFrame(dev, dev', size, clean);
    ReplayFrame(dev, dev', size, Dirties(s[m..n]), Base(dev, size, clean));
    if next.Some? { OwnedSame(dev, dev', size, s, m, n, clean, next.value.location); }
    BaseFrame(dev, dev', size, next);
  }

  lemma CoreFrame(dev: Devices, dev': Devices, size: nat, o: Object)
    requires Core(dev, size, o) && |dev'.data| == |dev.data|
    ensures Core(dev', size, o)
  {
  }

  lemma NewestFrame(dev: Devices, dev': Devices, size: nat, o: Object)
    requires o.m <= |o.s| && Undisturbed(dev, dev', size, o.Memory(), o.clean)
    ensures Newest(dev', size, o) == Newest(dev, size, o)
  {
    BaseFrame(dev, dev', size, o.clean);
    ReplayFrame(dev, dev', size, o.Memory(), Base(dev, size, o.clean));
  }

  lemma ElsewhereStep(dev: Devices, dev': Devices, size: nat, o: Object)
    requires Inv(dev, size, o) && Undisturbed(dev, dev', size, o.Memory(), o.clean)
    ensures Inv(dev', size, o) && Newest(dev', size, o) == Newest(dev, size, o)
  {
    CoreFrame(dev, dev', size, o);
    NewestFrame(dev, dev', size, o);
    match o.phase {
      case OldErased(n, next) => EquationFrame(dev, dev', size, o.s, o.m, n, o.clean, Some(next));
      case Committed(n, next) => EquationFrame(dev, dev', size, o.s, o.m, n, o.clean, next);
      case _ =>
    }
  }

  lemma TargetOwned(plan: Plan, size: nat, s: seq<Ver>, m: nat, n: nat, clean: Option<Clean>)
    requires m < n <= |s| && Describes(plan, size, Dirties(s[m..n]), clean) && plan.hasWrites
    ensures OwnedLocation(s[m..n], clean, Target(plan, clean))
  {
    if plan.initBitmap {
      var part := Dirties(s[m..n]);
      var k :| 0 <= k < |part| && part[k].kind == BigWrite && plan.cleanLoc == Some(part[k].location);
      assert s[m..n][k].d == part[k];
    }
  }

  /** A torn copy touches nothing of the versions above the flushed ones. */
  lemma TornAbove(dev: Devices, dev': Devices, size: nat, loc: int, v: seq<CopyItem>, d: Dirty)
    requires Torn(dev, dev', loc, v) && Within(v, 0, size)
    requires d.kind == BigWrite ==> Apart(d.location, loc, size)
    ensures SameVersion(dev, dev', size, d)
  {
    if d.kind == BigWrite {
      forall p | 0 <= p < size ensures BlockByte(dev', d.location, p) == BlockByte(dev, d.location, p) {
        assert !Covered(v, d.location + p - loc);
      }
    }
  }

  lemma CopyStep(dev: Devices, dev': Devices, size: nat, o: Object)
    requires Inv(dev, size, o) && o.phase.Copying?
    requires Torn(dev, dev', Target(o.phase.plan, o.clean), o.phase.plan.v)
    ensures Inv(dev', size, o)
    ensures Newest(dev', size, o) == Newest(dev, size, o)
  {
    CoreFrame(dev, dev', size, o);
    var n, plan := o.phase.n, o.phase.plan;
    CopyNewest(dev, dev', size, o.s, o.m, n, o.clean, plan);
  }

  lemma CopyNewest(dev: Devices, dev': Devices, size: nat, s: seq<Ver>, m: nat, n: nat, clean: Option<Clean>,
          plan: Plan)
    requires m < n <= |s| && OwnsBlocks(dev, size, Dirties(s[m..]), clean)
    requires Describes(plan, size, Dirties(s[m..n]), clean) && plan.hasWrites
    requires Torn(dev, dev', Target(plan, clean), plan.v)
    ensures Replay(dev', size, Dirties(s[m..]), Base(dev', size, clean))
         == Replay(dev, size, Dirties(s[m..]), Base(dev, size, clean))
  {
    var loc := Target(plan, clean);
    TornIsHidden(dev, dev', size, Dirties(s[m..n]), clean, plan);
    TargetOwned(plan, size, s, m, n, clean);
    NextFits(dev, size, s, m, n, clean, loc);
    forall i | 0 <= i < |Dirties(s[n..])| ensures SameVersion(dev, dev', size, Dirties(s[n..])[i]) {
      assert Dirties(s[n..])[i] == s[n + i].d;
      TornAbove(dev, dev', size, loc, plan.v, s[n + i].d);
    }
    ReplaySplit(dev, size, s, m, n, Base(dev, size, clean));
    ReplaySplit(dev', size, s, m, n, Base(dev', size, clean));
    ReplayFrame(dev, dev', size, Dirties(s[n..]), Replay(dev, size, Dirties(s[m..n]), Base(dev, size, clean)));
  }

  // ----- steps that append to the journal

  /** The same versions up to `n`. */
  ghost predicate SamePart(s: seq<Ver>, s': seq<Ver>, n: nat) {
    n <= |s| && n <= |s'| && forall i :: 0 <= i < n ==> s'[i].d == s[i].d
  }

  /** The versions under the flusher's hands stay as they are. */
  ghost predicate KeepsFlushed(o: Object, o': Object) {
    && o'.m == o.m && o'.clean == o.clean && o'.phase == o.phase
    && (!o.phase.Idle? ==> SamePart(o.s, o'.s, o.phase.n))
  }

  lemma PhaseKept(dev: Devices, size: nat, o: Object, o': Object)
    requires o.m <= |o.s| && o'.m <= |o'.s| && PhaseOk(dev, size, o) && KeepsFlushed(o, o')
    ensures PhaseOk(dev, size, o')
  {
    if !o.phase.Idle? {
      var n := o.phase.n;
      assert Dirties(o'.s[o.m..n]) == Dirties(o.s[o.m..n]);
      if o.phase.OldErased? {
        var a :| o.m <= a < n && o.s[a].d.kind == BigWrite;
        assert o'.s[a].d.kind == BigWrite;
        EntryKept(o.s, o'.s, o.m, n, o.clean, Some(o.phase.planned), size);
      }
      if o.phase.Committed? { EntryKept(o.s, o'.s, o.m, n, o.clean, o.phase.next, size); }
    }
  }

  lemma EntryKept(s: seq<Ver>, s': seq<Ver>, m: nat, n: nat, clean: Option<Clean>, next: Option<Clean>, size: nat)
    requires m < n && SamePart(s, s', n) && NextEntry(s, m, n, clean, next, size)
    ensures NextEntry(s', m, n, clean, next, size)
  {
    if next.Some? && !(clean.Some? && clean.value.location == next.value.location) {
      var part, part', loc := s[m..n], s'[m..n], next.value.location;
      var i :| 0 <= i < |part| && part[i].d.kind == BigWrite && part[i].d.location == loc;
      assert part'[i].d == part[i].d;
    }
  }

  lemma PlacedSnoc(dev: Devices, size: nat, stack: seq<Dirty>, clean: Option<Clean>, d: Dirty)
    requires Placed(dev, size, stack, clean) && d.version > 0 && d.End() <= size
    requires d.kind == SmallWrite ==> Exists(stack, clean.Some?)
    requires Housed(dev, size, d, clean) && forall i :: 0 <= i < |stack| ==> Clear(stack[i], d, size)
    ensures Placed(dev, size, stack + [d], clean)
  {
    assert (stack + [d])[..|stack|] == stack;
  }

  lemma MemorySnoc(s: seq<Ver>, m: nat, v: Ver)
    requires m <= |s|
    ensures Dirties((s + [v])[m..]) == Dirties(s[m..]) + [v.d]
  {
    assert (s + [v])[m..] == s[m..] + [v];
  }

  lemma ReplaySnoc(dev: Devices, size: nat, stack: seq<Dirty>, d: Dirty, d': Dirty, base: Option<Bytes>)
    requires d' == d || d' == d.(state := Stable)
    ensures Replay(dev, size, stack + [d'], base) == Apply(dev, size, d, Replay(dev, size, stack, base))
  {
    assert (stack + [d'])[..|stack|] == stack;
    ApplyState(dev, size, d, d', Replay(dev, size, stack, base));
  }

  lemma JoinedSnoc(s: seq<Ver>, m: nat, clean: Option<Clean>, v: Ver)
    requires m <= |s| && Joined(s, m, clean)
    ensures Joined(s + [v], m, clean)
  {
    if clean.Some? {
      var f :| 0 <= f < m && IsVersion(s[f], clean.value) && (f + 1 == m || (m < |s| && Hides(s[m])));
      assert (s + [v])[f] == s[f];
    }
  }

  /** What a history in which more is stable keeps. */
  lemma RaisedParts(dev: Devices, size: nat, s: seq<Ver>, s': seq<Ver>, top: nat, m: nat, t: nat, clean: Option<Clean>)
    requires Raises(s, s', top) && m <= |s| && Joined(s, m, clean) && Retained(s, m, t)
    requires Placed(dev, size, Dirties(s[m..]), clean) && (m > 0 ==> s[m - 1].d.state == Stable)
    ensures Joined(s', m, clean) && Retained(s', m, t) && Placed(dev, size, Dirties(s'[m..]), clean)
    ensures m > 0 ==> s'[m - 1].d.state == Stable
    ensures Replay(dev, size, Dirties(s'[m..]), Base(dev, size, clean))
         == Replay(dev, size, Dirties(s[m..]), Base(dev, size, clean))
  {
    hide Placed, Joined;
    RaisedMemory(s, s', top, m);
    PlacedSameButState(dev, size, Dirties(s[m..]), Dirties(s'[m..]), clean);
    ReplaySameButState(dev, size, Dirties(s[m..]), Dirties(s'[m..]), Base(dev, size, clean));
    RaisedJoined(s, s', top, m, clean);
    forall i | m <= i < |s'| ensures t <= s'[i].at { assert Rises(s[i], s'[i], top); }
    if m > 0 { assert Rises(s[m - 1], s'[m - 1], top); }
  }

  lemma RaisedMemory(s: seq<Ver>, s': seq<Ver>, top: nat, m: nat)
    requires Raises(s, s', top) && m <= |s|
    ensures SameButState(Dirties(s[m..]), Dirties(s'[m..]))
  {
    var a, b := Dirties(s[m..]), Dirties(s'[m..]);
    forall i | 0 <= i < |a| ensures b[i] == a[i].(state := b[i].state) {
      assert Rises(s[m + i], s'[m + i], top);
    }
  }

  lemma RaisedJoined(s: seq<Ver>, s': seq<Ver>, top: nat, m: nat, clean: Option<Clean>)
    requires Raises(s, s', top) && m <= |s| && Joined(s, m, clean)
    ensures Joined(s', m, clean)
  {
    if m < |s| { assert Rises(s[m], s'[m], top); }
    if m > 0 { assert Rises(s[m - 1], s'[m - 1], top); }
    if clean.Some? {
      var f :| 0 <= f < m && IsVersion(s[f], clean.value) && (f + 1 == m || (m < |s| && Hides(s[m])));
      assert Rises(s[f], s'[f], top) && IsVersion(s'[f], clean.value);
    }
  }

  /** Stable versions stay as they are. */
  lemma RaisedSame(s: seq<Ver>, s': seq<Ver>, top: nat, len: nat, n: nat)
    requires Ordered(s, len) && Raises(s, s', top) && n <= |s| && (n > 0 ==> s[n - 1].d.state == Stable)
    ensures SamePart(s, s', n)
  {
    hide Ordered;
    forall i | 0 <= i < n ensures s'[i].d == s[i].d {
      StableDown(s, len, i, n - 1);
      assert Rises(s[i], s'[i], top);
    }
  }

  lemma RaisedKeeps(dev: Devices, size: nat, o: Object, o': Object, top: nat)
    requires o.m <= |o.s| && PhaseOk(dev, size, o) && Ordered(o.s, |o.log|) && Raises(o.s, o'.s, top)
    requires o'.m == o.m && o'.clean == o.clean && o'.phase == o.phase
    ensures KeepsFlushed(o, o')
  {
    if !o.phase.Idle? { RaisedSame(o.s, o'.s, top, |o.log|, o.phase.n); }
  }

  lemma RaisedAwaited(s: seq<Ver>, s': seq<Ver>, top: nat, reach: nat, p: nat)
    requires Raises(s, s', top) && Awaited(s, reach, p)
    ensures Awaited(s', reach, p)
  {
    forall i | 0 <= i < |s'|
      ensures s'[i].d.version != p && (i < reach || s'[i].d.kind == Delete ==> s'[i].d.version < p)
    {
      assert Rises(s[i], s'[i], top);
    }
  }

  /** More of the history becomes stable, with or without a journal entry. */
  lemma RaisedStep(dev: Devices, size: nat, o: Object, o': Object, top: nat)
    requires Inv(dev, size, o) && Mirrors(o'.log, o'.s) && Raises(o.s, o'.s, top) && |o'.log| >= |o.log|
    requires o' == o.(log := o'.log, s := o'.s)
    ensures Inv(dev, size, o') && Newest(dev, size, o') == Newest(dev, size, o)
  {
    hide Mirrors, Placed, Joined, PhaseOk, Raises, Retained;
    CoreParts(dev, size, o);
    RaisedParts(dev, size, o.s, o'.s, top, o.m, o.t, o.clean) by { CoreJoined(dev, size, o); }
    RaisedLength(o.s, o'.s, top);
    RaisedKeeps(dev, size, o, o', top);
    PhaseKept(dev, size, o, o');
    if !Gone(o) { RaisedPend(dev, size, o, o', top); }
  }

  lemma RaisedPend(dev: Devices, size: nat, o: Object, o': Object, top: nat)
    requires o.m <= |o.s| && Raises(o.s, o'.s, top) && PendOk(o) && !Gone(o)
    requires o'.m == o.m && o'.clean == o.clean && o'.phase == o.phase && o'.pend == o.pend
    ensures PendOk(o')
  {
    if o.m > 0 { assert Rises(o.s[o.m - 1], o'.s[o.m - 1], top); }
    ReachKept(o, o');
    forall p | p in o'.pend ensures Awaited(o'.s, Reach(o'), p) {
      RaisedAwaited(o.s, o'.s, top, Reach(o), p);
      FewerAwaited(o'.s, Reach(o), Reach(o'), p);
    }
  }

  lemma ReachKept(o: Object, o': Object)
    requires o'.m == o.m && o'.clean == o.clean && o'.phase == o.phase && o.m <= |o.s| && o.m <= |o'.s|
    requires o.m > 0 ==>
      o'.s[o.m - 1].d.version == o.s[o.m - 1].d.version && o'.s[o.m - 1].d.kind == o.s[o.m - 1].d.kind
    requires o.m < |o.s| || |o'.s| == o.m || Adjacent(o.s, o.m, o.clean)
    ensures Reach(o') <= Reach(o)
  {
  }

  lemma FewerAwaited(s: seq<Ver>, reach: nat, reach': nat, p: nat)
    requires Awaited(s, reach, p) && reach' <= reach
    ensures Awaited(s, reach', p)
  {
  }

  lemma RaisedLength(s: seq<Ver>, s': seq<Ver>, top: nat)
    requires Raises(s, s', top)
    ensures |s'| == |s|
  {
  }

  lemma CoreJoined(dev: Devices, size: nat, o: Object)
    requires Core(dev, size, o)
    ensures Joined(o.s, o.m, o.clean) && Retained(o.s, o.m, o.t)
  {
  }

  // ----- a delete on top

  lemma RemoveCore(dev: Devices, size: nat, o: Object, d: Dirty)
    requires Core(dev, size, o) && Admissible(dev, size, o, d) && d.kind == Delete && OnTop(o.s, d.version)
    ensures Core(dev, size, Removed(o, d)) && Newest(dev, size, Removed(o, d)) == None
  {
    hide Mirrors, Placed, Joined, Admissible, Core, Retained, Ordered, WithDelete;
    var o' := Removed(o, d);
    CoreParts(dev, size, o);
    AdmissibleFresh(dev, size, o, d);
    RemoveMirrors(o, d);
    RemoveParts(dev, size, o, d);
    PutCore(dev, size, o');
  }

  lemma RemoveParts(dev: Devices, size: nat, o: Object, d: Dirty)
    requires Core(dev, size, o) && Fresh(d) && d.End() <= size && d.kind == Delete
    ensures var o' := Removed(o, d);
            && o.m <= |o'.s| && Joined(o'.s, o.m, o.clean) && Retained(o'.s, o.m, o.t)
            && (o.m > 0 ==> o'.s[o.m - 1].d.state == Stable)
            && Placed(dev, size, Dirties(o'.s[o.m..]), o.clean) && Newest(dev, size, o') == None
  {
    hide Mirrors, Placed, Joined, Raises, Retained, Raise, Ordered;
    var o', r, v := Removed(o, d), Raise(o.s, d.version, 0), Ver(d.(state := Stable), |o.log|, 0);
    RaiseRaises(o.s, d.version, 0);
    RaisedParts(dev, size, o.s, r, d.version, o.m, o.t, o.clean);
    assert o'.s == r + [v];
    JoinedSnoc(r, o.m, o.clean, v);
    MemorySnoc(r, o.m, v);
    RemovePlaced(dev, size, Dirties(r[o.m..]), o.clean, v.d);
    RetainedSnoc(r, v, o.m, o.t);
  }

  lemma RemoveMirrors(o: Object, d: Dirty)
    requires Mirrors(o.log, o.s) && Fresh(d) && d.kind == Delete && OnTop(o.s, d.version)
    ensures Mirrors(o.log + [JDelete(d)], WithDelete(o.s, d, |o.log|))
  {
    hide Ordered, Rebuilds, WithDelete;
    DeleteCarries(o.s, d, |o.log|);
    MirrorsSnoc(o.log, o.s, JDelete(d), WithDelete(o.s, d, |o.log|));
  }

  lemma RemovePlaced(dev: Devices, size: nat, stack: seq<Dirty>, clean: Option<Clean>, d: Dirty)
    requires Placed(dev, size, stack, clean) && d.version > 0 && d.End() <= size && d.kind == Delete
    ensures Placed(dev, size, stack + [d], clean)
    ensures Replay(dev, size, stack + [d], Base(dev, size, clean)) == None
  {
    PlacedSnoc(dev, size, stack, clean, d);
  }

  lemma RetainedSnoc(s: seq<Ver>, v: Ver, m: nat, t: nat)
    requires Retained(s, m, t) && t <= v.at
    ensures Retained(s + [v], m, t)
  {
  }

  lemma RemoveStep(dev: Devices, size: nat, o: Object, step: Step, dev': Devices, o': Object)
    requires Inv(dev, size, o) && Next(dev, size, o, step, dev', o') && step.Remove?
    ensures Right(dev, size, o, step, dev', o')
  {
    hide Mirrors, Placed, Joined, PhaseOk, Admissible, WithDelete;
    var d := step.d;
    CoreParts(dev, size, o);
    RemoveCore(dev, size, o, d);
    RemoveKeeps(dev, size, o, d);
    PhaseKept(dev, size, o, o');
    CoreJoined(dev, size, o);
    if !Adjacent(o.s, o.m, o.clean) { GapHides(o.s, o.m, o.clean); }
    RemovePend(dev, size, o, d);
  }

  lemma RemoveKeeps(dev: Devices, size: nat, o: Object, d: Dirty)
    requires o.m <= |o.s| && PhaseOk(dev, size, o) && Ordered(o.s, |o.log|)
    ensures KeepsFlushed(o, Removed(o, d)) && o.m <= |Removed(o, d).s|
  {
    hide Ordered;
    var r := Raise(o.s, d.version, 0);
    RaiseRaises(o.s, d.version, 0);
    if !o.phase.Idle? {
      RaisedSame(o.s, r, d.version, |o.log|, o.phase.n);
      assert forall i :: 0 <= i < o.phase.n ==> Removed(o, d).s[i] == r[i];
    }
  }

  lemma RemovePend(dev: Devices, size: nat, o: Object, d: Dirty)
    requires o.m <= |o.s| && PendOk(o) && Exists(o.Memory(), o.clean.Some?)
    requires forall p :: p in o.pend ==> p > d.version
    requires o.m < |o.s| || Adjacent(o.s, o.m, o.clean)
    ensures PendOk(Removed(o, d))
  {
    var o', r := Removed(o, d), Raise(o.s, d.version, 0);
    assert !Gone(o);
    assert forall i :: 0 <= i < |r| ==> o'.s[i] == r[i];
    hide Raise, Reach;
    RaiseRaises(o.s, d.version, 0);
    RemoveReach(o, d);
    forall p | p in o'.pend ensures Awaited(o'.s, Reach(o'), p) {
      RaisedAwaited(o.s, r, d.version, Reach(o), p);
      SnocAwaited(r, o'.s, Reach(o), p);
      FewerAwaited(o'.s, Reach(o), Reach(o'), p);
    }
  }

  lemma RemoveReach(o: Object, d: Dirty)
    requires o.m <= |o.s| && (o.m < |o.s| || Adjacent(o.s, o.m, o.clean))
    ensures Reach(Removed(o, d)) <= Reach(o)
  {
    var r := Raise(o.s, d.version, 0);
    if o.m > 0 { assert Removed(o, d).s[o.m - 1] == r[o.m - 1]; }
    ReachKept(o, Removed(o, d));
  }

  lemma SnocAwaited(s: seq<Ver>, s': seq<Ver>, reach: nat, p: nat)
    requires Awaited(s, reach, p) && |s'| == |s| + 1 && (forall i :: 0 <= i < |s| ==> s'[i] == s[i])
    requires Last(s').d.version < p
    ensures Awaited(s', reach, p)
  {
  }

  /** The first write over a flushed delete, numbered below it. */
  lemma RenewStep(dev: Devices, size: nat, o: Object, d: Dirty, inst: bool)
    requires Inv(dev, size, o) && Renews(o, d) && Admissible(dev, size, o, d) && d.kind == BigWrite
    ensures var o' := Journaled(o, d, inst);
            && Inv(dev, size, o')
            && Newest(dev, size, o') == Replay(dev, size, Emplace(o.Memory(), d), Base(dev, size, o.clean))
  {
    hide Mirrors, Placed, Emplace, Replay, PendOk, Awaited, Reach;
    var v, o' := Entered([], d, inst, |o.log|), Journaled(o, d, inst);
    RenewMirrors(o, d, inst);
    assert o'.s == [v];
    assert o.Memory() == [] && o'.Memory() == [v.d];
    RenewContents(dev, size, d, v.d);
    RenewPend(o', v);
  }

  /** Whatever is in flight has a place above or below the only version. */
  lemma RenewPend(o: Object, v: Ver)
    requires o.s == [v] && o.m == 0 && o.clean.None? && o.phase.Idle? && v.d.kind == BigWrite && v.d.version !in o.pend
    ensures PendOk(o)
  {
    forall p | p in o.pend ensures Awaited(o.s, Reach(o), p) {}
  }

  lemma RenewMirrors(o: Object, d: Dirty, inst: bool)
    requires Mirrors(o.log, o.s) && o.s != [] && Last(o.s).d.kind == Delete && d.version <= Last(o.s).d.version
    requires Fresh(d) && d.kind == BigWrite
    ensures Mirrors(o.log + [WriteEntry(d, inst)], Insert([], d, inst, |o.log|))
  {
    hide Ordered, Rebuilds, Insert;
    RenewCarries(o.s, d, inst, |o.log|);
    MirrorsSnoc(o.log, o.s, WriteEntry(d, inst), Insert([], d, inst, |o.log|));
  }

  lemma RenewContents(dev: Devices, size: nat, d: Dirty, d': Dirty)
    requires d.kind == BigWrite && Fresh(d) && d.End() <= size && Housed(dev, size, d, None)
    requires d' == d || d' == d.(state := Stable)
    ensures Placed(dev, size, [d'], None)
    ensures Replay(dev, size, [d'], None) == Replay(dev, size, Emplace([], d), None)
  {
    assert [] + [d'] == [d'] && Emplace([], d) == [] + [d];
    PlacedSnoc(dev, size, [], None, d');
    ReplaySnoc(dev, size, [], d, d', None);
    ReplaySnoc(dev, size, [], d, d, None);
  }

  // ----- a write that takes its place among the journaled versions

  /** The new version is above all that the flusher deals with. */
  ghost predicate Free(s: seq<Ver>, reach: nat, version: nat) {
    forall i :: 0 <= i < reach && i < |s| ==> s[i].d.version < version
  }

  lemma InsertedFree(s: seq<Ver>, n: nat, v: Ver, p: nat, s': seq<Ver>, reach: nat)
    requires Ordered(s, n) && Inserted(s, v, p, s') && Free(s, reach, v.d.version) && reach <= |s|
    requires reach > 0 ==> s[reach - 1].d.state == Stable
    ensures reach <= p && SamePart(s, s', reach)
  {
    hide Ordered;
    forall i | 0 <= i < reach ensures s'[i].d == s[i].d {
      StableDown(s, n, i, reach - 1);
      assert Rises(s[i], s'[i], 0);
    }
  }

  lemma InsertedMemory(s: seq<Ver>, v: Ver, p: nat, s': seq<Ver>, m: nat, d: Dirty)
    requires Inserted(s, v, p, s') && m <= p && v.d == d.(state := v.d.state)
    ensures var x := Dirties(s[m..]); SameButState(x[..p - m] + [d] + x[p - m..], Dirties(s'[m..]))
  {
    var x := Dirties(s[m..]);
    var y, z := x[..p - m] + [d] + x[p - m..], Dirties(s'[m..]);
    forall i | 0 <= i < |y| ensures z[i] == y[i].(state := z[i].state) {
      assert z[i] == s'[m + i].d;
      if i < p - m { assert y[i] == s[m + i].d && Rises(s[m + i], s'[m + i], 0); }
      if i > p - m { assert y[i] == s[m + i - 1].d && s'[m + i - 1 + 1] == s[m + i - 1]; }
    }
  }

  lemma MemoryIncreasing(s: seq<Ver>, n: nat, m: nat)
    requires Ordered(s, n) && m <= |s|
    ensures Increasing(Dirties(s[m..]))
  {
    forall i, j | 0 <= i < j < |s| - m ensures Dirties(s[m..])[i].version < Dirties(s[m..])[j].version {
      OrderedPair(s, n, m + i, m + j);
    }
  }

  /** `dirty_db.emplace` puts it at the same place. */
  lemma InsertedEmplace(s: seq<Ver>, n: nat, v: Ver, p: nat, s': seq<Ver>, m: nat, d: Dirty)
    requires Ordered(s, n) && Inserted(s, v, p, s') && m <= p && d.version == v.d.version
    requires forall i :: 0 <= i < |s| ==> s[i].d.version != d.version
    ensures var x := Dirties(s[m..]); Emplace(x, d) == x[..p - m] + [d] + x[p - m..]
  {
    hide Ordered, Emplace;
    var x := Dirties(s[m..]);
    MemoryIncreasing(s, n, m);
    assert forall i :: 0 <= i < |x| ==> x[i] == s[m + i].d;
    var i := EmplaceSplit(x, d);
  }

  lemma {:induction false} BasedEmplace(x: seq<Dirty>, clean: bool, d: Dirty, i: nat)
    requires Based(x, clean) && i <= |x| && d.kind != Delete && (d.kind == SmallWrite ==> Exists(x[..i], clean))
    ensures Based(x[..i] + [d] + x[i..], clean)
    decreases |x|
  {
    var r := x[..i] + [d] + x[i..];
    if i == |x| {
      assert r == x + [d] && r[..|x|] == x && x[..i] == x;
    } else {
      var t := x[..|x| - 1];
      assert t[..i] == x[..i];
      BasedEmplace(t, clean, d, i);
      assert r[..|x|] == t[..i] + [d] + t[i..];
      assert r == r[..|x|] + [x[|x| - 1]];
    }
  }

  lemma PlacedInsert(dev: Devices, size: nat, x: seq<Dirty>, clean: Option<Clean>, i: nat, d: Dirty)
    requires Placed(dev, size, x, clean) && i <= |x| && d.version > 0 && d.End() <= size
    requires Based(x[..i] + [d] + x[i..], clean.Some?)
    requires Housed(dev, size, d, clean) && forall j :: 0 <= j < |x| ==> Clear(x[j], d, size)
    ensures Placed(dev, size, x[..i] + [d] + x[i..], clean)
  {
    var y := x[..i] + [d] + x[i..];
    forall j | 0 <= j < |y|
      ensures y[j].version > 0 && y[j].End() <= size && Housed(dev, size, y[j], clean)
    {
      if j < i { assert y[j] == x[j]; } else if j > i { assert y[j] == x[j - 1]; }
    }
    forall j, k | 0 <= j < k < |y| ensures Clear(y[j], y[k], size) {
      InsertedClear(size, x, i, d, j, k);
    }
  }

  lemma InsertedClear(size: nat, x: seq<Dirty>, i: nat, d: Dirty, j: nat, k: nat)
    requires i <= |x| && j < k <= |x| && forall h :: 0 <= h < |x| ==> Clear(x[h], d, size)
    requires forall h, l {:trigger Clear(x[h], x[l], size)} :: 0 <= h < l < |x| ==> Clear(x[h], x[l], size)
    ensures var y := x[..i] + [d] + x[i..]; Clear(y[j], y[k], size)
  {
    var y := x[..i] + [d] + x[i..];
    var h, l := if j > i then j - 1 else j, if k > i then k - 1 else k;
    assert j != i ==> y[j] == x[h];
    assert k != i ==> y[k] == x[l];
    if j != i && k != i {
      assert Clear(x[h], x[l], size);
    } else if j == i {
      assert Clear(x[l], d, size);
    } else {
      assert Clear(x[h], d, size);
    }
  }

  lemma InsertedJoined(s: seq<Ver>, m: nat, clean: Option<Clean>, v: Ver, p: nat, s': seq<Ver>)
    requires m <= |s| && Joined(s, m, clean) && Inserted(s, v, p, s') && m <= p && SamePart(s, s', m)
    requires Adjacent(s, m, clean) || (m < |s| && SamePart(s, s', m + 1))
    ensures Joined(s', m, clean)
  {
    if Adjacent(s, m, clean) {
      if clean.Some? { assert IsVersion(s'[m - 1], clean.value); }
    } else {
      if clean.Some? {
        var f :| 0 <= f < m && IsVersion(s[f], clean.value) && (f + 1 == m || (m < |s| && Hides(s[m])));
        assert IsVersion(s'[f], clean.value);
      }
    }
  }

  lemma InsertedRetained(s: seq<Ver>, v: Ver, p: nat, s': seq<Ver>, m: nat, t: nat)
    requires Retained(s, m, t) && Inserted(s, v, p, s') && m <= p && t <= v.at
    ensures Retained(s', m, t)
  {
    forall i | m <= i < |s'| ensures t <= s'[i].at {
      if i > p { assert s'[i - 1 + 1] == s[i - 1]; }
      if i < p { assert Rises(s[i], s'[i], 0); }
    }
  }

  lemma InsertedAwaited(s: seq<Ver>, v: Ver, p: nat, s': seq<Ver>, reach: nat, version: nat)
    requires Inserted(s, v, p, s') && reach <= p && Awaited(s, reach, version)
    requires v.d.version != version && v.d.kind != Delete
    ensures Awaited(s', reach, version)
  {
    forall i | 0 <= i < |s'|
      ensures s'[i].d.version != version && (i < reach || s'[i].d.kind == Delete ==> s'[i].d.version < version)
    {
      if i > p { assert s'[i - 1 + 1] == s[i - 1]; }
      if i < p { assert Rises(s[i], s'[i], 0); }
    }
  }

  /** The memory part of the invariant for a history with one more version. */
  lemma WritePlaced(dev: Devices, size: nat, o: Object, d: Dirty, v: Ver, p: nat, s': seq<Ver>)
    requires o.m <= p <= |o.s| && Placed(dev, size, o.Memory(), o.clean) && Admissible(dev, size, o, d)
    requires d.kind != Delete
    requires Inserted(o.s, v, p, s') && |s'| == |o.s| + 1 && v.d == d.(state := v.d.state)
    requires var x := o.Memory(); Emplace(x, d) == x[..p - o.m] + [d] + x[p - o.m..]
    requires d.kind == SmallWrite ==> Exists(Dirties(o.s[o.m..p]), o.clean.Some?)
    ensures Placed(dev, size, Dirties(s'[o.m..]), o.clean)
    ensures Replay(dev, size, Dirties(s'[o.m..]), Base(dev, size, o.clean))
         == Replay(dev, size, Emplace(o.Memory(), d), Base(dev, size, o.clean))
  {
    hide Placed, Emplace, Replay, Inserted, SameButState, Base, Based, Exists;
    var x, i := o.Memory(), p - o.m;
    var y := x[..i] + [d] + x[i..];
    InsertedMemory(o.s, v, p, s', o.m, d);
    MemoryClear(dev, size, o, d);
    DirtiesSlice(o.s, o.m, p);
    BasedOfPlaced(dev, size, x, o.clean);
    BasedEmplace(x, o.clean.Some?, d, i);
    PlacedInsert(dev, size, x, o.clean, i, d);
    PlacedSameButState(dev, size, y, Dirties(s'[o.m..]), o.clean);
    ReplaySameButState(dev, size, y, Dirties(s'[o.m..]), Base(dev, size, o.clean));
  }

  lemma BasedOfPlaced(dev: Devices, size: nat, stack: seq<Dirty>, clean: Option<Clean>)
    requires Placed(dev, size, stack, clean)
    ensures Based(stack, clean.Some?)
  {
  }

  lemma MemoryClear(dev: Devices, size: nat, o: Object, d: Dirty)
    requires o.m <= |o.s| && Admissible(dev, size, o, d)
    ensures var x := o.Memory(); forall j :: 0 <= j < |x| ==> Clear(x[j], d, size)
  {
    var x := o.Memory();
    forall j | 0 <= j < |x| ensures Clear(x[j], d, size) {
      assert x[j] == o.s[o.m + j].d && Clear(o.s[o.m + j].d, d, size);
    }
  }

  lemma ReachStable(dev: Devices, size: nat, o: Object)
    requires o.m <= |o.s| && (o.m > 0 ==> o.s[o.m - 1].d.state == Stable) && PhaseOk(dev, size, o)
    requires Joined(o.s, o.m, o.clean)
    ensures o.m <= Reach(o) <= |o.s| && (Reach(o) > 0 ==> o.s[Reach(o) - 1].d.state == Stable)
    ensures !o.phase.Idle? ==> o.phase.n == Reach(o)
    ensures Adjacent(o.s, o.m, o.clean) || (o.m < |o.s| && o.m < Reach(o))
  {
    if !Adjacent(o.s, o.m, o.clean) { GapHides(o.s, o.m, o.clean); }
  }

  lemma GapHides(s: seq<Ver>, m: nat, clean: Option<Clean>)
    requires m <= |s| && Joined(s, m, clean) && !Adjacent(s, m, clean)
    ensures m < |s| && Hides(s[m])
  {
  }

  lemma CoreParts(dev: Devices, size: nat, o: Object)
    requires Core(dev, size, o)
    ensures Ordered(o.s, |o.log|) && o.m <= |o.s| && o.t <= |o.log| && (o.m > 0 ==> o.s[o.m - 1].d.state == Stable)
    ensures Placed(dev, size, o.Memory(), o.clean) && Mirrors(o.log, o.s)
  {
  }

  lemma WriteMirrors(o: Object, d: Dirty, inst: bool)
    requires Mirrors(o.log, o.s) && Fresh(d) && d.kind != Delete && HasPlace(o.s, d.version)
    ensures Mirrors(o.log + [WriteEntry(d, inst)], Insert(o.s, d, inst, |o.log|))
  {
    hide Ordered, Rebuilds, Insert;
    WriteCarries(o.s, d, inst, |o.log|);
    MirrorsSnoc(o.log, o.s, WriteEntry(d, inst), Insert(o.s, d, inst, |o.log|));
  }

  lemma WriteNew(dev: Devices, size: nat, o: Object, d: Dirty, inst: bool)
    requires Core(dev, size, o) && PhaseOk(dev, size, o) && !Renews(o, d) && d.kind != Delete
    requires Admissible(dev, size, o, d)
    requires HasPlace(o.s, d.version) && Free(o.s, Reach(o), d.version)
    requires d.kind == SmallWrite ==> Over(o, d.version)
    requires forall q :: q in o.pend - {d.version} ==> Awaited(o.s, Reach(o), q)
    ensures var o' := Journaled(o, d, inst);
            && Inv(dev, size, o')
            && Newest(dev, size, o') == Replay(dev, size, Emplace(o.Memory(), d), Base(dev, size, o.clean))
  {
    hide Placed, Joined, Ordered, Insert, Mirrors, Core, Emplace, Replay, PhaseOk, Awaited, Inserted, Base, HasPlace;
    hide Free, SamePart, Over, Reach, Adjacent;
    var v, p, o' := Entered(o.s, d, inst, |o.log|), Place(o.s, d.version), Journaled(o, d, inst);
    CoreParts(dev, size, o);
    CoreJoined(dev, size, o);
    InsertShape(o.s, d, inst, |o.log|);
    ReachStable(dev, size, o);
    InsertedFree(o.s, |o.log|, v, p, o'.s, Reach(o));
    WriteContents(dev, size, o, d, inst);
    WriteKeeps(o, o', Reach(o));
    PhaseKept(dev, size, o, o');
    WritePend(o, d, inst);
  }

  lemma WritePend(o: Object, d: Dirty, inst: bool)
    requires !Renews(o, d) && d.kind != Delete && Reach(o) <= Place(o.s, d.version) && o.m <= |o.s|
    requires forall q :: q in o.pend - {d.version} ==> Awaited(o.s, Reach(o), q)
    requires Inserted(o.s, Entered(o.s, d, inst, |o.log|), Place(o.s, d.version), Insert(o.s, d, inst, |o.log|))
    requires SamePart(o.s, Insert(o.s, d, inst, |o.log|), Reach(o)) && o.m <= Reach(o)
    requires o.m < |o.s| || Adjacent(o.s, o.m, o.clean)
    ensures PendOk(Journaled(o, d, inst))
  {
    hide Insert, Inserted, Awaited;
    var v, p, o' := Entered(o.s, d, inst, |o.log|), Place(o.s, d.version), Journaled(o, d, inst);
    ReachKept(o, o');
    hide Reach, SamePart;
    forall q | q in o'.pend ensures Awaited(o'.s, Reach(o'), q) {
      InsertedAwaited(o.s, v, p, o'.s, Reach(o), q);
      FewerAwaited(o'.s, Reach(o), Reach(o'), q);
    }
  }

  lemma WriteContents(dev: Devices, size: nat, o: Object, d: Dirty, inst: bool)
    requires Core(dev, size, o) && !Renews(o, d) && d.kind != Delete && Admissible(dev, size, o, d)
    requires HasPlace(o.s, d.version) && (d.kind == SmallWrite ==> Over(o, d.version))
    requires var p := Place(o.s, d.version);
             && o.m <= Reach(o) <= p && SamePart(o.s, Insert(o.s, d, inst, |o.log|), Reach(o))
             && (Adjacent(o.s, o.m, o.clean) || (o.m < |o.s| && o.m < Reach(o)))
    ensures var o' := Journaled(o, d, inst);
            && Core(dev, size, o')
            && Newest(dev, size, o') == Replay(dev, size, Emplace(o.Memory(), d), Base(dev, size, o.clean))
  {
    hide Placed, Joined, Ordered, Insert, Mirrors, Core, Emplace, Replay, Inserted, Base, HasPlace, Reach, Place;
    hide Adjacent, SamePart, Admissible;
    var v, p, o' := Entered(o.s, d, inst, |o.log|), Place(o.s, d.version), Journaled(o, d, inst);
    CoreParts(dev, size, o);
    AdmissibleFresh(dev, size, o, d);
    InsertShape(o.s, d, inst, |o.log|);
    AllNew(o.s, d.version);
    WriteMirrors(o, d, inst);
    InsertedEmplace(o.s, |o.log|, v, p, o'.s, o.m, d);
    WritePlaced(dev, size, o, d, v, p, o'.s);
    WriteCore(dev, size, o, d, inst);
  }

  lemma WriteKeeps(o: Object, o': Object, reach: nat)
    requires o.m <= reach <= |o.s| && (!o.phase.Idle? ==> o.phase.n == reach) && SamePart(o.s, o'.s, reach)
    requires o'.m == o.m && o'.clean == o.clean && o'.phase == o.phase
    ensures KeepsFlushed(o, o')
  {
  }

  lemma AllNew(s: seq<Ver>, version: nat)
    requires HasPlace(s, version)
    ensures forall i :: 0 <= i < |s| ==> s[i].d.version != version
  {
    forall i | 0 <= i < |s| ensures s[i].d.version != version { assert PlaceAt(s[i].d, version); }
  }

  lemma WriteCore(dev: Devices, size: nat, o: Object, d: Dirty, inst: bool)
    requires Core(dev, size, o) && !Renews(o, d)
    requires var v, p, s' := Entered(o.s, d, inst, |o.log|), Place(o.s, d.version), Insert(o.s, d, inst, |o.log|);
             && o.m <= Reach(o) <= p && SamePart(o.s, s', Reach(o)) && Inserted(o.s, v, p, s')
             && (Adjacent(o.s, o.m, o.clean) || (o.m < |o.s| && o.m < Reach(o)))
             && Placed(dev, size, Dirties(s'[o.m..]), o.clean)
             && Mirrors(o.log + [WriteEntry(d, inst)], s')
    ensures Core(dev, size, Journaled(o, d, inst))
  {
    hide Placed, Insert, Mirrors, Inserted, Joined, Reach, Adjacent, SamePart, Retained;
    var v, p, o' := Entered(o.s, d, inst, |o.log|), Place(o.s, d.version), Journaled(o, d, inst);
    InsertedParts(o.s, v, p, o'.s, o.m, Reach(o), o.t, o.clean);
    PutCore(dev, size, o');
  }

  lemma InsertedParts(s: seq<Ver>, v: Ver, p: nat, s': seq<Ver>, m: nat, reach: nat, t: nat, clean: Option<Clean>)
    requires Inserted(s, v, p, s') && m <= reach <= p && m <= |s| && SamePart(s, s', reach) && t <= v.at
    requires Joined(s, m, clean) && Retained(s, m, t) && (m > 0 ==> s[m - 1].d.state == Stable)
    requires Adjacent(s, m, clean) || (m < |s| && m < reach)
    ensures Joined(s', m, clean) && Retained(s', m, t) && (m > 0 ==> s'[m - 1].d.state == Stable)
  {
    hide Inserted, Joined, Adjacent, Retained;
    InsertedJoined(s, m, clean, v, p, s');
    InsertedRetained(s, v, p, s', m, t);
  }

  // ----- stabilizing and rolling back

  lemma {:induction false} BasedSameButState(a: seq<Dirty>, b: seq<Dirty>, clean: bool)
    requires SameButState(a, b) && Based(a, clean)
    ensures Based(b, clean)
    decreases |a|
  {
    if a != [] {
      BasedSameButState(a[..|a| - 1], b[..|b| - 1], clean);
    }
  }

  lemma PlacedSameButState(dev: Devices, size: nat, a: seq<Dirty>, b: seq<Dirty>, clean: Option<Clean>)
    requires SameButState(a, b) && Placed(dev, size, a, clean)
    ensures Placed(dev, size, b, clean)
  {
    BasedSameButState(a, b, clean.Some?);
    forall i, j | 0 <= i < j < |b| ensures Clear(b[i], b[j], size) {
      assert Clear(a[i], a[j], size);
    }
  }

  lemma PutCore(dev: Devices, size: nat, o: Object)
    requires Mirrors(o.log, o.s) && o.m <= |o.s| && o.t <= |o.log| && Retained(o.s, o.m, o.t)
    requires (o.m > 0 ==> o.s[o.m - 1].d.state == Stable) && Joined(o.s, o.m, o.clean)
    requires Placed(dev, size, Dirties(o.s[o.m..]), o.clean)
    ensures Core(dev, size, o)
  {
  }

  lemma StabilizeStep(dev: Devices, size: nat, o: Object, i: nat)
    requires Inv(dev, size, o) && i < |o.s|
    ensures Inv(dev, size, StabilizedOf(o, i)) && Newest(dev, size, StabilizedOf(o, i)) == Newest(dev, size, o)
  {
    hide Ordered, Rebuilds, Core, PhaseOk, PendOk, Raises, StabilizedAt;
    var o' := StabilizedOf(o, i);
    CoreParts(dev, size, o);
    StabilizeCarries(o.s, i, |o.log|);
    MirrorsSnoc(o.log, o.s, JStable(o.s[i].d.version), o'.s);
    StabilizedRaises(o.s, i);
    RaisedStep(dev, size, o, o', 0);
  }

  lemma StabilizedRaises(s: seq<Ver>, i: nat)
    requires i < |s|
    ensures Raises(s, StabilizedAt(s, i), 0)
  {
  }

  lemma TakeAlongStep(dev: Devices, size: nat, o: Object, i: nat)
    requires Inv(dev, size, o) && i < |o.s|
    ensures var o' := o.(s := Raise(o.s, o.s[i].d.version, 0));
            Inv(dev, size, o') && Newest(dev, size, o') == Newest(dev, size, o)
  {
    hide Ordered, Rebuilds, Core, PhaseOk, PendOk, Raises, Mirrors;
    var version := o.s[i].d.version;
    CoreParts(dev, size, o);
    MirrorsRaised(o.log, o.s, version);
    RaiseRaises(o.s, version, 0);
    RaisedStep(dev, size, o, o.(s := Raise(o.s, version, 0)), version);
  }

  lemma DroppedKeeps(s: seq<Ver>, version: nat, i: nat, len: nat)
    requires i < |s| && Ordered(s, len) && s[i].d.state == Stable && MayDrop(s, version)
    ensures |Dropped(s, version)| > i
  {
    DroppedShape(s, version, len);
  }

  lemma PlacedPrefix(dev: Devices, size: nat, stack: seq<Dirty>, clean: Option<Clean>, k: nat)
    requires Placed(dev, size, stack, clean) && k <= |stack|
    ensures Placed(dev, size, stack[..k], clean)
  {
    BasedPrefix(stack, clean.Some?, k);
  }

  lemma PrefixMemory(s: seq<Ver>, m: nat, k: nat)
    requires m <= k <= |s|
    ensures Dirties(s[..k][m..]) == Dirties(s[m..])[..k - m]
  {
  }

  lemma PrefixJoined(s: seq<Ver>, m: nat, clean: Option<Clean>, k: nat)
    requires m <= k <= |s| && Joined(s, m, clean) && (m < |s| && Hides(s[m]) ==> m < k)
    ensures Joined(s[..k], m, clean)
  {
    if clean.Some? {
      var f :| 0 <= f < m && IsVersion(s[f], clean.value) && (f + 1 == m || (m < |s| && Hides(s[m])));
      assert s[..k][f] == s[f];
    }
  }

  lemma RollbackCore(dev: Devices, size: nat, o: Object, version: nat)
    requires Core(dev, size, o) && MayDrop(o.s, version)
    ensures Core(dev, size, RolledBackTo(o, version))
  {
    hide Rebuilds, Ordered, Placed, Joined, MayDrop, Dropped;
    var o' := RolledBackTo(o, version);
    RollbackCarries(o.s, version, |o.log|);
    MirrorsSnoc(o.log, o.s, JRollback(version), o'.s);
    RollbackParts(dev, size, o.s, |o.log|, o.m, o.clean, version);
    DroppedAbove(o.s, version, o.m, |o.log|);
    PutCore(dev, size, o');
  }

  lemma RollbackParts(dev: Devices, size: nat, s: seq<Ver>, len: nat, m: nat, clean: Option<Clean>, version: nat)
    requires Ordered(s, len) && m <= |s| && (m > 0 ==> s[m - 1].d.state == Stable) && MayDrop(s, version)
    requires Joined(s, m, clean) && Placed(dev, size, Dirties(s[m..]), clean)
    ensures m <= |Dropped(s, version)| && Joined(Dropped(s, version), m, clean)
    ensures Placed(dev, size, Dirties(Dropped(s, version)[m..]), clean)
  {
    var k := |Dropped(s, version)|;
    assert Dropped(s, version) == s[..k];
    DroppedAbove(s, version, m, len);
    RollbackPlaced(dev, size, s, m, clean, k);
    PrefixJoined(s, m, clean, k);
  }

  lemma DroppedAbove(s: seq<Ver>, version: nat, m: nat, len: nat)
    requires m <= |s| && Ordered(s, len) && (m > 0 ==> s[m - 1].d.state == Stable) && MayDrop(s, version)
    ensures m <= |Dropped(s, version)| && (m < |s| && Hides(s[m]) ==> m < |Dropped(s, version)|)
  {
    if m > 0 { DroppedKeeps(s, version, m - 1, len); }
    if m < |s| && Hides(s[m]) { DroppedKeeps(s, version, m, len); }
  }

  lemma RollbackPlaced(dev: Devices, size: nat, s: seq<Ver>, m: nat, clean: Option<Clean>, k: nat)
    requires m <= k <= |s| && Placed(dev, size, Dirties(s[m..]), clean)
    ensures Placed(dev, size, Dirties(s[..k][m..]), clean)
  {
    PrefixMemory(s, m, k);
    PlacedPrefix(dev, size, Dirties(s[m..]), clean, k - m);
  }

  lemma RollbackKeeps(dev: Devices, size: nat, o: Object, o': Object, version: nat)
    requires o.m <= |o.s| && PhaseOk(dev, size, o) && Ordered(o.s, |o.log|) && MayDrop(o.s, version)
    requires o'.s == Dropped(o.s, version) && o'.m == o.m && o'.clean == o.clean && o'.phase == o.phase
    ensures KeepsFlushed(o, o')
  {
    if !o.phase.Idle? { DroppedKeeps(o.s, version, o.phase.n - 1, |o.log|); }
  }

  lemma RollbackStep(dev: Devices, size: nat, o: Object, version: nat)
    requires Inv(dev, size, o) && MayDrop(o.s, version)
    ensures Inv(dev, size, RolledBackTo(o, version))
  {
    hide Rebuilds, Placed, Joined, PhaseOk, Base, MayDrop, Dropped;
    var o' := RolledBackTo(o, version);
    RollbackCore(dev, size, o, version);
    RollbackKeeps(dev, size, o, o', version);
    PhaseKept(dev, size, o, o');
    if !Gone(o) { RollbackPend(dev, size, o, version); }
  }

  lemma RollbackPend(dev: Devices, size: nat, o: Object, version: nat)
    requires Core(dev, size, o) && MayDrop(o.s, version) && !Gone(o) && PendOk(o)
    ensures PendOk(RolledBackTo(o, version))
  {
    hide Core, MayDrop, Dropped, Ordered, Joined, Mirrors;
    var o' := RolledBackTo(o, version);
    CoreParts(dev, size, o);
    CoreJoined(dev, size, o);
    DroppedAbove(o.s, version, o.m, |o.log|);
    if o.m < |o.s| && !Adjacent(o.s, o.m, o.clean) { GapHides(o.s, o.m, o.clean); }
    forall p | p in o'.pend ensures Awaited(o'.s, Reach(o'), p) {
      assert Awaited(o.s, Reach(o), p);
    }
  }

  // ----- the steps of a flush

  lemma NewestIsNotADelete(dev: Devices, size: nat, s: seq<Ver>, m: nat, n: nat, clean: Option<Clean>, plan: Plan)
    requires m < n <= |s| && Describes(plan, size, Dirties(s[m..n]), clean) && plan.hasWrites
    ensures s[n - 1].d.kind != Delete
  {
    var part := Dirties(s[m..n]);
    assert part[|part| - 1] == s[n - 1].d;
    assert Planned(dev, size, plan, clean, Replay(dev, size, part, Base(dev, size, clean)));
  }

  /** When all copies are durable, the planned metadata entry is as good as the versions it replaces. */
  lemma EntryIsRight(dev: Devices, size: nat, o: Object, n: nat, plan: Plan, next: Clean)
    requires o.m < n <= |o.s| && OwnsBlocks(dev, size, o.Memory(), o.clean)
    requires Describes(plan, size, Dirties(o.s[o.m..n]), o.clean) && plan.hasWrites
    requires Copied(dev, dev, Target(plan, o.clean), plan.v) && EntryOf(o, size, n, plan, next)
    ensures Base(dev, size, Some(next)) == Replay(dev, size, Dirties(o.s[o.m..n]), Base(dev, size, o.clean))
    ensures NextEntry(o.s, o.m, n, o.clean, Some(next), size)
    ensures plan.initBitmap ==> exists a :: o.m <= a < n && o.s[a].d.kind == BigWrite
  {
    TargetOwned(plan, size, o.s, o.m, n, o.clean);
    NextFits(dev, size, o.s, o.m, n, o.clean, Target(plan, o.clean));
    FlushedCopyIsTheStack(dev, dev, size, Dirties(o.s[o.m..n]), o.clean, plan, next);
    NewestIsNotADelete(dev, size, o.s, o.m, n, o.clean, plan);
    if plan.initBitmap {
      var part := Dirties(o.s[o.m..n]);
      var k :| 0 <= k < |part| && part[k].kind == BigWrite && plan.cleanLoc == Some(part[k].location);
      assert o.s[o.m + k].d == part[k];
    }
  }

  lemma CoreIgnoresPhase(dev: Devices, size: nat, o: Object, phase: Phase)
    requires Core(dev, size, o)
    ensures Core(dev, size, o.(phase := phase)) && Newest(dev, size, o.(phase := phase)) == Newest(dev, size, o)
  {
  }

  /** Nothing is under way below the versions that are flushed. */
  lemma ReachedBelow(o: Object, n: nat, o': Object)
    requires Ordered(o.s, |o.log|) && PendOk(o) && o.m < n <= |o.s| && NoneLower(o, n)
    requires o'.s == o.s && o'.pend == o.pend && Reach(o') <= n
    ensures PendOk(o')
  {
    forall p | p in o.pend ensures Awaited(o.s, Reach(o'), p) {
      assert Awaited(o.s, Reach(o), p);
      forall i | 0 <= i < n ensures o.s[i].d.version < p {
        if i < n - 1 { OrderedPair(o.s, |o.log|, i, n - 1); }
      }
    }
  }

  lemma BeginStep(dev: Devices, size: nat, o: Object, n: nat, plan: Plan)
    requires Core(dev, size, o) && PendOk(o) && o.m < n <= |o.s| && o.s[n - 1].d.state == Stable && NoneLower(o, n)
    requires Describes(plan, size, Dirties(o.s[o.m..n]), o.clean) && plan.hasWrites
    ensures Inv(dev, size, o.(phase := Copying(n, plan)))
    ensures Newest(dev, size, o.(phase := Copying(n, plan))) == Newest(dev, size, o)
  {
    CoreIgnoresPhase(dev, size, o, Copying(n, plan));
    ReachedBelow(o, n, o.(phase := Copying(n, plan)));
  }

  lemma EraseStep(dev: Devices, size: nat, o: Object, next: Clean)
    requires Inv(dev, size, o) && o.phase.Copying? && o.phase.plan.initBitmap
    requires Copied(dev, dev, Target(o.phase.plan, o.clean), o.phase.plan.v)
    requires EntryOf(o, size, o.phase.n, o.phase.plan, next)
    ensures Inv(dev, size, o.(phase := OldErased(o.phase.n, next)))
    ensures Newest(dev, size, o.(phase := OldErased(o.phase.n, next))) == Newest(dev, size, o)
  {
    hide Core, Copied, Describes, Base, Replay, EntryOf, NextEntry, Awaited;
    EntryFacts(dev, size, o, next);
    CoreIgnoresPhase(dev, size, o, OldErased(o.phase.n, next));
  }

  lemma EntryFacts(dev: Devices, size: nat, o: Object, next: Clean)
    requires Core(dev, size, o) && PhaseOk(dev, size, o) && o.phase.Copying? && o.phase.plan.initBitmap
    requires Copied(dev, dev, Target(o.phase.plan, o.clean), o.phase.plan.v)
    requires EntryOf(o, size, o.phase.n, o.phase.plan, next)
    ensures PhaseOk(dev, size, o.(phase := OldErased(o.phase.n, next)))
  {
    hide Copied, Describes, Base, Replay, EntryOf, NextEntry, Joined, Retained, Mirrors, Based, ValidStack;
    EntryIsRight(dev, size, o, o.phase.n, o.phase.plan, next);
  }

  lemma CommitStep(dev: Devices, size: nat, o: Object, n: nat, next: Option<Clean>)
    requires Core(dev, size, o) && o.m < n <= |o.s| && o.s[n - 1].d.state == Stable
    requires NextEntry(o.s, o.m, n, o.clean, next, size)
    requires Base(dev, size, next) == Replay(dev, size, Dirties(o.s[o.m..n]), Base(dev, size, o.clean))
    requires PendOk(o.(phase := Committed(n, next)))
    ensures Inv(dev, size, o.(phase := Committed(n, next)))
    ensures Newest(dev, size, o.(phase := Committed(n, next))) == Newest(dev, size, o)
  {
    CoreIgnoresPhase(dev, size, o, Committed(n, next));
  }

  lemma DeleteMeansNothing(dev: Devices, size: nat, s: seq<Ver>, m: nat, n: nat, base: Option<Bytes>)
    requires m < n <= |s| && s[n - 1].d.kind == Delete
    ensures Replay(dev, size, Dirties(s[m..n]), base).None?
  {
    var part := Dirties(s[m..n]);
    assert part[|part| - 1] == s[n - 1].d;
  }

  lemma CommitDeleteStep(dev: Devices, size: nat, o: Object, n: nat)
    requires Core(dev, size, o) && PendOk(o) && o.m < n <= |o.s| && o.s[n - 1].d.kind == Delete && NoneLower(o, n)
    ensures Inv(dev, size, o.(phase := Committed(n, None)))
    ensures Newest(dev, size, o.(phase := Committed(n, None))) == Newest(dev, size, o)
  {
    OrderedAt(o.s, |o.log|, n - 1);
    DeleteMeansNothing(dev, size, o.s, o.m, n, Base(dev, size, o.clean));
    ReachedBelow(o, n, o.(phase := Committed(n, None)));
    CommitStep(dev, size, o, n, None);
  }

  lemma SkipDeleteStep(dev: Devices, size: nat, o: Object, n: nat)
    requires Core(dev, size, o) && PendOk(o) && o.phase.Idle? && o.m < n <= |o.s| && o.s[n - 1].d.kind == Delete
    requires o.clean.None?
    requires NoneLower(o, n)
    ensures Inv(dev, size, o.(m := n)) && Newest(dev, size, o.(m := n)) == Newest(dev, size, o)
  {
    hide Placed, Mirrors, Joined;
    CoreParts(dev, size, o);
    CoreJoined(dev, size, o);
    OrderedAt(o.s, |o.log|, n - 1);
    JoinedDeleted(o.s, n);
    PlacedAt(dev, size, o.s, o.m, o.clean, n, o.clean);
    DeletedFrom(dev, size, o.s, o.m, n);
    ReachedBelow(o, n, o.(m := n));
    PutCore(dev, size, o.(m := n));
    PhaseIdle(dev, size, o.(m := n));
  }

  lemma JoinedDeleted(s: seq<Ver>, n: nat)
    requires 0 < n <= |s| && s[n - 1].d.kind == Delete
    ensures Joined(s, n, None)
  {
  }

  lemma ForgetStep(dev: Devices, size: nat, o: Object)
    requires Inv(dev, size, o) && o.phase.Committed?
    ensures var o' := o.(m := o.phase.n, clean := o.phase.next, phase := Idle);
            Inv(dev, size, o') && Newest(dev, size, o') == Newest(dev, size, o)
  {
    hide Placed, Mirrors, Joined, Replay;
    var n, next, o' := o.phase.n, o.phase.next, o.(m := o.phase.n, clean := o.phase.next, phase := Idle);
    CoreParts(dev, size, o);
    FoundCommitted(dev, size, o, n, next);
    CutCommitted(o.s, |o.log|, o.t, o.m, n, o.clean, next, size);
    PlacedCommitted(dev, size, o.s, o.m, n, o.clean, next);
    PutCore(dev, size, o');
    PhaseIdle(dev, size, o');
    assert Reach(o) == n && Reach(o') <= n;
  }

  lemma TrimStep(dev: Devices, size: nat, o: Object, t: nat)
    requires Inv(dev, size, o) && t <= |o.log| && Retained(o.s, o.m, t)
    ensures Inv(dev, size, o.(t := t)) && Newest(dev, size, o.(t := t)) == Newest(dev, size, o)
  {
    TrimCore(dev, size, o, t);
    PhaseKept(dev, size, o, o.(t := t));
  }

  lemma TrimCore(dev: Devices, size: nat, o: Object, t: nat)
    requires Core(dev, size, o) && t <= |o.log| && Retained(o.s, o.m, t)
    ensures Core(dev, size, o.(t := t))
  {
  }

  lemma CrashStep(dev: Devices, size: nat, o: Object, j: nat)
    requires Inv(dev, size, o) && Floor(o) <= j && Cut(o.s, o.t, OnDisk(o), j) && CameBack(Reloaded(o), o.s, j)
    ensures Inv(dev, size, Restarted(o, j)) && Newest(dev, size, Restarted(o, j)) == Newest(dev, size, o)
  {
    hide Inv, Cut, CameBack, Brings;
    var left := RestartInv(dev, size, o, j);
  }

  // ----- all steps

  /** The step keeps the invariant and changes the contents as announced. */
  ghost predicate Right(dev: Devices, size: nat, o: Object, step: Step, dev': Devices, o': Object)
    requires o.m <= |o.s|
  {
    && Inv(dev', size, o')
    && Newest(dev', size, o') == Expected(dev, size, o, step)
  }

  lemma WriteStep(dev: Devices, size: nat, o: Object, step: Step, dev': Devices, o': Object)
    requires Inv(dev, size, o) && Next(dev, size, o, step, dev', o') && step.Write?
    ensures Right(dev, size, o, step, dev', o')
  {
    hide Placed, Joined, Mirrors, PhaseOk, PendOk, Awaited, Emplace, Admissible;
    var d, inst := step.d, step.inst;
    if Renews(o, d) {
      RenewStep(dev, size, o, d, inst);
    } else {
      WriteReady(dev, size, o, d);
      WriteNew(dev, size, o, d, inst);
    }
  }

  lemma WriteReady(dev: Devices, size: nat, o: Object, d: Dirty)
    requires Inv(dev, size, o) && !Renews(o, d) && d.version in o.pend
    requires Gone(o) ==> forall p :: p in o.pend ==> OnTop(o.s, p)
    ensures HasPlace(o.s, d.version) && Free(o.s, Reach(o), d.version)
    ensures forall q :: q in o.pend ==> Awaited(o.s, Reach(o), q)
  {
    hide Mirrors, PhaseOk, Placed, Joined;
    if Gone(o) {
      CoreParts(dev, size, o);
      forall q | q in o.pend ensures Awaited(o.s, Reach(o), q) { BelowTop(o.s, |o.log|, q); }
    }
    assert Awaited(o.s, Reach(o), d.version);
  }

  lemma SubmitStep(dev: Devices, size: nat, o: Object, step: Step, dev': Devices, o': Object)
    requires Inv(dev, size, o) && Next(dev, size, o, step, dev', o') && step.Submit?
    ensures Right(dev, size, o, step, dev', o')
  {
    hide Mirrors, Placed, Joined;
    PhaseKept(dev, size, o, o');
    if !Gone(o) {
      CoreParts(dev, size, o);
      BelowTop(o.s, |o.log|, step.version);
    }
  }

  lemma AdmissibleFresh(dev: Devices, size: nat, o: Object, d: Dirty)
    requires o.m <= |o.s| && Admissible(dev, size, o, d)
    ensures Fresh(d) && d.End() <= size
  {
  }

  lemma StabilityStep(dev: Devices, size: nat, o: Object, step: Step, dev': Devices, o': Object)
    requires Inv(dev, size, o) && Next(dev, size, o, step, dev', o')
    requires step.Stabilize? || step.TakeAlong? || step.Rollback?
    ensures Right(dev, size, o, step, dev', o')
  {
    hide Inv, MayDrop, Dropped, StabilizedAt, Raise;
    if step.Stabilize? {
      StabilizeStep(dev, size, o, step.i);
    } else if step.TakeAlong? {
      TakeAlongStep(dev, size, o, step.i);
    } else {
      RollbackStep(dev, size, o, step.version);
      InvBounds(dev, size, o');
    }
  }

  lemma InvBounds(dev: Devices, size: nat, o: Object)
    requires Inv(dev, size, o)
    ensures o.m <= |o.s| && o.t <= |o.log|
  {
  }

  lemma EraseOldStep(dev: Devices, size: nat, o: Object, step: Step, dev': Devices, o': Object)
    requires Inv(dev, size, o) && Next(dev, size, o, step, dev', o') && step.EraseOld?
    ensures Right(dev, size, o, step, dev', o')
  {
    EraseStep(dev, size, o, step.next);
  }

  /** The new metadata entry is written over the old one, or after the old one was zeroed. */
  lemma CommitEntryStep(dev: Devices, size: nat, o: Object, step: Step, dev': Devices, o': Object)
    requires Inv(dev, size, o) && Next(dev, size, o, step, dev', o') && step.CommitEntry?
    ensures Right(dev, size, o, step, dev', o')
  {
    hide Mirrors, Placed, Joined, Awaited, NextEntry, EntryOf, Copied, Describes, Replay, Base;
    OwnsOfPlaced(dev, size, o.Memory(), o.clean);
    EntryReady(dev, size, o, step.next);
    CommitStep(dev, size, o, o.phase.n, Some(step.next));
  }

  lemma OwnsOfPlaced(dev: Devices, size: nat, stack: seq<Dirty>, clean: Option<Clean>)
    requires Placed(dev, size, stack, clean)
    ensures OwnsBlocks(dev, size, stack, clean)
  {
  }

  lemma EntryReady(dev: Devices, size: nat, o: Object, next: Clean)
    requires o.m <= |o.s| && OwnsBlocks(dev, size, o.Memory(), o.clean) && PhaseOk(dev, size, o)
    requires || (o.phase.OldErased? && next == o.phase.planned)
             || (&& o.phase.Copying? && Copied(dev, dev, Target(o.phase.plan, o.clean), o.phase.plan.v)
                 && EntryOf(o, size, o.phase.n, o.phase.plan, next))
    ensures o.m < o.phase.n <= |o.s| && o.s[o.phase.n - 1].d.state == Stable
    ensures Base(dev, size, Some(next)) == Replay(dev, size, Dirties(o.s[o.m..o.phase.n]), Base(dev, size, o.clean))
    ensures NextEntry(o.s, o.m, o.phase.n, o.clean, Some(next), size)
  {
    if o.phase.Copying? { EntryIsRight(dev, size, o, o.phase.n, o.phase.plan, next); }
  }

  lemma FlushStep(dev: Devices, size: nat, o: Object, step: Step, dev': Devices, o': Object)
    requires Inv(dev, size, o) && Next(dev, size, o, step, dev', o')
    requires step.BeginFlush? || step.CopyData? || step.Forget?
    ensures Right(dev, size, o, step, dev', o')
  {
    if step.BeginFlush? {
      BeginStep(dev, size, o, step.n, step.plan);
    } else if step.CopyData? {
      CopyStep(dev, dev', size, o);
    } else {
      ForgetStep(dev, size, o);
    }
  }

  lemma FlushDeleteStep(dev: Devices, size: nat, o: Object, step: Step, dev': Devices, o': Object)
    requires Inv(dev, size, o) && Next(dev, size, o, step, dev', o') && (step.CommitDelete? || step.SkipDelete?)
    ensures Right(dev, size, o, step, dev', o')
  {
    hide Core, PhaseOk, PendOk, NoneLower, Replay;
    if step.CommitDelete? {
      CommitDeleteStep(dev, size, o, step.n);
    } else {
      SkipDeleteStep(dev, size, o, step.n);
    }
  }

  lemma OutsideStep(dev: Devices, size: nat, o: Object, step: Step, dev': Devices, o': Object)
    requires Inv(dev, size, o) && Next(dev, size, o, step, dev', o') && (step.Elsewhere? || step.Trim? || step.Crash?)
    ensures Right(dev, size, o, step, dev', o')
  {
    if step.Elsewhere? {
      ElsewhereStep(dev, dev', size, o);
    } else if step.Trim? {
      TrimStep(dev, size, o, step.t);
    } else {
      CrashStep(dev, size, o, step.j);
    }
  }

  /** Every step of a run keeps the invariant and changes the contents of the object exactly as it
      says: writes apply, a delete removes, a rollback restores, and flushing, trimming, crashing
      and the work on other objects change nothing. */
  lemma StepIsRight(dev: Devices, size: nat, o: Object, step: Step, dev': Devices, o': Object)
    requires Inv(dev, size, o) && Next(dev, size, o, step, dev', o')
    ensures Right(dev, size, o, step, dev', o')
  {
    hide Inv, Right;
    if step.Write? {
      WriteStep(dev, size, o, step, dev', o');
    } else if step.Submit? {
      SubmitStep(dev, size, o, step, dev', o');
    } else if step.Remove? {
      RemoveStep(dev, size, o, step, dev', o');
    } else if step.Stabilize? || step.TakeAlong? || step.Rollback? {
      StabilityStep(dev, size, o, step, dev', o');
    } else if step.EraseOld? {
      EraseOldStep(dev, size, o, step, dev', o');
    } else if step.CommitEntry? {
      CommitEntryStep(dev, size, o, step, dev', o');
    } else if step.BeginFlush? || step.CopyData? || step.Forget? {
      FlushStep(dev, size, o, step, dev', o');
    } else if step.CommitDelete? || step.SkipDelete? {
      FlushDeleteStep(dev, size, o, step, dev', o');
    } else {
      OutsideStep(dev, size, o, step, dev', o');
    }
  }

  /** A write that is newer than all others applies over what was there. */
  lemma WriteOnTop(dev: Devices, size: nat, o: Object, d: Dirty, inst: bool)
    requires Inv(dev, size, o) && OnTop(o.s, d.version)
    ensures Expected(dev, size, o, Write(d, inst)) == Apply(dev, size, d, Newest(dev, size, o))
  {
    hide Mirrors, Placed, Joined, PhaseOk, PendOk, Apply;
    var x := o.Memory();
    if x != [] {
      assert x[|x| - 1] == o.s[|o.s| - 1].d;
      EmplaceLast(x, d);
    }
    assert Emplace(x, d) == x + [d] && (x + [d])[..|x|] == x;
  }

  lemma MemoryAt(s: seq<Ver>, m: nat)
    requires m <= |s|
    ensures |Dirties(s[m..])| == |s| - m && forall j :: 0 <= j < |s| - m ==> Dirties(s[m..])[j] == s[m + j].d
  {
  }

  /** A big write that is journaled late, below a newer big write or a delete, changes no contents. */
  lemma LateWriteIsHidden(dev: Devices, size: nat, o: Object, d: Dirty, inst: bool, i: nat)
    requires Inv(dev, size, o) && forall j :: 0 <= j < |o.s| ==> o.s[j].d.version != d.version
    requires o.m <= i < |o.s| && o.s[i].d.version > d.version && Barrier(o.s[i].d)
    ensures Expected(dev, size, o, Write(d, inst)) == Newest(dev, size, o)
  {
    hide Core, PhaseOk, PendOk, Emplace, Ordered, Replay, Base, Increasing, Dirties;
    CoreParts(dev, size, o);
    var x := o.Memory();
    MemoryIncreasing(o.s, |o.log|, o.m);
    MemoryAt(o.s, o.m);
    HiddenEmplace(dev, size, x, d, i - o.m, Base(dev, size, o.clean));
  }

  lemma HiddenEmplace(dev: Devices, size: nat, x: seq<Dirty>, d: Dirty, k: nat, base: Option<Bytes>)
    requires Increasing(x) && (forall j :: 0 <= j < |x| ==> x[j].version != d.version)
    requires k < |x| && x[k].version > d.version && Barrier(x[k])
    ensures Replay(dev, size, Emplace(x, d), base) == Replay(dev, size, x, base)
  {
    hide Emplace, Replay, Increasing;
    var p := EmplaceSplit(x, d);
    SuffixKept(x, d, p, k);
    HiddenBelow(dev, size, x, k, base, base);
    HiddenBelow(dev, size, x[..p] + [d] + x[p..], k + 1, base, base);
  }

  lemma SuffixKept(x: seq<Dirty>, d: Dirty, p: nat, k: nat)
    requires p <= k < |x|
    ensures var y := x[..p] + [d] + x[p..]; |y| == |x| + 1 && y[k + 1] == x[k] && y[k + 1..] == x[k..]
  {
  }

  // ----- whole runs

  datatype Moment = Moment(dev: Devices, o: Object)

  ghost predicate Run(size: nat, ms: seq<Moment>, steps: seq<Step>) {
    && |ms| == |steps| + 1 && ms[0].o == NewObject
    && forall i :: 0 <= i < |steps| ==>
      && ms[i].o.m <= |ms[i].o.s| && ms[i].o.t <= |ms[i].o.log|
      && Next(ms[i].dev, size, ms[i].o, steps[i], ms[i + 1].dev, ms[i + 1].o)
  }

  lemma {:induction false} RunKeepsInv(size: nat, ms: seq<Moment>, steps: seq<Step>, i: nat)
    requires Run(size, ms, steps) && i < |ms|
    ensures Inv(ms[i].dev, size, ms[i].o)
  {
    hide Inv, Next, Expected, Newest;
    if i == 0 {
      NewObjectInv(ms[0].dev, size);
    } else {
      RunKeepsInv(size, ms, steps, i - 1);
      StepIsRight(ms[i - 1].dev, size, ms[i - 1].o, steps[i - 1], ms[i].dev, ms[i].o);
    }
  }

  /** Crash consistency over runs: after any number of writes, deletes, stabilizations, rollbacks,
      flush steps, trims and earlier crashes, replaying what is on disk over the metadata entry
      that is on disk gives the contents that the last acknowledged steps left. */
  lemma CrashAnywhere(size: nat, ms: seq<Moment>, steps: seq<Step>, i: nat)
    requires Run(size, ms, steps) && i < |ms|
    ensures ms[i].o.t <= |ms[i].o.log| && ms[i].o.m <= |ms[i].o.s|
    ensures Replay(ms[i].dev, size, Reloaded(ms[i].o), Base(ms[i].dev, size, OnDisk(ms[i].o)))
         == Newest(ms[i].dev, size, ms[i].o)
    ensures i > 0 ==>
      && ms[i - 1].o.m <= |ms[i - 1].o.s|
      && Newest(ms[i].dev, size, ms[i].o) == Expected(ms[i - 1].dev, size, ms[i - 1].o, steps[i - 1])
  {
    hide Mirrors, PhaseOk, PendOk, Next, Brings, Placed, Joined, Expected, Cut, CameBack;
    RunKeepsInv(size, ms, steps, i);
    var j, left := RestartPreservesContents(ms[i].dev, size, ms[i].o);
    if i > 0 {
      RunKeepsInv(size, ms, steps, i - 1);
      StepIsRight(ms[i - 1].dev, size, ms[i - 1].o, steps[i - 1], ms[i].dev, ms[i].o);
    }
  }
}
