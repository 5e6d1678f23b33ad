/** Journals whose order does what the version numbers do not say: when a rollback or a late write gives
    another outcome after a restart than `dirty_db` had, and when it does not. */
module Disorder {
  import opened Basics
  import opened Overlay
  import opened Versions
  import opened Replayed
  import opened Mirror
  import opened Marking
  import opened Placing
  import opened States
  import opened Tracking
  import opened Deletes
  import opened Recovery

  // ----- rollbacks over instant writes

  /** After a restart nothing above the version is left. */
  ghost predicate Undone(log: seq<Entry>, version: nat) {
    forall c: Option<nat>, y :: y in ReplayLog(log + [JRollback(version)], c) ==> y.version <= version
  }

  /** The journal has made nothing above the version stable. */
  predicate Unsettled(s: seq<Ver>, version: nat) {
    forall i :: 0 <= i < |s| && JournalStable(s[i]) ==> s[i].d.version <= version
  }

  lemma UndoneIf(log: seq<Entry>, s: seq<Ver>, version: nat)
    requires Mirrors(log, s) && Tracked(log, s) && Unsettled(s, version)
    ensures Undone(log, version)
  {
    hide ReplayLog, Mirrors, Tracked, Rebuilds, Ordered, RolledBack, Traces, Increasing, Unsettled, Regular;
    forall c: Option<nat>, y | y in ReplayLog(log + [JRollback(version)], c) ensures y.version <= version {
      var x := ReplayLog(log, c);
      WholeLog(log, s, c);
      RebuildsParts(x, s, 0, c);
      forall m | 0 <= m < |x| && x[m].version > version ensures x[m].state == Synced {
        UnsettledAbove(x, s, |log|, c, version, m);
      }
      var h := RolledBackSplit(x, version);
      ReplayMore(log, JRollback(version), c);
    }
  }

  lemma UnsettledAbove(x: seq<Dirty>, s: seq<Ver>, n: nat, c: Option<nat>, version: nat, m: nat)
    requires Ordered(s, n) && AllKnown(x, s, 0, c) && Traces(x, s, 0, c) && Unsettled(s, version)
    requires m < |x| && x[m].version > version
    ensures x[m].state == Synced
  {
    hide Ordered, AllKnown, Traces;
    var i := Source(x, s, 0, c, m);
    UnsettledOpen(s, n, version, i);
    TracesAt(x, s, 0, c, i);
  }

  lemma UnsettledOpen(s: seq<Ver>, n: nat, version: nat, i: nat)
    requires Ordered(s, n) && Unsettled(s, version) && i < |s| && s[i].d.version > version
    ensures Open(s, i)
  {
    forall j | i <= j < |s| ensures s[j].d.kind != Delete { if i < j { OrderedPair(s, n, i, j); } }
  }

  lemma {:induction false} RolledBackKeeps(x: seq<Dirty>, version: nat, y: Dirty)
    requires y in x && y.state == Stable
    ensures y in RolledBack(x, version)
    decreases |x|
  {
    if !(Last(x).version <= version || IsInFlight(Last(x).state) || Last(x).state == Stable) {
      assert x == Front(x) + [Last(x)];
      RolledBackKeeps(Front(x), version, y);
    }
  }

  lemma {:induction false} TopStable(s: seq<Ver>, i: nat) returns (k: nat)
    requires i < |s| && JournalStable(s[i])
    ensures i <= k < |s| && JournalStable(s[k]) && forall j :: k < j < |s| ==> !JournalStable(s[j])
    decreases |s|
  {
    k := |s| - 1;
    if !JournalStable(Last(s)) {
      k := TopStable(Front(s), i);
      assert forall j :: 0 <= j < |s| - 1 ==> Front(s)[j] == s[j];
    }
  }

  /** The newest version that the journal has made stable is replayed as stable over what is below it. */
  lemma TopComesBack(x: seq<Dirty>, s: seq<Ver>, n: nat, k: nat, before: nat) returns (m: nat)
    requires Ordered(s, n) && k < |s| && JournalStable(s[k]) && forall j :: k < j < |s| ==> !JournalStable(s[j])
    requires before + 1 == s[k].d.version && Rebuilds(x, s, 0, Some(before)) && Traces(x, s, 0, Some(before))
    ensures m < |x| && x[m].version == s[k].d.version && x[m].state == Stable
  {
    hide Ordered, Traces, Increasing, AllKnown, NoneWiped;
    var c: Option<nat> := Some(before);
    assert Accounted(x, s, k, 0, c);
    if Veiled(x, s[k].d.version) {
      var g :| 0 <= g < |x| && Veils(x[g], s[k].d.version);
      UnstableOver(x, s, n, c, k, g);
    }
    m :| 0 <= m < |x| && x[m].version == s[k].d.version;
    if s[k].d.kind == Delete {
      OldCalm(s, n, k, before);
      TracesDelete(x, s, 0, c, k, m);
    } else {
      TracesAt(x, s, 0, c, k);
    }
  }

  lemma UnstableOver(x: seq<Dirty>, s: seq<Ver>, n: nat, c: Option<nat>, k: nat, g: nat)
    requires Ordered(s, n) && AllKnown(x, s, 0, c) && Traces(x, s, 0, c) && k < |s| && g < |x|
    requires forall j :: k < j < |s| ==> !JournalStable(s[j])
    ensures x[g].version > s[k].d.version ==> x[g].state == Synced
  {
    hide Ordered, AllKnown, Traces;
    var i := Source(x, s, 0, c, g);
    if x[g].version > s[k].d.version {
      NotUnder(s, n, i, k);
      TracesAt(x, s, 0, c, i);
    }
  }

  lemma OldCalm(s: seq<Ver>, n: nat, q: nat, before: nat)
    requires Ordered(s, n) && q < |s| && s[q].d.version == before + 1
    ensures Calm(s, q, 0, Some(before))
  {
    hide Ordered;
    forall i | 0 <= i < q ensures s[i].d.version < s[q].d.version { OrderedPair(s, n, i, q); }
  }

  lemma UndoneOnlyIf(log: seq<Entry>, s: seq<Ver>, version: nat)
    requires Mirrors(log, s) && Tracked(log, s) && Undone(log, version)
    ensures Unsettled(s, version)
  {
    hide ReplayLog, Mirrors, Ordered, RolledBack, Tracked, Rebuilds, Traces, Regular;
    forall i | 0 <= i < |s| && JournalStable(s[i]) ensures s[i].d.version <= version {
      var k := TopStable(s, i);
      WholeLog(log, s, None);
      OrderedAt(s, |log|, k);
      var before: nat := s[k].d.version - 1;
      var c: Option<nat> := Some(before);
      WholeLog(log, s, c);
      var x := ReplayLog(log, c);
      var m := TopComesBack(x, s, |log|, k, before);
      RolledBackKeeps(x, version, x[m]);
      ReplayMore(log, JRollback(version), c);
      if i < k { OrderedPair(s, |log|, i, k); }
    }
  }

  /** A rollback is effective if and only if the journal has made nothing above the version stable.
      An instant write counts as soon as it is journaled, while `dirty_db` still waits with it. */
  lemma RollbackEffectiveIff(log: seq<Entry>, s: seq<Ver>, version: nat)
    requires Mirrors(log, s) && Tracked(log, s)
    ensures Undone(log, version) <==> Unsettled(s, version)
  {
    if Unsettled(s, version) { UndoneIf(log, s, version); }
    if Undone(log, version) { UndoneOnlyIf(log, s, version); }
  }

  lemma ReplayTwo(a: Entry, b: Entry, c: Option<nat>)
    ensures ReplayLog([a, b], c) == ReplayEntry(ReplayEntry([], c, a), c, b)
  {
    hide ReplayEntry, ReplayLog;
    assert [] + [a] == [a] && [a] + [b] == [a, b];
    ReplayMore([], a, c);
    ReplayMore([a], b, c);
    assert ReplayLog([], c) == [] by { ReplayNone(c); }
  }

  lemma ReplayNone(c: Option<nat>)
    ensures ReplayLog([], c) == []
  {
  }

  lemma ReplayThree(a: Entry, b: Entry, e: Entry, c: Option<nat>)
    ensures ReplayLog([a, b, e], c) == ReplayEntry(ReplayEntry(ReplayEntry([], c, a), c, b), c, e)
  {
    hide ReplayEntry, ReplayLog;
    assert [a, b] + [e] == [a, b, e];
    ReplayTwo(a, b, c);
    ReplayMore([a, b], e, c);
  }

  lemma FirstBig(d: Dirty, inst: bool, c: Option<nat>)
    requires Fresh(d) && d.kind == BigWrite && !Old(d, c)
    ensures ReplayEntry([], c, JBig(d, inst)) == [if inst then d.(state := Stable) else d]
  {
    assert Emplace([], d) == [] + [d] == [d];
    IndexOfLast([d]);
    assert From([d][0 := Marked(d)], 0) == [Marked(d)];
  }

  /** A plain write, an instant one over it, and a rollback of both that `dirty_db` carries out: after
      a restart both are back, and stable. */
  lemma RolledBackInstantReturns(d1: Dirty, d2: Dirty)
    requires Fresh(d1) && d1.version == 1 && d1.kind == BigWrite && Fresh(d2) && d2.version == 2
    requires d2.kind == SmallWrite
    ensures ReplayLog([JBig(d1, false), JSmall(d2, true), JRollback(0)], None)
         == [d1.(state := Stable), d2.(state := Stable)]
    ensures RolledBack([d1, d2.(instant := true)], 0) == []
    ensures MarkStable([d1, d2.(instant := true)], 2) == [d1, d2.(instant := true)]
  {
    hide MarkStable, ReplayLog, Emplace, RolledBack;
    ReplayThree(JBig(d1, false), JSmall(d2, true), JRollback(0), None);
    FirstBig(d1, false, None);
    AppendTwo(d1, d2);
    MarkUpper(d1, d2);
    MarkUpper(d1, d2.(instant := true));
    StableStays(Marked(d1), Marked(d2));
    RolledBackBoth(d1, d2.(instant := true));
  }

  lemma AppendTwo(d1: Dirty, d2: Dirty)
    requires d1.version < d2.version
    ensures Emplace([d1], d2) == [d1, d2]
  {
    assert [d1] + [d2] == [d1, d2];
  }

  lemma MarkUpper(a: Dirty, b: Dirty)
    requires a.version == 1 && a.kind == BigWrite && a.state == Synced
    requires b.version == 2 && b.kind == SmallWrite && b.state == Synced
    ensures MarkStable([a, b], 2) == if b.instant then [a, b] else [Marked(a), Marked(b)]
  {
    var x := [a, b];
    var x' := [a, Marked(b)];
    IndexOfLast(x);
    assert x[0].state != Stable;
    assert x[1 := Marked(b)] == x';
    assert From(x'[0 := Marked(a)], 0) == [Marked(a), Marked(b)];
    assert Walk(x', 0) == [Marked(a), Marked(b)];
  }

  lemma StableStays(a: Dirty, b: Dirty)
    requires b.state == Stable
    ensures RolledBack([a, b], 0) == [a, b]
  {
  }

  lemma RolledBackBoth(a: Dirty, b: Dirty)
    requires a.version > 0 && b.version > 0 && a.state == Synced && b.state == Synced
    ensures RolledBack([a, b], 0) == []
  {
    assert [a, b][..1] == [a] && [a][..0] == [];
    assert RolledBack([], 0) == [];
    assert RolledBack([a], 0) == [];
  }

  // ----- the contents after a late write

  /** Replaying the entry of the write gives the contents of its place among the replayed versions. */
  ghost predicate Fits(log: seq<Entry>, d: Dirty, inst: bool, k: nat, c: Option<nat>, dev: Devices, size: nat,
          base: Option<Bytes>)
    requires k <= |log|
  {
    var x := ReplayLog(log[k..], c);
    Replay(dev, size, ReplayEntry(x, c, JBig(d, inst)), base)
      == Replay(dev, size, if Old(d, c) then x else Emplace(x, d), base)
  }

  ghost predicate AlwaysFits(log: seq<Entry>, d: Dirty, inst: bool) {
    forall k: nat, c: Option<nat>, dev: Devices, size: nat, base: Option<Bytes> ::
      k <= |log| ==> Fits(log, d, inst, k, c, dev, size, base)
  }

  /** The newest version is a delete with a higher number. */
  predicate UnderDelete(s: seq<Ver>, version: nat) {
    s != [] && Last(s).d.kind == Delete && Last(s).d.version >= version
  }

  /** Stabilizing does not change what is read. */
  lemma ThinnedContents(dev: Devices, size: nat, x: seq<Dirty>, x': seq<Dirty>, top: nat, base: Option<Bytes>)
    requires Thinned(x, x', top)
    ensures Replay(dev, size, x', base) == Replay(dev, size, x, base)
  {
    var off := |x| - |x'|;
    var y := x[off..];
    forall i | 0 <= i < |y| ensures x'[i] == y[i].(state := x'[i].state) {
      assert MayMark(x[|x| - |x'| + i], x'[i], top);
    }
    ReplaySameButState(dev, size, y, x', base);
    if off > 0 {
      assert MayMark(x[|x| - |x'| + 0], x'[0], top);
      HiddenBelow(dev, size, x, off, base, base);
    } else {
      assert y == x;
    }
  }

  /** Only a delete can be the newest replayed version when it is the newest of the history. */
  lemma DeleteOnTop(x: seq<Dirty>, s: seq<Ver>, n: nat, k: nat, c: Option<nat>, version: nat)
    requires Ordered(s, n) && Rebuilds(x, s, k, c) && x != [] && Last(x).kind == Delete && Last(x).version >= version
    ensures UnderDelete(s, version)
  {
    hide Ordered, Known, Rebuilds;
    RebuildsParts(x, s, k, c);
    var q := Source(x, s, k, c, |x| - 1);
    var l := |s| - 1;
    assert c.Some? by { assert Wipes(s[q], k); }
    if q < l { OrderedPair(s, n, q, l); }
    NewestThere(x, s, k, c);
  }

  /** Over a clean version the newest version of the history is there or hidden by a higher one. */
  lemma NewestThere(x: seq<Dirty>, s: seq<Ver>, k: nat, c: Option<nat>)
    requires Increasing(x) && AllAccounted(x, s, k, c) && x != [] && s != [] && Here(Last(s), k, c) && c.Some?
    ensures Last(x).version >= Last(s).d.version
  {
    assert Accounted(x, s, |s| - 1, k, c);
  }

  lemma FitsUnless(log: seq<Entry>, s: seq<Ver>, d: Dirty, inst: bool, k: nat, c: Option<nat>, dev: Devices, size: nat,
          base: Option<Bytes>)
    requires Mirrors(log, s) && k <= |log| && Fresh(d) && d.kind == BigWrite && !UnderDelete(s, d.version)
    requires forall i :: 0 <= i < |s| ==> s[i].d.version != d.version
    ensures Fits(log, d, inst, k, c, dev, size, base)
  {
    hide ReplayLog, Ordered, Rebuilds, Emplace, MarkStable, Replay;
    var x := ReplayLog(log[k..], c);
    assert Rebuilds(x, s, k, c);
    RebuildsParts(x, s, k, c);
    if x != [] && Last(x).kind == Delete && Last(x).version >= d.version { DeleteOnTop(x, s, |log|, k, c, d.version); }
    if inst && !Old(d, c) {
      EmplaceDone(x, s, d, k, c);
      var z := Emplace(x, d);
      var top := if z == [] then d.version else Last(z).version + d.version;
      MarkThins(z, d.version, top);
      ThinnedContents(dev, size, z, MarkStable(z, d.version), top, base);
    }
  }

  lemma EmplaceDone(x: seq<Dirty>, s: seq<Ver>, d: Dirty, k: nat, c: Option<nat>)
    requires Increasing(x) && AllKnown(x, s, k, c) && Fresh(d)
    requires forall i :: 0 <= i < |s| ==> s[i].d.version != d.version
    ensures Increasing(Emplace(x, d)) && AllDone(Emplace(x, d))
  {
    hide Emplace;
    KnownDone(x, s, k, c);
    forall m | 0 <= m < |x| ensures x[m].version != d.version { var i := Source(x, s, k, c, m); }
    var e := EmplaceSplit(x, d);
    LargerStack(x, d, e);
    forall m | 0 <= m < |Emplace(x, d)| ensures Done(Emplace(x, d)[m]) { PickAt(x, d, e, m); }
  }

  /** Below a delete it does not fit: the replay starts the object anew. */
  lemma RevivedUnder(log: seq<Entry>, s: seq<Ver>, d: Dirty, inst: bool, dev: Devices)
    requires Mirrors(log, s) && Fresh(d) && d.kind == BigWrite && UnderDelete(s, d.version)
    requires forall i :: 0 <= i < |s| ==> s[i].d.version != d.version
    ensures !Fits(log, d, inst, 0, Some(0), dev, 0, None)
  {
    hide ReplayLog, Ordered, Rebuilds, Emplace, MarkStable;
    var c: Option<nat> := Some(0);
    var x := ReplayLog(log[0..], c);
    assert Rebuilds(x, s, 0, c);
    DeleteThereToo(x, s, |log|);
    OverDelete(x, s, |log|, 0, c);
    FirstBig(d, inst, c);
    EmplaceLast(x, d);
    var z := Emplace(x, d);
    assert z[|z| - 1] == Last(x);
  }

  lemma DeleteThereToo(x: seq<Dirty>, s: seq<Ver>, n: nat)
    requires Ordered(s, n) && s != [] && Last(s).d.kind == Delete && Rebuilds(x, s, 0, Some(0))
    ensures x != []
  {
    OrderedAt(s, n, |s| - 1);
    assert Here(s[|s| - 1], 0, Some(0)) && Accounted(x, s, |s| - 1, 0, Some(0));
  }

  /** A big write that is journaled late has the contents of its place after every restart, if and only
      if the newest version is not a delete with a higher number. */
  lemma LateWriteFitsIff(log: seq<Entry>, s: seq<Ver>, d: Dirty, inst: bool)
    requires Mirrors(log, s) && Fresh(d) && d.kind == BigWrite
    requires forall i :: 0 <= i < |s| ==> s[i].d.version != d.version
    ensures AlwaysFits(log, d, inst) <==> !UnderDelete(s, d.version)
  {
    hide Mirrors, Fits, UnderDelete;
    if UnderDelete(s, d.version) {
      var dev := Devices([], []);
      RevivedUnder(log, s, d, inst, dev);
    } else {
      forall k: nat, c: Option<nat>, dev: Devices, size: nat, base: Option<Bytes> | k <= |log|
        ensures Fits(log, d, inst, k, c, dev, size, base)
      {
        FitsUnless(log, s, d, inst, k, c, dev, size, base);
      }
    }
  }

  /** A big write that is journaled after a delete with a higher number brings the object back. */
  lemma LateWriteRevives(d1: Dirty, d2: Dirty)
    requires Fresh(d1) && d1.version == 1 && d1.kind == BigWrite && Fresh(d2) && d2.version == 2 && d2.kind == Delete
    ensures ReplayLog([JDelete(d2), JBig(d1, false)], None) == [d1]
  {
    ReplayTwo(JDelete(d2), JBig(d1, false), None);
    FirstBig(d1, false, None);
  }

  // ----- writes over a flushed delete

  lemma DeleteFirst(u: Dirty, c: nat)
    requires Fresh(u) && u.kind == Delete
    ensures ReplayEntry([], Some(c), JDelete(u)) == if c < u.version then [Marked(u)] else []
  {
    hide MarkStable;
    assert Emplace([], u) == [] + [u];
    MarkDelete([], u);
  }

  /** A write on top, one that is ignored, and a rollback of the former. */
  lemma HighNext(x: seq<Dirty>, high: Dirty, low: Dirty)
    requires Fresh(high) && high.kind == BigWrite && low.kind == BigWrite && low.version < high.version
    requires x == [] || (|x| == 1 && x[0].version < high.version && x[0].state == Stable)
    ensures var c: Option<nat> := Some(low.version);
            var y := ReplayEntry(x, c, JBig(high, false));
            ReplayEntry(ReplayEntry(y, c, JBig(low, false)), c, JRollback(low.version)) == x
  {
    var c: Option<nat> := Some(low.version);
    var y := x + [high];
    assert Emplace(x, high) == y;
    assert ReplayEntry(x, c, JBig(high, false)) == y;
    assert ReplayEntry(y, c, JBig(low, false)) == y;
    assert y[..|y| - 1] == x && y[|y| - 1] == high;
    assert RolledBack(x, low.version) == x;
    assert RolledBack(y, low.version) == x;
  }

  lemma ReplayDeleted(dev: Devices, size: nat, u: Dirty, base: Option<Bytes>)
    requires u.kind == Delete
    ensures Replay(dev, size, [Marked(u)], base) == None && Replay(dev, size, [], base) == base
  {
  }

  /** Two writes over a flushed delete `u`, the higher one journaled first, the lower one flushed, and the
      higher one rolled back after that: the lower one is lost if and only if the delete is numbered
      above it. */
  lemma FlushedWriteLostIff(u: Dirty, high: Dirty, low: Dirty, dev: Devices, size: nat, base: Option<Bytes>)
    requires Fresh(u) && u.kind == Delete && Fresh(high) && high.kind == BigWrite && Fresh(low) && low.kind == BigWrite
    requires u.version < high.version && low.version < high.version && low.version != u.version && base.Some?
    ensures var log := [JDelete(u), JBig(high, false), JBig(low, false), JRollback(low.version)];
            Replay(dev, size, ReplayLog(log, Some(low.version)), base) == if low.version < u.version then None else base
  {
    hide ReplayLog, ReplayEntry, Replay;
    var c: Option<nat> := Some(low.version);
    ReplayFour(JDelete(u), JBig(high, false), JBig(low, false), JRollback(low.version), c);
    var x := if low.version < u.version then [Marked(u)] else [];
    DeleteFirst(u, low.version);
    HighNext(x, high, low);
    assert Replay(dev, size, x, base) == (if low.version < u.version then None else base) by {
      ReplayDeleted(dev, size, u, base);
    }
  }

  // ----- plain writes below stable ones

  ghost predicate NothingOver(x: seq<Dirty>, version: nat) {
    forall m, g :: 0 <= m < g < |x| && x[m].version == version ==> x[g].state != Stable
  }

  /** No replay has something stable above the version, on which the flusher would throw. */
  ghost predicate NeverUnder(log: seq<Entry>, version: nat) {
    forall k: nat, c: Option<nat> {:trigger ReplayLog(log[k..], c)} :: k <= |log| ==>
      NothingOver(ReplayLog(log[k..], c), version)
  }

  /** A plain write that is journaled late never comes back below a stable version, if and only if the
      journal has made nothing above it stable. */
  lemma LatePlainIff(log: seq<Entry>, s: seq<Ver>, d: Dirty)
    requires Mirrors(log, s) && Tracked(log, s) && Fresh(d) && d.kind == BigWrite && HasPlace(s, d.version)
    ensures NeverUnder(log + [JBig(d, false)], d.version) <==> Tidy(s, d, false)
  {
    hide Mirrors, Tracked, Tidy, HasPlace;
    if Tidy(s, d, false) { NeverUnderIf(log, s, d); }
    if !Tidy(s, d, false) { UnderStable(log, s, d); }
  }

  lemma NeverUnderIf(log: seq<Entry>, s: seq<Ver>, d: Dirty)
    requires Mirrors(log, s) && Tracked(log, s) && Fresh(d) && d.kind == BigWrite && HasPlace(s, d.version)
    requires Tidy(s, d, false)
    ensures NeverUnder(log + [JBig(d, false)], d.version)
  {
    hide ReplayLog, Rebuilds, Traces, Regular, Ordered, Insert, HasPlace, Tidy, Place;
    var log', s', n := log + [JBig(d, false)], Insert(s, d, false, |log|), |log|;
    WriteCarries(s, d, false, n);
    MirrorsSnoc(log, s, JBig(d, false), s');
    WriteTracks(s, d, false, n);
    InsertOrdered(s, d, false, n);
    TrackedSnoc(log, s, JBig(d, false), s');
    forall k: nat, c: Option<nat> | k <= |log'| ensures NothingOver(ReplayLog(log'[k..], c), d.version) {
      var x := ReplayLog(log'[k..], c);
      assert Rebuilds(x, s', k, c) && Traces(x, s', k, c);
      RebuildsParts(x, s', k, c);
      forall m, g | 0 <= m < g < |x| && x[m].version == d.version ensures x[g].state != Stable {
        OrderIndex(x, m, g);
        OverTidy(x, s, d, n, k, c, g);
      }
    }
  }

  lemma OverTidy(x: seq<Dirty>, s: seq<Ver>, d: Dirty, n: nat, k: nat, c: Option<nat>, g: nat)
    requires Ordered(s, n) && Regular(s, n) && Tidy(s, d, false) && HasPlace(s, d.version) && Fresh(d)
    requires d.kind == BigWrite
    requires AllKnown(x, Insert(s, d, false, n), k, c) && Traces(x, Insert(s, d, false, n), k, c)
    requires g < |x| && x[g].version > d.version
    ensures x[g].state != Stable
  {
    hide Ordered, AllKnown, Traces, Place, Insert, HasPlace, Open, Bottomed;
    var p, s' := Place(s, d.version), Insert(s, d, false, n);
    var i := Source(x, s', k, c, g);
    InsertOrdered(s, d, false, n);
    NotUnder(s', n + 1, i, p);
    NewOpen(s, d, false, n);
    WriteRegular(s, d, false, n);
    assert i > p && Falls(s'[p], s'[i]);
    OpenAbove(s', p, i);
    TracesAt(x, s', k, c, i);
  }

  lemma OpenAbove(s: seq<Ver>, p: nat, i: nat)
    requires Open(s, p) && p <= i
    ensures Open(s, i)
  {
  }

  /** Otherwise it does, for instance in a replay of the whole journal. */
  lemma UnderStable(log: seq<Entry>, s: seq<Ver>, d: Dirty)
    requires Mirrors(log, s) && Tracked(log, s) && Fresh(d) && d.kind == BigWrite && HasPlace(s, d.version)
    requires !Tidy(s, d, false)
    ensures !NeverUnder(log + [JBig(d, false)], d.version)
  {
    hide ReplayLog, Rebuilds, Traces, Regular, Ordered, HasPlace, Tidy, Emplace, Mirrors, Tracked, NothingOver;
    var log' := log + [JBig(d, false)];
    var before: nat := d.version - 1;
    var c: Option<nat> := Some(before);
    WholeLog(log, s, c);
    var x := ReplayLog(log, c);
    RebuildsParts(x, s, 0, c);
    NewVersion(x, s, d.version, 0, c);
    ReplayMore(log, JBig(d, false), c);
    assert log'[0..] == log';
    var g := StableOver(x, s, |log|, d, c);
    EmplaceUnder(x, d, g);
    assert !NothingOver(ReplayLog(log'[0..], c), d.version);
  }

  lemma EmplaceUnder(x: seq<Dirty>, d: Dirty, g: nat)
    requires Increasing(x) && g < |x| && x[g].version > d.version && x[g].state == Stable
    requires forall m :: 0 <= m < |x| ==> x[m].version != d.version
    ensures !NothingOver(Emplace(x, d), d.version)
  {
    hide Emplace;
    var e := EmplaceSplit(x, d);
    PickAt(x, d, e, e);
    PickAt(x, d, e, g + 1);
    var z := Emplace(x, d);
    assert z[e].version == d.version && z[g + 1].state == Stable && e < g + 1;
  }

  lemma StableOver(x: seq<Dirty>, s: seq<Ver>, n: nat, d: Dirty, c: Option<nat>) returns (g: nat)
    requires Ordered(s, n) && Rebuilds(x, s, 0, c) && Traces(x, s, 0, c) && HasPlace(s, d.version)
    requires !Tidy(s, d, false) && c.Some? && c.value < d.version
    ensures g < |x| && x[g].state == Stable && x[g].version > d.version
  {
    hide Ordered, Traces, Place, HasPlace, Increasing, AllKnown, NoneWiped, Open;
    var p := Place(s, d.version);
    PlacedAbove(s, d.version, p);
    OpenPlace(s, n, d.version);
    TracesAt(x, s, 0, c, p);
    assert Here(s[p], 0, c) && Accounted(x, s, p, 0, c);
    if Veiled(x, s[p].d.version) {
      g :| 0 <= g < |x| && Veils(x[g], s[p].d.version);
    } else {
      g :| 0 <= g < |x| && x[g].version == s[p].d.version;
    }
  }

  lemma OpenPlace(s: seq<Ver>, n: nat, version: nat)
    requires HasPlace(s, version)
    ensures Open(s, Place(s, version))
  {
    hide Place, HasPlace;
    forall j | Place(s, version) <= j < |s| ensures s[j].d.kind != Delete { PlacedAbove(s, version, j); }
  }

  /** An instant write and a plain one below it: the stable version is above an unstable one. */
  lemma PlainBelowInstant(d1: Dirty, d2: Dirty)
    requires Fresh(d1) && d1.version == 1 && d1.kind == BigWrite && Fresh(d2) && d2.version == 2
    requires d2.kind == BigWrite
    ensures ReplayLog([JBig(d2, true), JBig(d1, false)], None) == [d1, Marked(d2)]
  {
    ReplayTwo(JBig(d2, true), JBig(d1, false), None);
    FirstBig(d2, true, None);
    EmplaceTwo(d1, Marked(d2));
  }

  // ----- versions that are taken along

  /** An instant write that is journaled below a plain one: `dirty_db` takes the plain version along
      when the instant one becomes stable, the replay does not. */
  lemma InstantBelowPlain(d1: Dirty, d2: Dirty)
    requires Fresh(d1) && d1.version == 1 && d1.kind == BigWrite && Fresh(d2) && d2.version == 2
    requires d2.kind == SmallWrite
    ensures MarkStable([d1.(instant := true), d2], 1) == [Marked(d1).(instant := true), Marked(d2)]
    ensures ReplayLog([JSmall(d2, false), JBig(d1, true)], None) == [Marked(d1), d2]
  {
    hide MarkStable, ReplayLog, Emplace;
    MarkTwo(d1.(instant := true), d2);
    MarkTwo(d1, d2);
    ReplayTwo(JSmall(d2, false), JBig(d1, true), None);
    EmplaceTwo(d1, d2);
  }

  lemma MarkTwo(a: Dirty, b: Dirty)
    requires a.version < b.version && a.state == Synced && a.kind != Delete
    requires b.kind == SmallWrite && b.state == Synced
    ensures MarkStable([a, b], a.version) == [Marked(a), if a.instant then Marked(b) else b]
  {
    var x := [a, b];
    var x' := [a, Marked(b)];
    assert x[..1] == [a];
    IndexOfLast([a]);
    assert IndexOf(x, a.version) == 0;
    assert x[1 := Marked(b)] == x';
    assert x'[0 := Marked(a)] == [Marked(a), Marked(b)];
    assert x[0 := Marked(a)] == [Marked(a), b];
    assert From([Marked(a), Marked(b)], 0) == [Marked(a), Marked(b)];
    assert From([Marked(a), b], 0) == [Marked(a), b];
    assert Forward(x, 0) == 1;
    assert Walk(x', 0) == [Marked(a), Marked(b)];
  }

  lemma EmplaceTwo(d1: Dirty, d2: Dirty)
    requires d1.version < d2.version
    ensures Emplace([], d2) == [d2] && Emplace([d2], d1) == [d1, d2]
  {
    assert [] + [d2] == [d2] && [d2][..0] == [] && [] + [d1] == [d1] && [d1] + [d2] == [d1, d2];
  }
}
