/** A delete is stable as soon as it is journaled, but only over a stable version: over an unstable
    one its fate after a restart depends on how far the flusher got before. */
module Deletes {
  import opened Basics
  import opened Overlay
  import opened Versions
  import opened Replayed
  import opened Mirror
  import opened Marking
  import opened Placing
  import opened States
  import opened Tracking

  /** After every restart the delete is the newest stable version. */
  ghost predicate Effective(log: seq<Entry>, d: Dirty) {
    forall c: nat :: c < d.version ==> d.(state := Stable) in ReplayLog(log + [JDelete(d)], Some(c))
  }

  lemma ReplayMore(log: seq<Entry>, e: Entry, c: Option<nat>)
    ensures ReplayLog(log + [e], c) == ReplayEntry(ReplayLog(log, c), c, e)
  {
    assert (log + [e])[..|log|] == log;
  }

  lemma WholeLog(log: seq<Entry>, s: seq<Ver>, c: Option<nat>)
    requires Mirrors(log, s)
    ensures Rebuilds(ReplayLog(log, c), s, 0, c) && Ordered(s, |log|)
    ensures Tracked(log, s) ==> Traces(ReplayLog(log, c), s, 0, c) && Regular(s, |log|)
  {
    hide Rebuilds, Ordered, Traces, Regular;
    assert log[0..] == log;
    assert Rebuilds(ReplayLog(log[0..], c), s, 0, c);
  }

  /** What the replay makes of the delete. */
  lemma DeleteStack(log: seq<Entry>, s: seq<Ver>, d: Dirty, c: nat)
    requires Mirrors(log, s) && Tracked(log, s) && s != [] && Last(s).d.kind != Delete
    requires Fresh(d) && d.kind == Delete && Last(s).d.version < d.version && c < d.version
    ensures d.(state := Stable) in ReplayLog(log + [JDelete(d)], Some(c)) <==> Calm(s, |s|, 0, Some(c))
  {
    hide Ordered, ReplayLog, MarkStable, Emplace, Traces, Rebuilds, Regular, Calm, AllStable, Mirrors, Tracked;
    var x := ReplayLog(log, Some(c));
    WholeLog(log, s, Some(c));
    BelowTop(s, |log|, d.version);
    TopDelete(x, s, d, |log|, 0, Some(c));
    ReplayMore(log, JDelete(d), Some(c));
    RegularBottomed(s, |log|);
    RebuildsParts(x, s, 0, Some(c));
    CalmIff(x, s, |log|, 0, Some(c));
    AllBelow(x, s, d.version, c);
    DeleteMarked(x, d, c);
  }

  lemma AllBelow(x: seq<Dirty>, s: seq<Ver>, version: nat, c: nat)
    requires AllKnown(x, s, 0, Some(c)) && forall i :: 0 <= i < |s| ==> s[i].d.version < version
    ensures forall m :: 0 <= m < |x| ==> x[m].version < version
  {
    hide Comes;
    forall m | 0 <= m < |x| ensures x[m].version < version {
      assert Known(x[m], s, 0, Some(c));
      var i :| 0 <= i < |s| && Comes(x[m], s[i], 0, Some(c));
      ComesVersion(x[m], s[i], 0, Some(c));
    }
  }

  lemma ComesVersion(y: Dirty, v: Ver, k: nat, c: Option<nat>)
    requires Comes(y, v, k, c)
    ensures y.version == v.d.version
  {
  }

  /** A delete on top comes out stable exactly if all below it is. */
  lemma DeleteMarked(x: seq<Dirty>, d: Dirty, c: nat)
    requires Emplace(x, d) == x + [d] && Fresh(d) && d.kind == Delete && c < d.version
    requires forall m :: 0 <= m < |x| ==> x[m].version < d.version
    ensures d.(state := Stable) in ReplayEntry(x, Some(c), JDelete(d)) <==> AllStable(x)
  {
    hide MarkStable, Emplace, AllStable;
    MarkDelete(x, d);
  }

  /** Everything above the last delete is settled for the whole journal if the newest version is. */
  lemma CalmLast(s: seq<Ver>, n: nat, c: Option<nat>)
    requires Regular(s, n) && s != [] && Last(s).mark > 0
    ensures Calm(s, |s|, 0, c)
  {
    forall i | 0 <= i < |s| && Between(s, i, |s|) ensures Settled(s[i], 0) {
      if i < |s| - 1 { assert Open(s, i) && Falls(s[i], s[|s| - 1]); }
    }
  }

  /** Journaling a delete makes it final if and only if the journal has made the version that it deletes
      stable. */
  lemma DeleteEffectiveIff(log: seq<Entry>, s: seq<Ver>, d: Dirty)
    requires Mirrors(log, s) && Tracked(log, s) && s != [] && Last(s).d.kind != Delete
    requires Fresh(d) && d.kind == Delete && Last(s).d.version < d.version
    ensures Effective(log, d) <==> Last(s).mark > 0
  {
    hide ReplayLog, Rebuilds, Ordered, Traces, Regular;
    if Last(s).mark > 0 {
      forall c: nat | c < d.version ensures d.(state := Stable) in ReplayLog(log + [JDelete(d)], Some(c)) {
        CalmLast(s, |log|, Some(c));
        DeleteStack(log, s, d, c);
      }
    }
    if Effective(log, d) {
      var c: nat := 0;
      DeleteStack(log, s, d, c);
      OrderedAt(s, |log|, |s| - 1);
      assert Between(s, |s| - 1, |s|) && Here(s[|s| - 1], 0, Some(c));
    }
  }

  lemma DeleteOver(v: Dirty, d: Dirty, c: nat)
    requires Fresh(d) && d.kind == Delete && v.version < d.version && v.state != Stable && c < d.version
    ensures ReplayEntry([v], Some(c), JDelete(d)) == [v, d]
    ensures ReplayEntry([], Some(c), JDelete(d)) == [d.(state := Stable)]
  {
    assert Emplace([v], d) == [v] + [d] && Emplace([], d) == [] + [d];
    assert [v][0].state != Stable;
    MarkDelete([v], d);
    MarkDelete([], d);
  }

  lemma ReplayFour(a: Entry, b: Entry, e: Entry, f: Entry, c: Option<nat>)
    ensures ReplayLog([a, b, e, f], c) == ReplayEntry(ReplayEntry(ReplayEntry(ReplayEntry([], c, a), c, b), c, e), c, f)
  {
    assert ReplayLog([], c) == [];
    hide ReplayEntry, ReplayLog;
    assert [] + [a] == [a] && [a] + [b] == [a, b] && [a, b] + [e] == [a, b, e] && [a, b, e] + [f] == [a, b, e, f];
    ReplayMore([], a, c);
    ReplayMore([a], b, c);
    ReplayMore([a, b], e, c);
    ReplayMore([a, b, e], f, c);
  }

  lemma StabilizedBelowDelete(d2: Dirty, d3: Dirty)
    requires Fresh(d2) && d2.kind == SmallWrite && Fresh(d3) && d2.version != d3.version
    ensures MarkStable([d2, d3], d2.version) == [d2.(state := Stable), d3]
  {
    assert [d2, d3][..1] == [d2];
    IndexOfLast([d2]);
  }

  lemma RolledBackAbove(d2: Dirty, d3: Dirty)
    requires d2.state == Stable && Fresh(d3) && d3.version > d2.version
    ensures RolledBack([d2, d3], d2.version) == [d2]
  {
    assert [d2, d3][..1] == [d2];
  }

  /** A delete over an unstable version can survive its own rollback: version 2 is stabilized, then
      everything above it is rolled back, including the delete. If version 2 has reached the clean
      copy before the restart, the delete is replayed as stable all the same. */
  lemma RolledBackDeleteReturns(d2: Dirty, d3: Dirty)
    requires Fresh(d2) && d2.version == 2 && d2.kind == SmallWrite
    requires Fresh(d3) && d3.version == 3 && d3.kind == Delete
    ensures var log := [JSmall(d2, false), JDelete(d3), JStable(2), JRollback(2)];
            && ReplayLog(log, Some(1)) == [d2.(state := Stable)]
            && ReplayLog(log, Some(2)) == [d3.(state := Stable)]
  {
    hide ReplayLog;
    ReplayFour(JSmall(d2, false), JDelete(d3), JStable(2), JRollback(2), Some(1));
    ReplayFour(JSmall(d2, false), JDelete(d3), JStable(2), JRollback(2), Some(2));
    assert ReplayEntry([], Some(1), JSmall(d2, false)) == [d2] by { assert [] + [d2] == [d2]; }
    DeleteOver(d2, d3, 1);
    assert ReplayEntry([d2, d3], Some(1), JStable(2)) == MarkStable([d2, d3], 2);
    StabilizedBelowDelete(d2, d3);
    RolledBackAbove(d2.(state := Stable), d3);
    DeleteOver(d2, d3, 2);
    assert IndexOf([d3.(state := Stable)], 2) == -1;
  }
}
