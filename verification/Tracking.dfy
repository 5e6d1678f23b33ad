/** The states of a replay, entry by entry of the journal. */
module Tracking {
  import opened Basics
  import opened Overlay
  import opened Versions
  import opened Replayed
  import opened Mirror
  import opened Marking
  import opened Placing
  import opened States

  // ----- writes

  /** The first write over a delete is a big one. */
  predicate Grounds(s: seq<Ver>, d: Dirty) {
    var p := Place(s, d.version);
    p > 0 && s[p - 1].d.kind == Delete ==> d.kind == BigWrite
  }

  /** A plain write does not come below what the journal has made stable. */
  predicate Tidy(s: seq<Ver>, d: Dirty, inst: bool) {
    var p := Place(s, d.version);
    inst || p == |s| || s[p].mark == 0
  }

  lemma PlainGains(s: seq<Ver>, d: Dirty, n: nat)
    requires d.kind != Delete
    ensures Gains(s, Entered(s, d, false, n), Place(s, d.version), Insert(s, d, false, n))
  {
    hide Place, Open;
    var p, s' := Place(s, d.version), Insert(s, d, false, n);
    assert forall i :: 0 <= i < |s| ==> s'[Shift(p, i)] == s[i];
  }

  /** The place of a write is above the last delete. */
  lemma NewOpen(s: seq<Ver>, d: Dirty, inst: bool, n: nat)
    requires Ordered(s, n) && d.kind != Delete && HasPlace(s, d.version)
    ensures Open(Insert(s, d, inst, n), Place(s, d.version))
  {
    hide Ordered, Place, HasPlace, Insert;
    var p, s' := Place(s, d.version), Insert(s, d, inst, n);
    forall j | p <= j < |s'| ensures s'[j].d.kind != Delete {
      if j > p {
        assert s'[j - 1 + 1] == s[j - 1] && s[j - 1].d.version >= d.version;
        PlacedAbove(s, d.version, j - 1);
      }
    }
  }

  lemma PlacedAbove(s: seq<Ver>, version: nat, i: nat)
    requires HasPlace(s, version) && i < |s| && s[i].d.version >= version
    ensures s[i].d.kind != Delete && s[i].d.version > version
  {
    assert PlaceAt(s[i].d, version);
  }

  /** An instant write is a plain one with a stabilization of itself. */
  lemma InstantLifts(s: seq<Ver>, d: Dirty, n: nat)
    requires Ordered(s, n) && Fresh(d) && d.kind != Delete && HasPlace(s, d.version)
    ensures Lifts(Insert(s, d, false, n), Insert(s, d, true, n), Place(s, d.version))
  {
    hide Ordered, Place, Open, Insert, HasPlace;
    var p, s1, s' := Place(s, d.version), Insert(s, d, false, n), Insert(s, d, true, n);
    PlainGains(s, d, n);
    NewOpen(s, d, false, n);
    forall j | 0 <= j < |s1| ensures Lift(s1[j], s'[j], if j <= p && Open(s1, j) then s1[p].at + 1 else 0) {
      if j < p {
        GainsOpen(s, s1[p], p, s1, j);
      } else if j > p {
        assert s1[j - 1 + 1] == s[j - 1] && s'[j - 1 + 1] == s[j - 1];
      }
    }
  }

  lemma PlainTraces(x: seq<Dirty>, s: seq<Ver>, d: Dirty, n: nat, k: nat, c: Option<nat>)
    requires Ordered(s, n) && Rebuilds(x, s, k, c) && Traces(x, s, k, c)
    requires Fresh(d) && d.kind != Delete && HasPlace(s, d.version)
    ensures Traces(if Old(d, c) then x else Emplace(x, d), Insert(s, d, false, n), k, c)
  {
    hide Ordered, Rebuilds, Traces, Place, Insert, HasPlace, Emplace, Gains;
    var p, s1 := Place(s, d.version), Insert(s, d, false, n);
    RebuildsParts(x, s, k, c);
    NewVersion(x, s, d.version, k, c);
    PlainGains(s, d, n);
    PlacePosition(s, n, d.version);
    if Old(d, c) {
      EmplaceTraces(x, x, s, d, s1[p], p, s1, k, c, 0);
    } else {
      var e := EmplaceSplit(x, d);
      EmplaceTraces(x, Emplace(x, d), s, d, s1[p], p, s1, k, c, e);
    }
  }

  lemma PlacePosition(s: seq<Ver>, n: nat, version: nat)
    requires Ordered(s, n) && HasPlace(s, version)
    ensures forall i :: 0 <= i < |s| ==> (s[i].d.version > version <==> i >= Place(s, version))
  {
    hide Ordered, Place;
    PlaceSplits(s, n, version);
    forall i | 0 <= i < |s| ensures s[i].d.version != version { assert PlaceAt(s[i].d, version); }
  }

  lemma PlainBottomed(s: seq<Ver>, v: Ver, p: nat, s': seq<Ver>)
    requires Bottomed(s) && Gains(s, v, p, s') && (p > 0 && s[p - 1].d.kind == Delete ==> v.d.kind == BigWrite)
    ensures Bottomed(s')
  {
    forall i | 0 < i < |s'| && s'[i - 1].d.kind == Delete ensures s'[i].d.kind == BigWrite {
      if i < p {
        assert s'[Shift(p, i)] == s[i] && s'[Shift(p, i - 1)] == s[i - 1];
      } else if i == p {
        assert s'[Shift(p, i - 1)] == s[i - 1];
      } else if i > p + 1 {
        assert s'[Shift(p, i - 1)] == s[i - 1] && s'[Shift(p, i - 2)] == s[i - 2];
      }
    }
  }

  lemma PlainRegular(s: seq<Ver>, n: nat, v: Ver, p: nat, s': seq<Ver>)
    requires Regular(s, n) && Gains(s, v, p, s') && (p == |s| || s[p].mark == 0)
    requires p > 0 && s[p - 1].d.kind == Delete ==> v.d.kind == BigWrite
    requires Open(s', p)
    ensures Regular(s', n + 1)
  {
    hide Gains, Bottomed, Open, Backed;
    PlainBottomed(s, v, p, s');
    forall i | 0 <= i < |s'| ensures s'[i].mark <= n + 1 { PlainMark(s, n, v, p, s', i); }
    forall i, j | 0 <= i < j < |s'| && Open(s', i) ensures Falls(s'[i], s'[j]) { PlainFalls(s, n, v, p, s', i, j); }
    forall i | 0 <= i < |s'| && Open(s', i) && s'[i].mark > 0 ensures Backed(s', i) { PlainBacked(s, n, v, p, s', i); }
  }

  lemma PlainMark(s: seq<Ver>, n: nat, v: Ver, p: nat, s': seq<Ver>, i: nat)
    requires Regular(s, n) && Gains(s, v, p, s') && i < |s'|
    ensures s'[i].mark <= n
  {
    if i != p { var a := GainsBack(s, v, p, s', i); }
  }

  lemma PlainFalls(s: seq<Ver>, n: nat, v: Ver, p: nat, s': seq<Ver>, i: nat, j: nat)
    requires Regular(s, n) && Gains(s, v, p, s') && (p == |s| || s[p].mark == 0) && i < j < |s'| && Open(s', i)
    requires Open(s', p)
    ensures Falls(s'[i], s'[j])
  {
    hide Gains, Bottomed, Open;
    if j != p {
      var b := GainsBack(s, v, p, s', j);
      if i != p {
        var a := GainsBack(s, v, p, s', i);
        GainsOpen(s, v, p, s', a);
        assert Falls(s[a], s[b]);
      } else {
        GainsLength(s, v, p, s');
        NextOpen(s', p);
        GainsOpen(s, v, p, s', p);
        if b > p { assert Falls(s[p], s[b]); }
      }
    } else {
      GainsLength(s, v, p, s');
    }
  }

  lemma GainsLength(s: seq<Ver>, v: Ver, p: nat, s': seq<Ver>)
    requires Gains(s, v, p, s')
    ensures p <= |s| && |s'| == |s| + 1 && s'[p] == v && v.mark == 0
  {
  }

  lemma NextOpen(s: seq<Ver>, i: nat)
    requires Open(s, i)
    ensures Open(s, i + 1)
  {
  }

  lemma PlainBacked(s: seq<Ver>, n: nat, v: Ver, p: nat, s': seq<Ver>, i: nat)
    requires Regular(s, n) && Gains(s, v, p, s') && i < |s'| && Open(s', i) && s'[i].mark > 0
    ensures Backed(s', i)
  {
    hide Open;
    var a := GainsBack(s, v, p, s', i);
    GainsOpen(s, v, p, s', a);
    assert Backed(s, a);
    var b :| a <= b < |s| && s[b].at + 1 == s[a].mark && s[b].d.state == Stable;
    assert s'[Shift(p, b)] == s[b];
  }

  lemma WriteTraces(x: seq<Dirty>, s: seq<Ver>, d: Dirty, inst: bool, n: nat, k: nat, c: Option<nat>)
    requires Ordered(s, n) && Rebuilds(x, s, k, c) && Traces(x, s, k, c) && Regular(s, n) && k <= n
    requires Fresh(d) && d.kind != Delete && HasPlace(s, d.version) && Grounds(s, d)
    ensures Traces(ReplayEntry(x, c, WriteEntry(d, inst)), Insert(s, d, inst, n), k, c)
  {
    hide Ordered, Rebuilds, Traces, Place, Insert, HasPlace, Emplace, MarkStable, Regular, Lifts;
    RebuildsParts(x, s, k, c);
    NewVersion(x, s, d.version, k, c);
    PlainTraces(x, s, d, n, k, c);
    if inst {
      var p, s1 := Place(s, d.version), Insert(s, d, false, n);
      InstantLifts(s, d, n);
      InsertShape(s, d, false, n);
      InsertOrdered(s, d, false, n);
      NewOpen(s, d, false, n);
      EmplaceRebuilds(x, s, d, Entered(s, d, false, n), p, s1, k, c);
      InstantTraces(x, s, d, n, k, c);
    }
  }

  lemma InstantTraces(x: seq<Dirty>, s: seq<Ver>, d: Dirty, n: nat, k: nat, c: Option<nat>)
    requires Ordered(s, n) && AllKnown(x, s, k, c) && Increasing(x) && Regular(s, n)
    requires Fresh(d) && d.kind != Delete && HasPlace(s, d.version) && Grounds(s, d) && k <= n
    requires var p, s1 := Place(s, d.version), Insert(s, d, false, n);
             && Lifts(s1, Insert(s, d, true, n), p) && Ordered(s1, n + 1) && Open(s1, p)
             && Traces(if Old(d, c) then x else Emplace(x, d), s1, k, c)
             && Rebuilds(if Old(d, c) then x else Emplace(x, d), s1, k, c)
    ensures Traces(if Old(d, c) then x else MarkStable(Emplace(x, d), d.version), Insert(s, d, true, n), k, c)
  {
    hide Ordered, Rebuilds, Traces, Place, Insert, HasPlace, Emplace, Regular, Lifts, Walk, Open, Bottomed, MarkStable;
    hide Gains, AllKnown, Increasing;
    var p, s1, s' := Place(s, d.version), Insert(s, d, false, n), Insert(s, d, true, n);
    var x1 := if Old(d, c) then x else Emplace(x, d);
    RebuildsParts(x1, s1, k, c);
    NewVersion(x, s, d.version, k, c);
    PlainGains(s, d, n);
    InstantReady(s, d, n);
    if Old(d, c) {
      MarkMissing(x, s1, s', n + 1, k, c, p);
    } else {
      NotInstant(x1, s1, n + 1, k, c, d, p);
      var e := EmplaceSplit(x, d);
      assert x1[e] == d;
      MarkOnly(x1, e);
      MarkFound(x1, s1, s', n + 1, k, c, p, e);
    }
  }

  lemma MarkOnly(x: seq<Dirty>, e: nat)
    requires Increasing(x) && e < |x| && !x[e].IsInstant()
    ensures MarkStable(x, x[e].version) == Walk(x, e)
  {
    hide Walk, IndexOf;
    OnlyOnce(x, e, IndexOf(x, x[e].version));
  }

  lemma OnlyOnce(x: seq<Dirty>, e: nat, j: int)
    requires Increasing(x) && e < |x| && j == IndexOf(x, x[e].version)
    ensures j == e
  {
    if j >= 0 { OrderIndex(x, e, j); OrderIndex(x, j, e); }
  }

  lemma InstantReady(s: seq<Ver>, d: Dirty, n: nat)
    requires Regular(s, n) && d.kind != Delete && Grounds(s, d)
    requires Gains(s, Entered(s, d, false, n), Place(s, d.version), Insert(s, d, false, n))
    ensures var p, s1 := Place(s, d.version), Insert(s, d, false, n);
            && Bottomed(s1) && s1[p].mark == 0
            && (forall a, b {:trigger Falls(s1[a], s1[b])} :: 0 <= a < b < p && Open(s1, a) ==> Falls(s1[a], s1[b]))
  {
    hide Place, Insert, Open, Bottomed, Gains;
    var p, v, s1 := Place(s, d.version), Entered(s, d, false, n), Insert(s, d, false, n);
    PlainBottomed(s, v, p, s1);
    GainsLength(s, v, p, s1);
    forall a, b | 0 <= a < b < p && Open(s1, a) ensures Falls(s1[a], s1[b]) {
      GainsOpen(s, v, p, s1, a);
      var a' := GainsBack(s, v, p, s1, a);
      var b' := GainsBack(s, v, p, s1, b);
      assert Falls(s[a'], s[b']);
    }
  }

  lemma InstantRegular(s: seq<Ver>, d: Dirty, n: nat)
    requires Ordered(s, n) && Regular(s, n) && Fresh(d) && d.kind != Delete && HasPlace(s, d.version) && Grounds(s, d)
    ensures Regular(Insert(s, d, true, n), n + 1)
  {
    hide Ordered, Place, Insert, Open, Bottomed, HasPlace, Backed, Regular, Lifts, Gains;
    var p, s1, s' := Place(s, d.version), Insert(s, d, false, n), Insert(s, d, true, n);
    PlainGains(s, d, n);
    InstantLifts(s, d, n);
    InstantReady(s, d, n);
    NewOpen(s, d, false, n);
    LiftsBottomed(s1, s', p);
    forall i | 0 <= i < |s'| ensures s'[i].mark <= n + 1 { InstantMarkAt(s, n, s1, p, s', i); }
    forall j | p < j < |s'| ensures s'[j] == s1[j] { assert s'[j - 1 + 1] == s[j - 1] && s1[j - 1 + 1] == s[j - 1]; }
    forall i, j | 0 <= i < j < |s'| && Open(s', i) ensures Falls(s'[i], s'[j]) {
      InstantFalls(s, n, s1, p, s', i, j);
    }
    forall i | 0 <= i < |s'| && Open(s', i) && s'[i].mark > 0 ensures Backed(s', i) {
      InstantBacked(s, n, s1, p, s', i);
    }
    MakeRegular(s', n + 1);
  }

  lemma MakeRegular(s: seq<Ver>, n: nat)
    requires forall i :: 0 <= i < |s| ==> s[i].mark <= n
    requires forall i, j {:trigger Falls(s[i], s[j])} :: 0 <= i < j < |s| && Open(s, i) ==> Falls(s[i], s[j])
    requires forall i :: 0 <= i < |s| && Open(s, i) && s[i].mark > 0 ==> Backed(s, i)
    requires Bottomed(s)
    ensures Regular(s, n)
  {
  }

  predicate InstantMark(s: seq<Ver>, n: nat, p: nat, i: nat)
    requires i < |s|
  {
    s[i].mark <= n + 1 && (i <= p && Open(s, i) ==> s[i].mark == n + 1)
  }

  lemma LiftsBottomed(s: seq<Ver>, s': seq<Ver>, i: nat)
    requires i < |s| && Lifts(s, s', i) && Bottomed(s)
    ensures Bottomed(s')
  {
    forall g | 0 <= g < |s| ensures s'[g].d.kind == s[g].d.kind { LiftsAt(s, s', i, g); }
  }

  lemma InstantMarkAt(s: seq<Ver>, n: nat, s1: seq<Ver>, p: nat, s': seq<Ver>, i: nat)
    requires Regular(s, n) && p < |s1| && Gains(s, s1[p], p, s1) && s1[p].at == n && Lifts(s1, s', p) && i < |s'|
    ensures InstantMark(s', n, p, i)
  {
    hide Open, Gains, Lifts;
    LiftsLength(s1, s', p);
    LiftsOpen(s1, s', p, i);
    LiftsAt(s1, s', p, i);
    PlainMark(s, n, s1[p], p, s1, i);
  }

  lemma InstantFalls(s: seq<Ver>, n: nat, s1: seq<Ver>, p: nat, s': seq<Ver>, i: nat, j: nat)
    requires Regular(s, n) && p < |s1| && Gains(s, s1[p], p, s1) && s1[p].at == n && Lifts(s1, s', p)
    requires i < j < |s'| && Open(s', i)
    ensures Falls(s'[i], s'[j])
  {
    hide Open, Gains, Lifts, Bottomed;
    LiftsLength(s1, s', p);
    InstantMarkAt(s, n, s1, p, s', i);
    InstantMarkAt(s, n, s1, p, s', j);
    if i > p {
      LiftsOpen(s1, s', p, i);
      LiftsAt(s1, s', p, i);
      LiftsAt(s1, s', p, j);
      var a := GainsBack(s, s1[p], p, s1, i);
      var b := GainsBack(s, s1[p], p, s1, j);
      GainsOpen(s, s1[p], p, s1, a);
      assert Falls(s[a], s[b]);
    }
  }

  lemma InstantBacked(s: seq<Ver>, n: nat, s1: seq<Ver>, p: nat, s': seq<Ver>, i: nat)
    requires Regular(s, n) && p < |s1| && Gains(s, s1[p], p, s1) && s1[p].at == n && Lifts(s1, s', p)
    requires i < |s'| && Open(s', i) && s'[i].mark > 0 && s'[p].d.state == Stable
    requires forall j :: p < j < |s'| ==> s'[j] == s1[j]
    ensures Backed(s', i)
  {
    hide Open, Gains, Lifts, Bottomed;
    LiftsLength(s1, s', p);
    InstantMarkAt(s, n, s1, p, s', i);
    if i <= p {
      LiftsAt(s1, s', p, p);
      assert s'[p].at + 1 == s'[i].mark;
    } else {
      LiftsOpen(s1, s', p, i);
      PlainBacked(s, n, s1[p], p, s1, i);
      var b :| i <= b < |s1| && s1[b].at + 1 == s1[i].mark && s1[b].d.state == Stable;
      assert s'[b] == s1[b];
    }
  }

  lemma WriteRegular(s: seq<Ver>, d: Dirty, inst: bool, n: nat)
    requires Ordered(s, n) && Regular(s, n) && Fresh(d) && d.kind != Delete && HasPlace(s, d.version)
    requires Grounds(s, d) && Tidy(s, d, inst)
    ensures Regular(Insert(s, d, inst, n), n + 1)
  {
    if inst {
      InstantRegular(s, d, n);
    } else {
      hide Regular, Insert, Place, HasPlace, Ordered, Open;
      PlainGains(s, d, n);
      NewOpen(s, d, false, n);
      PlainRegular(s, n, Entered(s, d, false, n), Place(s, d.version), Insert(s, d, false, n));
    }
  }

  // ----- deletes

  /** What replaying a delete makes of the stack. */
  lemma MarkDelete(x: seq<Dirty>, d: Dirty)
    requires d.kind == Delete && d.state == Synced
    ensures MarkStable(x + [d], d.version) == if AllStable(x) then [Marked(d)] else x + [d]
  {
    var z := x + [d];
    IndexOfLast(z);
    assert From(z[|x| := Marked(d)], |x|) == [Marked(d)];
    if AllStable(x) {
      assert !exists k :: 0 <= k < |x| && z[k].state != Stable;
    } else {
      var k :| 0 <= k < |x| && x[k].state != Stable;
      assert z[k].state != Stable;
    }
  }

  lemma IndexOfLast(x: seq<Dirty>)
    requires x != []
    ensures IndexOf(x, Last(x).version) == |x| - 1
  {
  }

  /** The stack under a delete is stable if and only if everything replayed since the last one is settled. */
  lemma CalmIff(x: seq<Dirty>, s: seq<Ver>, n: nat, k: nat, c: Option<nat>)
    requires Ordered(s, n) && AllKnown(x, s, k, c) && Traces(x, s, k, c) && Bottomed(s)
    requires s != [] ==> Last(s).d.kind != Delete
    ensures AllStable(x) <==> Calm(s, |s|, k, c)
  {
    hide Ordered, AllKnown, Traces, Bottomed;
    if AllStable(x) {
      forall i | 0 <= i < |s| && Between(s, i, |s|) && Here(s[i], k, c) ensures Settled(s[i], k) {
        TracesAt(x, s, k, c, i);
      }
    }
    if Calm(s, |s|, k, c) {
      forall m | 0 <= m < |x| ensures x[m].state == Stable { CalmAt(x, s, n, k, c, m); }
    }
  }

  lemma CalmAt(x: seq<Dirty>, s: seq<Ver>, n: nat, k: nat, c: Option<nat>, m: nat)
    requires Ordered(s, n) && AllKnown(x, s, k, c) && Traces(x, s, k, c) && Bottomed(s) && m < |x|
    requires s != [] ==> Last(s).d.kind != Delete
    requires Calm(s, |s|, k, c)
    ensures x[m].state == Stable
  {
    hide Ordered, AllKnown, Traces, Bottomed;
    var i := Source(x, s, k, c, m);
    if Open(s, i) {
      TracesAt(x, s, k, c, i);
    } else {
      var q := FindTop(s, i);
      FirstAbove(s, n, k, c, q, i);
      TracesAt(x, s, k, c, q + 1);
      StillAbove(x, s, n, q, i, m);
    }
  }

  lemma DeleteTraces(x: seq<Dirty>, s: seq<Ver>, d: Dirty, n: nat, k: nat, c: Option<nat>)
    requires Ordered(s, n) && Rebuilds(x, s, k, c) && Traces(x, s, k, c) && Regular(s, n) && k <= n
    requires Fresh(d) && d.kind == Delete && OnTop(s, d.version) && (s != [] ==> Last(s).d.kind != Delete)
    ensures Traces(ReplayEntry(x, c, JDelete(d)), WithDelete(s, d, n), k, c)
  {
    hide Ordered, Rebuilds, Traces, Regular, WithDelete, Emplace, MarkStable, AllStable, Calm;
    RebuildsParts(x, s, k, c);
    BelowTop(s, n, d.version);
    if c.None? || Old(d, c) {
      if c.Some? { OldNothing(x, s, n, k, c, d.version); }
      DeletedTraces(s, d, n, k, c);
    } else {
      TopDelete(x, s, d, n, k, c);
      MarkDelete(x, d);
      CalmIff(x, s, n, k, c) by { RegularBottomed(s, n); }
      if !AllStable(x) { NotDeleteTop(x, s, n, k, c); }
      NewDeleteTraces(x, s, d, n, k, c);
    }
  }

  lemma RegularBottomed(s: seq<Ver>, n: nat)
    requires Regular(s, n)
    ensures Bottomed(s)
  {
  }

  lemma WithDeleteTop(s: seq<Ver>, d: Dirty, n: nat)
    requires d.kind == Delete
    ensures var s' := WithDelete(s, d, n);
            && s'[|s|].d.version == d.version && (forall i :: 0 <= i < |s'| ==> !Open(s', i))
            && (forall i :: 0 <= i < |s| ==> s'[i].d.version == s[i].d.version && s'[i].mark == s[i].mark)
            && (forall q :: 0 <= q < |s'| && IsTop(s', q) ==> q == |s|)
  {
    var s' := WithDelete(s, d, n);
    assert s'[|s|].d.kind == Delete;
    assert forall i :: 0 <= i < |s| ==> s'[i] == Raise(s, d.version, 0)[i];
  }

  lemma DeletedTraces(s: seq<Ver>, d: Dirty, n: nat, k: nat, c: Option<nat>)
    requires d.kind == Delete
    ensures Traces([], WithDelete(s, d, n), k, c)
  {
    WithDeleteTop(s, d, n);
  }

  lemma WithDeleteCalm(s: seq<Ver>, d: Dirty, n: nat, k: nat, c: Option<nat>)
    ensures Calm(WithDelete(s, d, n), |s|, k, c) <==> Calm(s, |s|, k, c)
  {
    var s' := WithDelete(s, d, n);
    forall i | 0 <= i < |s| ensures Same(s[i], s'[i]) { assert s'[i] == Raise(s, d.version, 0)[i]; }
    SameBelow(s, s', k, c, |s|);
  }

  lemma NewDeleteTraces(x: seq<Dirty>, s: seq<Ver>, d: Dirty, n: nat, k: nat, c: Option<nat>)
    requires Increasing(x) && AllKnown(x, s, k, c) && Fresh(d) && d.kind == Delete
    requires forall i :: 0 <= i < |s| ==> s[i].d.version < d.version
    requires AllStable(x) <==> Calm(s, |s|, k, c)
    requires !AllStable(x) ==> x != [] && Last(x).kind != Delete
    ensures Traces(if AllStable(x) then [Marked(d)] else x + [d], WithDelete(s, d, n), k, c)
  {
    hide Calm, AllStable, WithDelete;
    var s', x' := WithDelete(s, d, n), if AllStable(x) then [Marked(d)] else x + [d];
    WithDeleteTop(s, d, n);
    WithDeleteCalm(s, d, n, k, c);
    forall m | 0 <= m < |x| ensures x[m].version < d.version { var i := Source(x, s, k, c, m); }
    forall q: nat, m: nat | IsTop(s', q) && m < |x'| && x'[m].version == s'[q].d.version
      ensures DeleteAgrees(x', s', k, c, q, m)
    {
      assert m == |x'| - 1;
    }
  }

  /** Something above the last delete is on top of a stack that is not stable. */
  lemma NotDeleteTop(x: seq<Dirty>, s: seq<Ver>, n: nat, k: nat, c: Option<nat>)
    requires Ordered(s, n) && Rebuilds(x, s, k, c) && Traces(x, s, k, c) && !Calm(s, |s|, k, c)
    ensures x != [] && Last(x).kind != Delete
  {
    hide Ordered, Traces, Rebuilds, AllKnown, Increasing, Cleared;
    RebuildsParts(x, s, k, c);
    var i :| 0 <= i < |s| && Between(s, i, |s|) && Here(s[i], k, c) && !Settled(s[i], k);
    TracesAt(x, s, k, c, i);
    var m :| 0 <= m < |x| && x[m].version == s[i].d.version;
    var h := Source(x, s, k, c, |x| - 1);
    OrderIndex(x, |x| - 1, m);
    NotUnder(s, n, h, i);
  }

  lemma NotUnder(s: seq<Ver>, n: nat, h: nat, i: nat)
    requires Ordered(s, n) && h < |s| && i < |s| && s[h].d.version >= s[i].d.version
    ensures h >= i
  {
    if h < i { OrderedPair(s, n, h, i); }
  }

  lemma DeleteRegular(s: seq<Ver>, d: Dirty, n: nat)
    requires Regular(s, n) && d.kind == Delete && (s != [] ==> Last(s).d.kind != Delete)
    ensures Regular(WithDelete(s, d, n), n + 1)
  {
    var s' := WithDelete(s, d, n);
    WithDeleteTop(s, d, n);
    forall i | 0 < i < |s'| && s'[i - 1].d.kind == Delete ensures s'[i].d.kind == BigWrite {
      assert s'[i - 1] == Raise(s, d.version, 0)[i - 1];
      assert i < |s| ==> s'[i] == Raise(s, d.version, 0)[i];
    }
  }

  // ----- stabilizations and rollbacks

  lemma StabilizeRegular(s: seq<Ver>, n: nat, i: nat)
    requires Ordered(s, n) && Regular(s, n) && i < |s| && s[i].d.kind != Delete
    ensures Regular(StabilizedAt(s, i), n + 1)
  {
    hide Ordered, Open, Bottomed, Backed, StabilizedAt, Lifts;
    var s' := StabilizedAt(s, i);
    StabilizedAs(s, n, i);
    LiftsLength(s, s', i);
    LiftsBottomed(s, s', i);
    OrderedAt(s, n, i);
    forall j | 0 <= j < |s'| ensures s'[j].mark <= n + 1 { LiftsAt(s, s', i, j); }
    forall a, b | 0 <= a < b < |s'| && Open(s', a) ensures Falls(s'[a], s'[b]) {
      LiftsOpen(s, s', i, a);
      LiftsAt(s, s', i, a);
      LiftsAt(s, s', i, b);
      assert Falls(s[a], s[b]);
    }
    forall j | 0 <= j < |s'| && Open(s', j) && s'[j].mark > 0 ensures Backed(s', j) {
      StabilizeBacked(s, n, i, j);
    }
  }

  lemma StabilizedAs(s: seq<Ver>, n: nat, i: nat)
    requires Ordered(s, n) && i < |s| && s[i].d.kind != Delete
    ensures Lifts(s, StabilizedAt(s, i), i) && Raises(s, StabilizedAt(s, i), s[i].d.version)
  {
    hide Ordered;
    forall j | 0 <= j < |s| && j != i
      ensures if j < i then s[j].d.version < s[i].d.version else s[j].d.version > s[i].d.version
    {
      if j < i { OrderedPair(s, n, j, i); } else { OrderedPair(s, n, i, j); }
    }
    StabilizedLifts(s, i);
    RaiseRaises(s, s[i].d.version, s[i].at + 1);
  }

  lemma StabilizeBacked(s: seq<Ver>, n: nat, i: nat, j: nat)
    requires Ordered(s, n) && Regular(s, n) && i < |s| && s[i].d.kind != Delete && j < |s|
    requires Open(StabilizedAt(s, i), j) && StabilizedAt(s, i)[j].mark > 0
    ensures Backed(StabilizedAt(s, i), j)
  {
    hide Ordered, Open, Bottomed, StabilizedAt, Lifts;
    var s' := StabilizedAt(s, i);
    StabilizedAs(s, n, i);
    LiftsOpen(s, s', i, j);
    LiftsAt(s, s', i, j);
    if s'[j].mark == s[j].mark {
      assert Backed(s, j);
      var b :| j <= b < |s| && s[b].at + 1 == s[j].mark && s[b].d.state == Stable;
      assert Rises(s[b], s'[b], s[i].d.version);
      assert s'[b].at + 1 == s'[j].mark;
    } else {
      assert Rises(s[i], s'[i], s[i].d.version);
      assert s'[i].at + 1 == s'[j].mark;
    }
  }

  /** More of the history is stable without the journal. */
  lemma RaiseTraces(x: seq<Dirty>, s: seq<Ver>, s': seq<Ver>, k: nat, c: Option<nat>)
    requires Traces(x, s, k, c) && |s'| == |s| && forall i :: 0 <= i < |s| ==> Same(s[i], s'[i])
    ensures Traces(x, s', k, c)
  {
    hide Traces;
    assert forall i :: 0 <= i < |s| ==> s'[i].d.kind == s[i].d.kind && s'[i].mark == s[i].mark;
    forall i | 0 <= i < |s'| && Open(s', i) ensures Agrees(x, s', k, c, i) {
      TracesAt(x, s, k, c, i);
      assert Same(s[i], s'[i]);
      if Cleared(x, s) {
        forall m, j | 0 <= m < |x| && 0 <= j < |s'| ensures AboveDelete(x[m], s'[j]) {
          assert Same(s[j], s'[j]) && AboveDelete(x[m], s[j]);
        }
      }
    }
    forall q: nat, m: nat | IsTop(s', q) && m < |x| && x[m].version == s'[q].d.version
      ensures DeleteAgrees(x, s', k, c, q, m)
    {
      assert Same(s[q], s'[q]);
      TracesDelete(x, s, k, c, q, m);
      SameBelow(s, s', k, c, q);
    }
    MakeTraces(x, s', k, c);
  }

  lemma RaiseSame(s: seq<Ver>, top: nat)
    ensures var s' := Raise(s, top, 0); |s'| == |s| && forall i :: 0 <= i < |s| ==> Same(s[i], s'[i])
  {
  }

  /** Only states rise. */
  ghost predicate SameMarks(s: seq<Ver>, s': seq<Ver>) {
    |s'| == |s| && forall i :: 0 <= i < |s| ==>
      && s'[i].d.kind == s[i].d.kind && s'[i].mark == s[i].mark && s'[i].at == s[i].at
      && (s[i].d.state == Stable ==> s'[i].d.state == Stable)
  }

  lemma SameOpen(s: seq<Ver>, s': seq<Ver>, i: nat)
    requires SameMarks(s, s')
    ensures Open(s', i) <==> Open(s, i)
  {
  }

  lemma SameBacked(s: seq<Ver>, s': seq<Ver>, i: nat)
    requires SameMarks(s, s') && i < |s| && Backed(s, i)
    ensures Backed(s', i)
  {
    var b :| i <= b < |s| && s[b].at + 1 == s[i].mark && s[b].d.state == Stable;
    assert s'[b].at + 1 == s'[i].mark && s'[b].d.state == Stable;
  }

  lemma SameRegular(s: seq<Ver>, s': seq<Ver>, n: nat)
    requires Regular(s, n) && SameMarks(s, s')
    ensures Regular(s', n)
  {
    hide Open, Backed, Falls;
    forall i, j | 0 <= i < j < |s'| && Open(s', i) ensures Falls(s'[i], s'[j]) {
      SameOpen(s, s', i);
      SameFalls(s[i], s[j], s'[i], s'[j]);
    }
    forall i | 0 <= i < |s'| && Open(s', i) && s'[i].mark > 0 ensures Backed(s', i) {
      SameOpen(s, s', i);
      SameBacked(s, s', i);
    }
  }

  lemma SameFalls(a: Ver, b: Ver, a': Ver, b': Ver)
    requires Falls(a, b) && a'.mark == a.mark && b'.mark == b.mark
    ensures Falls(a', b')
  {
  }

  lemma RaiseRegular(s: seq<Ver>, n: nat, top: nat)
    requires Regular(s, n)
    ensures Regular(Raise(s, top, 0), n)
  {
    hide Raise, Regular;
    var s' := Raise(s, top, 0);
    RaiseSame(s, top);
    RaiseRaises(s, top, 0);
    forall i | 0 <= i < |s|
      ensures && s'[i].d.kind == s[i].d.kind && s'[i].mark == s[i].mark && s'[i].at == s[i].at
              && (s[i].d.state == Stable ==> s'[i].d.state == Stable)
    {
      assert Rises(s[i], s'[i], top);
    }
    SameRegular(s, s', n);
  }

  lemma DropTraces(x: seq<Dirty>, s: seq<Ver>, version: nat, n: nat, k: nat, c: Option<nat>)
    requires Ordered(s, n) && Rebuilds(x, s, k, c) && Traces(x, s, k, c) && MayDrop(s, version)
    ensures Traces(RolledBack(x, version), Dropped(s, version), k, c)
  {
    hide Ordered, Rebuilds, Traces, Dropped, RolledBack, MayDrop;
    RebuildsParts(x, s, k, c);
    UnstableAbove(x, s, version, k, c);
    DroppedShape(s, version, n);
    var r := Dropped(s, version);
    var h := RolledBackSplit(x, version);
    DeletesStay(s, version, n);
    forall i | 0 <= i < |r| && Open(r, i) ensures Agrees(x[..h], r, k, c, i) {
      DropOpen(s, r, i);
      TracesAt(x, s, k, c, i);
      DropAgrees(x, s, r, version, k, c, h, i);
    }
    forall q: nat, m: nat | IsTop(r, q) && m < |x[..h]| && x[..h][m].version == r[q].d.version
      ensures DeleteAgrees(x[..h], r, k, c, q, m)
    {
      DropOpen(s, r, q + 1);
      TracesDelete(x, s, k, c, q, m);
      SameBelow(s, r, k, c, q);
    }
    MakeTraces(x[..h], r, k, c);
  }

  lemma DropOpen(s: seq<Ver>, r: seq<Ver>, i: nat)
    requires r <= s && forall j :: |r| <= j < |s| ==> s[j].d.kind != Delete
    ensures i <= |r| ==> (Open(r, i) <==> Open(s, i))
  {
  }

  lemma DeletesStay(s: seq<Ver>, version: nat, n: nat)
    requires Ordered(s, n) && MayDrop(s, version)
    ensures forall j :: |Dropped(s, version)| <= j < |s| ==> s[j].d.kind != Delete
  {
    DroppedShape(s, version, n);
    forall j | |Dropped(s, version)| <= j < |s| ensures s[j].d.kind != Delete { OrderedAt(s, n, j); }
  }

  lemma DropAgrees(x: seq<Dirty>, s: seq<Ver>, r: seq<Ver>, version: nat, k: nat, c: Option<nat>, h: nat, i: nat)
    requires r <= s && i < |r| && h <= |x| && Agrees(x, s, k, c, i)
    requires forall m :: 0 <= m < |x| ==> (x[m].version <= version <==> m < h)
    requires forall j :: 0 <= j < |s| ==> (s[j].d.version <= version <==> j < |r|)
    ensures Agrees(x[..h], r, k, c, i)
  {
    assert r[i] == s[i];
    if Holds(x, s[i].d.version) {
      var m :| 0 <= m < |x| && x[m].version == s[i].d.version;
      assert x[..h][m].version == r[i].d.version;
    }
    if Cleared(x, s) {
      forall m, j | 0 <= m < h && 0 <= j < |r| ensures AboveDelete(x[..h][m], r[j]) {
        assert AboveDelete(x[m], s[j]);
      }
    }
  }

  lemma DropRegular(s: seq<Ver>, n: nat, version: nat)
    requires Ordered(s, n) && Regular(s, n) && MayDrop(s, version)
    ensures Regular(Dropped(s, version), n + 1)
  {
    hide Ordered, Dropped, Open, Backed;
    var r := Dropped(s, version);
    DroppedShape(s, version, n);
    DeletesStay(s, version, n);
    forall i, j | 0 <= i < j < |r| && Open(r, i) ensures Falls(r[i], r[j]) {
      DropOpen(s, r, i);
      assert Falls(s[i], s[j]);
    }
    forall i | 0 <= i < |r| && Open(r, i) && r[i].mark > 0 ensures Backed(r, i) {
      DropOpen(s, r, i);
      DropBacked(s, r, version, i);
    }
  }

  lemma DropBacked(s: seq<Ver>, r: seq<Ver>, version: nat, i: nat)
    requires r <= s && MayDrop(s, version) && i < |r| && Backed(s, i)
    requires forall j :: 0 <= j < |s| ==> (s[j].d.version <= version <==> j < |r|)
    ensures Backed(r, i)
  {
    var b :| i <= b < |s| && s[b].at + 1 == s[i].mark && s[b].d.state == Stable;
    assert r[b] == s[b];
  }

  // ----- a whole journal

  /** Appending the entry takes the states along. */
  ghost predicate Tracks(e: Entry, s: seq<Ver>, s': seq<Ver>, n: nat) {
    && Regular(s', n + 1)
    && forall x, k: nat, c: Option<nat> {:trigger Traces(x, s, k, c)} ::
         k <= n && Rebuilds(x, s, k, c) && Traces(x, s, k, c) ==> Traces(ReplayEntry(x, c, e), s', k, c)
  }

  lemma TrackedEmpty()
    ensures Tracked([], [])
  {
  }

  lemma LaterTraces(s: seq<Ver>, n: nat, k: nat, c: Option<nat>)
    requires Ordered(s, n) && n <= k
    ensures Traces([], s, k, c)
  {
    forall i | 0 <= i < |s| ensures !Here(s[i], k, c) { OrderedAt(s, n, i); }
  }

  lemma TrackedSnoc(log: seq<Entry>, s: seq<Ver>, e: Entry, s': seq<Ver>)
    requires Mirrors(log, s) && Tracked(log, s) && Tracks(e, s, s', |log|) && Ordered(s', |log| + 1)
    ensures Tracked(log + [e], s')
  {
    hide Ordered, Rebuilds, ReplayEntry, Traces, Regular;
    var log' := log + [e];
    forall k: nat, c: Option<nat> | k <= |log'| ensures Traces(ReplayLog(log'[k..], c), s', k, c) {
      if k <= |log| {
        assert log'[k..] == log[k..] + [e] && (log[k..] + [e])[..|log| - k] == log[k..];
        assert Rebuilds(ReplayLog(log[k..], c), s, k, c) && Traces(ReplayLog(log[k..], c), s, k, c);
      } else {
        LaterTraces(s', |log'|, k, c);
      }
    }
  }

  lemma WriteTracks(s: seq<Ver>, d: Dirty, inst: bool, n: nat)
    requires Ordered(s, n) && Regular(s, n) && Fresh(d) && d.kind != Delete && HasPlace(s, d.version)
    requires Grounds(s, d) && Tidy(s, d, inst)
    ensures Tracks(WriteEntry(d, inst), s, Insert(s, d, inst, n), n)
  {
    hide Ordered, Regular, Rebuilds, Traces, ReplayEntry, Insert, HasPlace, Grounds, Tidy;
    WriteRegular(s, d, inst, n);
    forall x, k: nat, c: Option<nat> | k <= n && Rebuilds(x, s, k, c) && Traces(x, s, k, c)
      ensures Traces(ReplayEntry(x, c, WriteEntry(d, inst)), Insert(s, d, inst, n), k, c)
    {
      WriteTraces(x, s, d, inst, n, k, c);
    }
  }

  lemma DeleteTracks(s: seq<Ver>, d: Dirty, n: nat)
    requires Ordered(s, n) && Regular(s, n) && Fresh(d) && d.kind == Delete && OnTop(s, d.version)
    requires s != [] ==> Last(s).d.kind != Delete
    ensures Tracks(JDelete(d), s, WithDelete(s, d, n), n)
  {
    hide Ordered, Regular, Rebuilds, Traces, ReplayEntry, WithDelete;
    DeleteRegular(s, d, n);
    forall x, k: nat, c: Option<nat> | k <= n && Rebuilds(x, s, k, c) && Traces(x, s, k, c)
      ensures Traces(ReplayEntry(x, c, JDelete(d)), WithDelete(s, d, n), k, c)
    {
      DeleteTraces(x, s, d, n, k, c);
    }
  }

  lemma StabilizeTracks(s: seq<Ver>, i: nat, n: nat)
    requires Ordered(s, n) && Regular(s, n) && i < |s| && s[i].d.kind != Delete
    ensures Tracks(JStable(s[i].d.version), s, StabilizedAt(s, i), n)
  {
    hide Ordered, Regular, Rebuilds, Traces, MarkStable, StabilizedAt;
    StabilizeRegular(s, n, i);
    forall x, k: nat, c: Option<nat> | k <= n && Rebuilds(x, s, k, c) && Traces(x, s, k, c)
      ensures Traces(ReplayEntry(x, c, JStable(s[i].d.version)), StabilizedAt(s, i), k, c)
    {
      MarkTraces(x, s, n, k, c, i);
    }
  }

  lemma RollbackTracks(s: seq<Ver>, version: nat, n: nat)
    requires Ordered(s, n) && Regular(s, n) && MayDrop(s, version)
    ensures Tracks(JRollback(version), s, Dropped(s, version), n)
  {
    hide Ordered, Regular, Rebuilds, Traces, RolledBack, Dropped, MayDrop;
    DropRegular(s, n, version);
    forall x, k: nat, c: Option<nat> | k <= n && Rebuilds(x, s, k, c) && Traces(x, s, k, c)
      ensures Traces(ReplayEntry(x, c, JRollback(version)), Dropped(s, version), k, c)
    {
      DropTraces(x, s, version, n, k, c);
    }
  }

  lemma RenewTracks(s: seq<Ver>, d: Dirty, inst: bool, n: nat)
    requires s != [] && Ordered(s, n) && Last(s).d.kind == Delete && d.version <= Last(s).d.version
    requires Fresh(d) && d.kind == BigWrite
    ensures Tracks(JBig(d, inst), s, Insert([], d, inst, n), n)
  {
    hide Ordered, Regular, Rebuilds, Traces, ReplayEntry, Insert;
    EmptyRegular(n);
    EmptyMirror(n, 0, None);
    WriteRegular([], d, inst, n);
    forall x, k: nat, c: Option<nat> | k <= n && Rebuilds(x, s, k, c) && Traces(x, s, k, c)
      ensures Traces(ReplayEntry(x, c, JBig(d, inst)), Insert([], d, inst, n), k, c)
    {
      RenewTraces(x, s, d, inst, n, k, c);
    }
  }

  lemma EmptyRegular(n: nat)
    ensures Regular([], n)
  {
  }

  lemma RenewTraces(x: seq<Dirty>, s: seq<Ver>, d: Dirty, inst: bool, n: nat, k: nat, c: Option<nat>)
    requires s != [] && Ordered(s, n) && Rebuilds(x, s, k, c) && Last(s).d.kind == Delete
    requires Fresh(d) && d.kind == BigWrite && k <= n && d.version <= Last(s).d.version
    ensures Traces(ReplayEntry(x, c, JBig(d, inst)), Insert([], d, inst, n), k, c)
  {
    hide Ordered, Rebuilds, Emplace, MarkStable, Insert, Regular;
    OverDelete(x, s, n, k, c);
    EmptyMirror(n, k, c);
    EmptyRegular(n);
    WriteTraces([], [], d, inst, n, k, c);
  }

  lemma TrackedRaised(log: seq<Entry>, s: seq<Ver>, top: nat)
    requires Tracked(log, s)
    ensures Tracked(log, Raise(s, top, 0))
  {
    hide Regular, Traces, Raise;
    RaiseRegular(s, |log|, top);
    RaiseSame(s, top);
    forall k: nat, c: Option<nat> | k <= |log| ensures Traces(ReplayLog(log[k..], c), Raise(s, top, 0), k, c) {
      RaiseTraces(ReplayLog(log[k..], c), s, Raise(s, top, 0), k, c);
    }
  }
}
