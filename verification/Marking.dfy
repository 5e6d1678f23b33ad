/** Stabilizations and rollbacks replayed over any tail of the journal. */
module Marking {
  import opened Basics
  import opened Overlay
  import opened Versions
  import opened Replayed
  import opened Mirror

  // ----- stabilizing in the history

  /** No delete is above the version. */
  predicate Open(s: seq<Ver>, i: nat) { forall j :: i <= j < |s| ==> s[j].d.kind != Delete }

  function Lifted(v: Ver, mark: nat): Ver {
    v.(d := v.d.(state := Stable), mark := if mark > v.mark then mark else v.mark)
  }

  /** All up to version `top` becomes stable, by a stabilization of a version whose entry is before
      `mark`, or without a journal entry when that is 0. */
  function Raise(s: seq<Ver>, top: nat, mark: nat): (r: seq<Ver>)
    ensures |r| == |s|
    ensures forall i :: 0 <= i < |s| ==>
      r[i] == if s[i].d.version <= top then Lifted(s[i], if Open(s, i) then mark else 0) else s[i]
  {
    seq(|s|, i requires 0 <= i < |s| =>
      if s[i].d.version <= top then Lifted(s[i], if Open(s, i) then mark else 0) else s[i])
  }

  /** The same versions, with more of them stable: at least all up to `top`. */
  ghost predicate Raises(s: seq<Ver>, s': seq<Ver>, top: nat) {
    |s'| == |s| && forall i :: 0 <= i < |s| ==> Rises(s[i], s'[i], top)
  }

  predicate Rises(v: Ver, v': Ver, top: nat) {
    && v'.at == v.at && v'.d == v.d.(state := v'.d.state) && (v'.d.state == Stable || v'.d.state == v.d.state)
    && (v.d.state == Stable || v.d.version <= top ==> v'.d.state == Stable)
  }

  lemma RaiseRaises(s: seq<Ver>, top: nat, mark: nat)
    ensures Raises(s, Raise(s, top, mark), top)
  {
  }

  lemma RaiseOrdered(s: seq<Ver>, n: nat, top: nat, mark: nat)
    requires Ordered(s, n)
    ensures Ordered(Raise(s, top, mark), n)
  {
    var r := Raise(s, top, mark);
    forall i | 0 <= i < |r| ensures Proper(r[i], n) { OrderedAt(s, n, i); }
    forall i, j | 0 <= i < j < |r| ensures Follows(r[i], r[j]) { OrderedPair(s, n, i, j); }
  }

  // ----- stabilizing in a replayed stack

  predicate MayMark(y: Dirty, y': Dirty, top: nat) { y' == y || (y.version <= top && y' == Marked(y)) }

  /** What a walk leaves: the upper part of the stack, with some versions marked. What it drops is hidden. */
  ghost predicate Thinned(x: seq<Dirty>, x': seq<Dirty>, top: nat) {
    && |x'| <= |x|
    && (forall i :: 0 <= i < |x'| ==> MayMark(x[|x| - |x'| + i], x'[i], top))
    && (|x'| < |x| ==> x' != [] && Barrier(x'[0]) && x'[0].state == Stable)
  }

  predicate Done(d: Dirty) { d.state == Synced || d.state == Stable }

  ghost predicate AllDone(x: seq<Dirty>) { forall i :: 0 <= i < |x| ==> Done(x[i]) }

  lemma KnownDone(x: seq<Dirty>, s: seq<Ver>, k: nat, c: Option<nat>)
    requires AllKnown(x, s, k, c)
    ensures AllDone(x)
  {
    forall m | 0 <= m < |x| ensures Done(x[m]) { var i := Source(x, s, k, c, m); }
  }

  lemma {:induction false} WalkThins(x: seq<Dirty>, j: nat)
    requires Increasing(x) && j < |x| && AllDone(x)
    ensures Thinned(x, Walk(x, j), x[j].version)
    decreases j
  {
    hide Walk;
    WalkUnfold(x, j);
    var x' := x[j := Marked(x[j])];
    if !Barrier(x[j]) && x[j].state != Stable && j > 0 {
      assert x[j - 1].version < x[j].version;
      WalkThins(x', j - 1);
      ThinnedTwice(x, j, Walk(x', j - 1));
    }
  }

  lemma WalkUnfold(x: seq<Dirty>, j: nat)
    requires j < |x|
    ensures var x' := x[j := Marked(x[j])];
            Walk(x, j) == if Barrier(x[j]) then From(x', j)
                          else if x[j].state == Stable || j == 0 then x' else Walk(x', j - 1)
  {
  }

  lemma ThinnedTwice(x: seq<Dirty>, j: nat, z: seq<Dirty>)
    requires 0 < j < |x| && Increasing(x) && Thinned(x[j := Marked(x[j])], z, x[j - 1].version)
    ensures Thinned(x, z, x[j].version)
  {
    var x' := x[j := Marked(x[j])];
    forall i | 0 <= i < |z| ensures MayMark(x[|x| - |z| + i], z[i], x[j].version) {
      assert MayMark(x'[|x| - |z| + i], z[i], x[j - 1].version);
      assert x[j - 1].version < x[j].version;
    }
  }

  /** Whatever version is stabilized; a delete may take synced versions above along. */
  lemma MarkThins(x: seq<Dirty>, version: nat, top: nat)
    requires Increasing(x) && AllDone(x) && version <= top
    requires forall i :: 0 <= i < |x| && x[i].version == version && x[i].IsInstant() && i < |x| - 1 ==>
      Last(x).version <= top
    ensures Thinned(x, MarkStable(x, version), top)
  {
    hide Walk, IndexOf, Forward, Thinned, AllDone, Increasing;
    var i := IndexOf(x, version);
    ThinnedNone(x, top);
    if i != -1 {
      var j: nat := if x[i].IsInstant() then Forward(x, i) else i;
      WalkThins(x, j);
      if i < j { IncreasingEnd(x, j); }
      ThinnedWider(x, Walk(x, j), x[j].version, top);
    }
  }

  lemma ThinnedNone(x: seq<Dirty>, top: nat)
    ensures Thinned(x, x, top)
  {
  }

  lemma IncreasingEnd(x: seq<Dirty>, j: nat)
    requires Increasing(x) && j < |x|
    ensures x[j].version <= Last(x).version
  {
  }

  lemma ThinnedWider(x: seq<Dirty>, x': seq<Dirty>, top: nat, top': nat)
    requires Thinned(x, x', top) && top <= top'
    ensures Thinned(x, x', top')
  {
    forall i | 0 <= i < |x'| ensures MayMark(x[|x| - |x'| + i], x'[i], top') {
      assert MayMark(x[|x| - |x'| + i], x'[i], top);
    }
  }

  /** Thinning keeps what a replayed stack is, if the history rises with it. */
  lemma ThinnedRebuilds(x: seq<Dirty>, x': seq<Dirty>, top: nat, s: seq<Ver>, s': seq<Ver>, k: nat, c: Option<nat>)
    requires Rebuilds(x, s, k, c) && Thinned(x, x', top) && Raises(s, s', top)
    ensures Rebuilds(x', s', k, c)
  {
    hide Known, Accounted;
    ThinnedOrder(x, x', top);
    forall m | 0 <= m < |x'| ensures Known(x'[m], s', k, c) { ThinnedKnown(x, x', top, s, s', k, c, m); }
    forall i | 0 <= i < |s'| && Here(s'[i], k, c) ensures Accounted(x', s', i, k, c) {
      assert Rises(s[i], s'[i], top) && Here(s[i], k, c);
      ThinnedAccounted(x, x', top, s, s', k, c, i);
    }
    if c.None? {
      forall m, j | 0 <= m < |x'| && 0 <= j < |s'| && Wipes(s'[j], k) ensures x'[m].version > s'[j].d.version {
        assert Rises(s[j], s'[j], top) && Wipes(s[j], k);
        assert MayMark(x[|x| - |x'| + m], x'[m], top);
      }
    }
  }

  lemma ThinnedOrder(x: seq<Dirty>, x': seq<Dirty>, top: nat)
    requires Increasing(x) && Thinned(x, x', top)
    ensures Increasing(x') && forall i :: 0 <= i < |x'| ==> x'[i].version == x[|x| - |x'| + i].version
  {
    forall i | 0 <= i < |x'| ensures x'[i].version == x[|x| - |x'| + i].version {
      assert MayMark(x[|x| - |x'| + i], x'[i], top);
    }
  }

  lemma ThinnedKnown(x: seq<Dirty>, x': seq<Dirty>, top: nat, s: seq<Ver>, s': seq<Ver>, k: nat, c: Option<nat>, m: nat)
    requires AllKnown(x, s, k, c) && Thinned(x, x', top) && Raises(s, s', top) && m < |x'|
    ensures Known(x'[m], s', k, c)
  {
    var i := Source(x, s, k, c, |x| - |x'| + m);
    assert Rises(s[i], s'[i], top) && MayMark(x[|x| - |x'| + m], x'[m], top);
    assert Comes(x'[m], s'[i], k, c);
  }

  lemma ThinnedAccounted(x: seq<Dirty>, x': seq<Dirty>, top: nat, s: seq<Ver>, s': seq<Ver>, k: nat, c: Option<nat>,
          i: nat)
    requires Increasing(x) && Thinned(x, x', top) && Raises(s, s', top) && i < |s| && Accounted(x, s, i, k, c)
    ensures Accounted(x', s', i, k, c)
  {
    var version := s[i].d.version;
    assert Rises(s[i], s'[i], top);
    if Holds(x, version) {
      ThinnedHolds(x, x', top, version);
    } else if Veiled(x, version) {
      ThinnedVeiled(x, x', top, version);
    } else {
      var j :| i <= j < |s| && Wipes(s[j], k);
      assert Rises(s[j], s'[j], top) && Wipes(s'[j], k);
    }
  }

  lemma ThinnedHolds(x: seq<Dirty>, x': seq<Dirty>, top: nat, version: nat)
    requires Increasing(x) && Thinned(x, x', top) && Holds(x, version)
    ensures Holds(x', version) || Veiled(x', version)
  {
    ThinnedOrder(x, x', top);
    var m, off :| 0 <= m < |x| && x[m].version == version && off == |x| - |x'|;
    if m >= off {
      assert x'[m - off].version == x[|x| - |x'| + (m - off)].version;
    } else {
      assert x'[0].version == x[off].version && x[m].version < x[off].version;
      assert Veils(x'[0], version);
    }
  }

  lemma ThinnedVeiled(x: seq<Dirty>, x': seq<Dirty>, top: nat, version: nat)
    requires Increasing(x) && Thinned(x, x', top) && Veiled(x, version)
    ensures Veiled(x', version)
  {
    ThinnedOrder(x, x', top);
    var m, off :| 0 <= m < |x| && Veils(x[m], version) && off == |x| - |x'|;
    if m >= off {
      assert MayMark(x[|x| - |x'| + (m - off)], x'[m - off], top);
      assert Veils(x'[m - off], version);
    } else {
      assert x'[0].version == x[off].version && x[m].version < x[off].version;
      assert Veils(x'[0], version);
    }
  }

  /** More of the history may be stable than the journal says. */
  lemma RaisedRebuilds(x: seq<Dirty>, s: seq<Ver>, s': seq<Ver>, top: nat, k: nat, c: Option<nat>)
    requires Rebuilds(x, s, k, c) && Raises(s, s', top)
    ensures Rebuilds(x, s', k, c)
  {
    assert Thinned(x, x, top);
    ThinnedRebuilds(x, x, top, s, s', k, c);
  }

  // ----- rolling back

  /** The versions up to the given one. */
  function Dropped(s: seq<Ver>, version: nat): (r: seq<Ver>)
    ensures r <= s
  {
    s[..Place(s, version + 1)]
  }

  /** Nothing above the version has ever been stable. */
  predicate MayDrop(s: seq<Ver>, version: nat) {
    forall i :: 0 <= i < |s| && s[i].d.state == Stable ==> s[i].d.version <= version
  }

  lemma DroppedShape(s: seq<Ver>, version: nat, n: nat)
    requires Ordered(s, n)
    ensures Ordered(Dropped(s, version), n)
    ensures forall i :: 0 <= i < |s| ==> (s[i].d.version <= version <==> i < |Dropped(s, version)|)
  {
    PlaceSplits(s, n, version + 1);
    var r := Dropped(s, version);
    forall i, j | 0 <= i < j < |r| ensures Follows(r[i], r[j]) { OrderedPair(s, n, i, j); }
  }

  /** The replay drops the same versions when none of them can be stable. */
  lemma {:induction false} RolledBackSplit(x: seq<Dirty>, version: nat) returns (n: nat)
    requires Increasing(x) && forall i :: 0 <= i < |x| && x[i].version > version ==> x[i].state == Synced
    ensures n <= |x| && RolledBack(x, version) == x[..n]
    ensures forall i :: 0 <= i < |x| ==> (x[i].version <= version <==> i < n)
    decreases |x|
  {
    if x == [] || Last(x).version <= version {
      n := |x|;
      assert forall i :: 0 <= i < |x| ==> x[i].version <= x[|x| - 1].version;
    } else {
      var t := x[..|x| - 1];
      n := RolledBackSplit(t, version);
      assert forall i :: 0 <= i < |t| ==> t[i] == x[i];
      assert t[..n] == x[..n];
    }
  }

  lemma UnstableAbove(x: seq<Dirty>, s: seq<Ver>, version: nat, k: nat, c: Option<nat>)
    requires AllKnown(x, s, k, c) && MayDrop(s, version)
    ensures forall i :: 0 <= i < |x| && x[i].version > version ==> x[i].state == Synced
  {
    forall m | 0 <= m < |x| && x[m].version > version ensures x[m].state == Synced {
      var i := Source(x, s, k, c, m);
    }
  }

  lemma DropRebuilds(x: seq<Dirty>, s: seq<Ver>, version: nat, n: nat, k: nat, c: Option<nat>)
    requires Ordered(s, n) && Rebuilds(x, s, k, c) && MayDrop(s, version)
    ensures Rebuilds(RolledBack(x, version), Dropped(s, version), k, c)
  {
    hide RolledBack, Dropped, Known, Accounted, Ordered;
    UnstableAbove(x, s, version, k, c);
    DroppedShape(s, version, n);
    var r := Dropped(s, version);
    var h := RolledBackSplit(x, version);
    var x' := x[..h];
    forall m | 0 <= m < |x'| ensures Known(x'[m], r, k, c) {
      var i := Source(x, s, k, c, m);
      assert Comes(x'[m], r[i], k, c);
      assert Known(x'[m], r, k, c) by { KnownAt(x'[m], r, k, c, i); }
    }
    forall i | 0 <= i < |r| && Here(r[i], k, c) ensures Accounted(x', r, i, k, c) {
      assert r[i] == s[i];
      DropAccounted(x, s, r, version, n, k, c, h, i);
    }
    if c.None? {
      forall m, j | 0 <= m < |x'| && 0 <= j < |r| && Wipes(r[j], k) ensures x'[m].version > r[j].d.version {
        assert r[j] == s[j] && x'[m] == x[m];
      }
    }
  }

  lemma KnownAt(y: Dirty, s: seq<Ver>, k: nat, c: Option<nat>, i: nat)
    requires i < |s| && Comes(y, s[i], k, c)
    ensures Known(y, s, k, c)
  {
  }

  lemma DropAccounted(x: seq<Dirty>, s: seq<Ver>, r: seq<Ver>, version: nat, n: nat, k: nat, c: Option<nat>, h: nat,
          i: nat)
    requires Ordered(s, n) && MayDrop(s, version) && AllKnown(x, s, k, c) && r <= s && i < |r| && h <= |x|
    requires forall m :: 0 <= m < |x| ==> (x[m].version <= version <==> m < h)
    requires forall j :: 0 <= j < |s| ==> (s[j].d.version <= version <==> j < |r|)
    requires Accounted(x, s, i, k, c)
    ensures Accounted(x[..h], r, i, k, c)
  {
    var v := s[i].d.version;
    if Holds(x, v) {
      var m :| 0 <= m < |x| && x[m].version == v;
      assert x[..h][m].version == v;
    } else if Veiled(x, v) {
      var m :| 0 <= m < |x| && Veils(x[m], v);
      var j := Source(x, s, k, c, m);
      assert x[..h][m] == x[m];
    } else {
      var j :| i <= j < |s| && Wipes(s[j], k);
      OrderedAt(s, n, j);
      assert r[j] == s[j];
    }
  }
}
